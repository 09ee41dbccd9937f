// The polling client that closes the reset protocol: arm, then poll until
// recovery succeeds or the budget is spent.
module PollClient {
  import opened Prelude
  import opened Machine
  import opened Invariant
  import opened ResetTheorems

  const BUDGET: int := 15_000     // ms
  const PERIOD: int := 100
  const POLLS: nat := 151

  // `answers(k)` is what POST_RESET completes with on poll k. The client's
  // exit code 1 says that the chip ignored the trigger; 2, any other failure.
  method CmdReset(found: bool, armed: bool, answers: nat -> Status) returns (rc: int, log: seq<Status>)
    ensures 0 <= rc <= 2 && |log| <= POLLS
    ensures forall k :: 0 <= k < |log| ==> log[k] == answers(k)
    ensures forall k :: 0 <= k < |log| - 1 ==> log[k] != Success
    ensures log == [] <==> !(found && armed)
    ensures rc == 0 <==> log != [] && log[|log| - 1] == Success
    ensures found && armed && rc != 0 ==> |log| == POLLS
    ensures rc == 1 <==> |log| == POLLS && log[POLLS - 1] == DeviceBusy
    // On the traces the driver can give after one arm, the last error alone
    // tells that every poll saw the marker set.
    ensures PollShape(log) ==> (rc == 1 <==> |log| == POLLS && forall k :: 0 <= k < POLLS ==> log[k] == DeviceBusy)
  {
    rc, log := 2, [];
    if !found || !armed {
      return;
    }
    var waited := 0;
    while true
      invariant 0 <= waited <= BUDGET && waited == PERIOD * |log|
      invariant forall k :: 0 <= k < |log| ==> log[k] == answers(k) && log[k] != Success
      decreases BUDGET - waited
    {
      var err := answers(|log|);
      log := log + [err];
      if err == Success {
        rc := 0;
        return;
      }
      if waited >= BUDGET {
        if err == DeviceBusy {
          rc := 1;
        }
        return;
      }
      waited := waited + PERIOD;
    }
  }

  // And the driver's answers are such traces: whatever happens between the
  // polls, a run with one arm, full-length config reads and parity clear in
  // the saved COMMAND whose last answer is BUSY has answered nothing else.
  lemma LastAnswerTellsAll(s: State)
    requires Reachable(s) && SingleArm(s)
    ensures PollShape(s.polls.log)
    ensures s.polls.log != [] && s.polls.log[|s.polls.log| - 1] == DeviceBusy ==>
              forall k :: 0 <= k < |s.polls.log| ==> s.polls.log[k] == DeviceBusy
  {
    forall i, j | 0 <= i < j < |s.polls.log| && s.polls.log[i] != DeviceBusy
      ensures s.polls.log[j] != DeviceBusy
    {
      BusyNeverReturns(s, i, j);
    }
  }
}
