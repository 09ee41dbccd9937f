// The firmware's side of the mailbox, on the message traffic: one request after
// another taken and answered, word by word.
module FirmwareModel {
  import opened Prelude
  import opened Rings
  import opened MailboxMemory

  // One action of the firmware: read a word of the oldest request, take the
  // request once all eight are read, write a word of the next response, make
  // the response visible once all eight are written - or the path to the CSM
  // hangs, so that the driver reads all-1s and its writes are lost. An action
  // whose turn it is not does nothing.
  datatype FirmwareStep = Fetch | Accept | Draft(word: u32) | Publish | Hang

  type Script = seq<FirmwareStep>

  // What the firmware does before each access of an operation of the driver.
  ghost predicate Calm(fw: nat -> Script) {
    forall k :: Hang !in fw(k)
  }

  ghost predicate OnlyFirst(fw: nat -> Script) {
    forall k :: k >= 1 ==> fw(k) == []
  }

  ghost predicate Quiet(fw: nat -> Script) {
    forall k :: fw(k) == []
  }

  // What one action does to the traffic of rings of n entries.
  function Stepped(t: Traffic, n: nat, step: FirmwareStep): (r: Traffic)
    ensures r.pushed == t.pushed && r.popped == t.popped
    ensures t.taken <= r.taken && t.posted <= r.posted
  {
    match step
    case Fetch =>
      if |t.fetched| < 8 && t.taken < |t.pushed| then
        t.(fetched := t.fetched + [t.pushed[t.taken][|t.fetched|]])
      else t
    case Accept =>
      if |t.fetched| == 8 then t.(taken := t.taken + 1, received := t.received + [t.fetched], fetched := []) else t
    case Draft(word) =>
      if |t.drafted| < 8 && |t.posted| < t.taken && |t.posted| - t.popped < n then
        t.(drafted := t.drafted + [word])
      else t
    case Publish =>
      if |t.drafted| == 8 then t.(posted := t.posted + [t.drafted], drafted := []) else t
    case Hang => t
  }

  function Run(t: Traffic, n: nat, steps: Script): (r: Traffic)
    ensures r.pushed == t.pushed && r.popped == t.popped
    ensures t.taken <= r.taken && t.posted <= r.posted
  {
    if steps == [] then t else Stepped(Run(t, n, steps[..|steps| - 1]), n, steps[|steps| - 1])
  }

  lemma RunNothing(t: Traffic, n: nat)
    ensures Run(t, n, []) == t
  {
  }

  lemma RunNext(t: Traffic, n: nat, steps: Script, i: nat)
    requires i < |steps|
    ensures Run(t, n, steps[..i + 1]) == Stepped(Run(t, n, steps[..i]), n, steps[i])
  {
    assert steps[..i + 1][..i] == steps[..i];
  }

  // Taking one request up.
  function Uptake(): (steps: Script)
    ensures |steps| == 9 && Hang !in steps
  {
    seq(8, _ => Fetch) + [Accept]
  }

  // However much of the request had been read before.
  lemma UptakeTakes(t: Traffic, n: nat)
    requires Fetching(t) && t.taken < |t.pushed|
    ensures Run(t, n, Uptake()) ==
              t.(taken := t.taken + 1, received := t.received + [t.pushed[t.taken]], fetched := [])
  {
    hide Run;
    var zeros: Msg := [0, 0, 0, 0, 0, 0, 0, 0];
    Fetches(t, n, zeros, 8);
    assert t.pushed[t.taken][..8] == t.pushed[t.taken];
    RunNext(t, n, Service(zeros), 8);
    assert Service(zeros)[..9] == Uptake();
  }

  // Taking one request up and answering it.
  function Service(answer: Msg): (steps: Script)
    ensures |steps| == 18 && Hang !in steps
  {
    seq(8, _ => Fetch) + [Accept] + seq(8, i requires 0 <= i < 8 => Draft(answer[i])) + [Publish]
  }

  // Run on a mailbox with a request queued and room for a response, the service
  // takes the oldest request and posts one response, which begins with what
  // had been written of it before.
  lemma ServiceAnswers(t: Traffic, n: nat, answer: Msg)
    requires Fetching(t) && |t.drafted| <= 8
    requires t.popped <= |t.posted| <= t.taken < |t.pushed| && |t.posted| - t.popped < n
    ensures Run(t, n, Service(answer)) ==
              t.(taken := t.taken + 1, received := t.received + [t.pushed[t.taken]], fetched := [],
                 posted := t.posted + [t.drafted + answer[..8 - |t.drafted|]], drafted := [])
  {
    hide Run, Fetching;
    var steps := Service(answer);
    Drafts(t, n, answer, 8);
    RunNext(t, n, steps, 17);
    assert steps[..18] == steps;
  }

  function Least(i: nat, j: nat): nat {
    if i < j then i else j
  }

  lemma {:induction false} Fetches(t: Traffic, n: nat, answer: Msg, i: nat)
    requires Fetching(t) && t.taken < |t.pushed| && i <= 8
    ensures Run(t, n, Service(answer)[..i]) == t.(fetched := t.pushed[t.taken][..Least(8, |t.fetched| + i)])
  {
    hide Run;
    if i == 0 {
      RunNothing(t, n);
    } else {
      Fetches(t, n, answer, i - 1);
      RunNext(t, n, Service(answer), i - 1);
    }
  }

  lemma {:induction false} Drafts(t: Traffic, n: nat, answer: Msg, i: nat)
    requires Fetching(t) && |t.drafted| <= 8 && i <= 8
    requires t.popped <= |t.posted| <= t.taken < |t.pushed| && |t.posted| - t.popped < n
    ensures Run(t, n, Service(answer)[..9 + i]) ==
              t.(taken := t.taken + 1, received := t.received + [t.pushed[t.taken]], fetched := [],
                 drafted := t.drafted + answer[..Least(8 - |t.drafted|, i)])
  {
    hide Run;
    if i == 0 {
      Fetches(t, n, answer, 8);
      assert t.pushed[t.taken][..8] == t.pushed[t.taken];
      RunNext(t, n, Service(answer), 8);
    } else {
      Drafts(t, n, answer, i - 1);
      RunNext(t, n, Service(answer), 8 + i);
    }
  }
}
