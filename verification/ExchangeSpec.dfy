// What one exchange with the firmware comes to, told by the message traffic
// before and after it: drain, push, polls, and the whole put together.
module ExchangeSpec {
  import opened Prelude
  import opened Rings
  import opened RingMath
  import opened MailboxMemory
  import opened FirmwareModel
  import opened LocateQueue

  // What the firmware does before each access of each of a series of pops.
  type Firmware = nat -> nat -> Script

  ghost predicate CalmAll(fw: Firmware) {
    forall i, k :: Hang !in fw(i)(k)
  }

  ghost predicate OnlyAtFirst(fw: Firmware) {
    forall i, k :: i + k >= 1 ==> fw(i)(k) == []
  }

  ghost predicate Silent(fw: Firmware) {
    forall i :: Quiet(fw(i))
  }

  // The course of one exchange: what the driver sees while locating, with the
  // firmware acting before and the path hanging before read `hangAt` of the
  // control block; what the firmware does during the drain, the push and the
  // polls; and the clock of the polls.
  datatype Course = Course(world: World, hangAt: nat, before: Script,
                           draining: Firmware, pushing: nat -> Script, polling: Firmware, clock: nat -> nat)

  // The path stays up, and the firmware is still from the drain on but for what
  // it does before the first poll.
  ghost predicate Still(c: Course) {
    && c.hangAt >= 2 && Hang !in c.before && Silent(c.draining) && Quiet(c.pushing)
    && OnlyAtFirst(c.polling) && CalmAll(c.polling)
  }

  // A push and its polls, from traffic t to t': the reply is the oldest response
  // not popped before, or, if the path hung as it was read, its first words.
  ghost predicate Replied(t: Traffic, t': Traffic, hung: bool, msg: Msg, status: Status, reply: Msg) {
    && (status in {Success, IoTimeout} ==> t'.pushed == t.pushed + [msg])
    && (status == Success ==>
          && t'.popped == t.popped + (if hung then 0 else 1)
          && t.popped < |t'.posted| && Cut(reply, t'.posted[t.popped])
          && (!hung ==> reply == t'.posted[t.popped]))
  }

  // A timeout means that no response is there, a busy ring that it is full.
  ghost predicate ToldTrue(t: Traffic, t': Traffic, n: nat, status: Status) {
    && (status == IoTimeout ==> t'.popped == t.popped == |t'.posted|)
    && (status == DeviceBusy ==> |t'.pushed| - t'.taken == n)
  }

  // With k responses ever popped after the drain: the reply is the k-th ever
  // posted, so it answers the k-th request ever pushed, the oldest one still
  // unanswered. No response that waited at the start comes as late as that.
  ghost predicate AnswersTheOldest(t: Traffic, t': Traffic, hung: bool, n: nat, msg: Msg, status: Status, reply: Msg,
                                   k: nat) {
    && Replied(t.(popped := k), t', hung, msg, status, reply) && ToldTrue(t.(popped := k), t', n, status)
    && (status in {Success, IoTimeout} ==> |t.posted| <= k <= |t.pushed|)
  }

  // Begun with every request answered, an exchange returns its own reply
  // exactly if the ring does not stall.
  ghost predicate OwnReplyIff(t: Traffic, t': Traffic, hung: bool, msg: Msg, status: Status, reply: Msg, k: nat,
                              stalls: bool) {
    && Replied(t.(popped := k), t', hung, msg, status, reply)
    && (status == Success ==> k <= |t.pushed| && (k == |t.pushed| <==> !stalls))
  }

  // With the firmware running one script before the first poll and still
  // otherwise, an exchange does to the traffic what drain, push, script and
  // reply do; a busy ring ends it after the drain.
  ghost predicate Answered(t: Traffic, t': Traffic, n: nat, steps: Script, status: Status, k: nat) {
    && k <= |t.posted|
    && (status == DeviceBusy ==> t' == t.(popped := k))
    && (status in {Success, IoTimeout} ==>
          t' == Run(t.(popped := k, pushed := t'.pushed), n, steps).(popped := t'.popped))
  }

  // A queue at one moment: whether its messages are intact, whether its path
  // has hung, where the reader of its responses stands, and its traffic.
  datatype View = View(valid: bool, hung: bool, r: nat, t: Traffic)

  ghost predicate Sane(v: View, n: nat) {
    v.valid ==>
      && v.t.popped <= |v.t.posted| <= v.t.taken <= |v.t.pushed|
      && |v.t.pushed| - v.t.taken <= n && |v.t.posted| - v.t.popped <= n && v.r < 2 * n
  }

  // Every request pushed has been taken and answered.
  ghost predicate AllAnswered(v: View) {
    |v.t.posted| == |v.t.pushed|
  }

  // Popped again and again, the response ring comes to look empty while as
  // many responses as the gap still wait.
  ghost predicate Stalls(v: View, n: nat)
    requires n > 0
  {
    var ready := |v.t.posted| - v.t.popped;
    ready >= Gap(n) && Advance(v.r, ready, n) < Gap(n)
  }

  // No request waits to be taken, and with one more pushed there are still
  // fewer outstanding than the gap, or the gap is wider than the ring.
  ghost predicate Roomy(t: Traffic, n: nat)
    requires n > 0
  {
    t.taken == |t.pushed| && (Gap(n) > n || |t.pushed| - t.popped + 1 < Gap(n))
  }

  // From view a to view b time has passed.
  ghost predicate Later(a: View, b: View) {
    a.t.popped <= b.t.popped && a.t.taken <= b.t.taken && a.t.posted <= b.t.posted && (a.hung ==> b.hung)
  }

  // What a pop comes to. `right` tells whether a report of no response is true.
  ghost predicate Popped(a: View, b: View, n: nat, fw: nat -> Script, status: Status, msg: Msg, right: bool)
    requires n > 0
  {
    && Later(a, b) && b.t.pushed == a.t.pushed && (Calm(fw) ==> b.hung == a.hung)
    && b.t.popped == a.t.popped + (if status == Success && !b.hung then 1 else 0)
    && (status == DeviceBusy ==> !b.hung && (right <==> |b.t.posted| == b.t.popped))
    && (status != DeviceBusy ==> right) && (status == Success ==> !a.hung)
    && (a.valid ==>
          && b.valid && Sane(b, n)
          && (Gap(n) > n || |a.t.pushed| - a.t.popped < Gap(n) ==> right)
          && (OnlyFirst(fw) ==> b.t == Run(a.t, n, fw(0)).(popped := b.t.popped))
          && (!b.hung ==> status in {Success, DeviceBusy})
          && (status == Success ==>
                && a.t.popped < |b.t.posted| && Cut(msg, b.t.posted[a.t.popped])
                && (!b.hung ==> msg == b.t.posted[a.t.popped]))
          && (AllAnswered(a) && !b.hung && a.t.popped <= |a.t.posted| ==>
                && b.t.posted == a.t.posted
                && b.r == (if status == Success then Advance(a.r, 1, n) else a.r)
                && (status == DeviceBusy <==> ReadsEmpty(a.r, |a.t.posted| - a.t.popped, n))))
  }

  // What i successful pops of a drain come to.
  ghost predicate Draining(a: View, b: View, n: nat, fw: Firmware, i: nat)
    requires n > 0
  {
    && Later(a, b) && b.t.pushed == a.t.pushed && (CalmAll(fw) ==> b.hung == a.hung)
    && b.t.popped <= a.t.popped + i && (!b.hung ==> b.t.popped == a.t.popped + i)
    && (a.valid ==>
          && b.valid && Sane(b, n)
          && (Silent(fw) ==> b.t == a.t.(popped := b.t.popped))
          && (AllAnswered(a) && !b.hung ==>
                && b.t.posted == a.t.posted && i <= |a.t.posted| - a.t.popped && b.r == Advance(a.r, i, n)
                && (Stalls(a, n) ==> |b.t.posted| - b.t.popped >= Gap(n))))
  }

  lemma DrainStarts(a: View, n: nat, fw: Firmware)
    requires n > 0 && Sane(a, n)
    ensures Draining(a, a, n, fw, 0)
  {
    hide Advance, Gap;
    if a.valid { AdvanceNone(a.r, n); }
  }

  lemma DrainGoesOn(a: View, m: View, b: View, n: nat, fw: Firmware, i: nat, msg: Msg, right: bool)
    requires n > 0 && Sane(a, n) && Draining(a, m, n, fw, i) && Popped(m, b, n, fw(i), Success, msg, right)
    ensures Draining(a, b, n, fw, i + 1)
  {
    hide Advance, Gap, Run, Cut;
    RunNothing(m.t, n);
    var ready := |a.t.posted| - a.t.popped;
    if a.valid && AllAnswered(a) && !b.hung {
      AdvanceTwice(a.r, i, ready - i, n);
      AdvanceTwice(a.r, i, 1, n);
    }
  }

  // It ends with a pop that does not succeed, or after as many as the ring has
  // entries.
  lemma DrainStops(a: View, m: View, b: View, n: nat, fw: Firmware, i: nat, status: Status, msg: Msg, right: bool)
    requires n > 0 && Sane(a, n) && Draining(a, m, n, fw, i)
    requires Popped(m, b, n, fw(i), status, msg, right) && status != Success
    ensures Drained(a, b, n, fw, right)
  {
    hide Advance, Gap, Run, Cut;
    RunNothing(m.t, n);
    GapBounds(n);
    var ready := |a.t.posted| - a.t.popped;
    if a.valid && AllAnswered(a) && !b.hung {
      AdvanceTwice(a.r, i, ready - i, n);
    }
  }

  lemma DrainCompletes(a: View, b: View, n: nat, fw: Firmware, i: nat)
    requires n > 0 && Sane(a, n) && Draining(a, b, n, fw, i) && (i == n || b.hung)
    ensures Drained(a, b, n, fw, true)
  {
    hide Advance, Gap, Run, Cut;
    GapBounds(n);
  }

  // The drain pops every response that was there at the start, if every check
  // was right. With every request answered that is so exactly if the ring does
  // not stall; a ring that does keeps as many responses as the gap.
  ghost predicate Drained(a: View, b: View, n: nat, fw: Firmware, right: bool)
    requires n > 0
  {
    && Later(a, b) && b.t.pushed == a.t.pushed && (CalmAll(fw) ==> b.hung == a.hung)
    && (a.valid ==>
          && b.valid && Sane(b, n)
          && (Gap(n) > n || |a.t.pushed| - a.t.popped < Gap(n) ==> right)
          && (Silent(fw) ==> b.t == a.t.(popped := b.t.popped))
          && (!b.hung && right ==> |a.t.posted| <= b.t.popped)
          && (AllAnswered(a) && !b.hung ==>
                && b.t.posted == a.t.posted && (right <==> !Stalls(a, n))
                && |b.t.posted| - b.t.popped == if Stalls(a, n) then Gap(n) else 0))
  }

  // At most this request is pushed, at most one response popped after the k
  // popped by the end of the drain, and the doorbell rung exactly for a push.
  ghost predicate AtMostOneOfEach(a: View, b: View, msg: Msg, k: nat, rung: bool) {
    && b.t.pushed in {a.t.pushed, a.t.pushed + [msg]}
    && (!b.hung ==> (rung <==> b.t.pushed == a.t.pushed + [msg]))
    && a.t.popped <= k <= b.t.popped <= k + 1
  }

  // What a push comes to, with the firmware still or not.
  ghost predicate Pushed(a: View, b: View, n: nat, msg: Msg, still: bool, status: Status, right: bool)
    requires n > 0
  {
    && Later(a, b) && b.t.popped == a.t.popped
    && b.t.pushed == (if status == Success && !b.hung then a.t.pushed + [msg] else a.t.pushed)
    && (a.valid ==>
          && (TWO32 % (2 * n) == 0 || a.t.taken == |a.t.pushed| ==> right)
          && (Slip(n) < n || right || status != Success ==> b.valid)
          && (right && !b.hung ==> status in {Success, DeviceBusy})
          && (right && status == DeviceBusy ==> |b.t.pushed| - b.t.taken == n)
          && (still ==> b.hung == a.hung && b.t == a.t.(pushed := b.t.pushed)))
  }

  // What the polls come to. With right checks a timeout means that no response
  // is there.
  ghost predicate Awaited(a: View, b: View, n: nat, fw: Firmware, status: Status, reply: Msg, right: bool)
    requires n > 0
  {
    && Later(a, b) && b.t.pushed == a.t.pushed && (CalmAll(fw) ==> b.hung == a.hung)
    && b.t.popped == a.t.popped + (if status == Success && !b.hung then 1 else 0)
    && status != DeviceBusy && (right && status == IoTimeout ==> |b.t.posted| == b.t.popped)
    && (status == Success ==> !a.hung) && (status == IoTimeout ==> !b.hung)
    && (a.valid ==>
          && b.valid
          && (Gap(n) > n || |a.t.pushed| - a.t.popped < Gap(n) ==> right)
          && (!b.hung ==> status in {Success, IoTimeout})
          && (status == Success ==>
                && a.t.popped < |b.t.posted| && Cut(reply, b.t.posted[a.t.popped])
                && (!b.hung ==> reply == b.t.posted[a.t.popped]))
          && (OnlyAtFirst(fw) ==> b.t == Run(a.t, n, fw(0)(0)).(popped := b.t.popped)))
  }

  // What `polls` fruitless polls come to.
  ghost predicate Waiting(a: View, b: View, n: nat, fw: Firmware, polls: nat, right: bool)
    requires n > 0
  {
    && Later(a, b) && b.t.pushed == a.t.pushed && b.t.popped == a.t.popped && (CalmAll(fw) ==> b.hung == a.hung)
    && (polls == 0 ==> b.t == a.t && right)
    && (polls > 0 ==> !b.hung && (right ==> |b.t.posted| == b.t.popped))
    && (a.valid ==>
          && b.valid
          && (Gap(n) > n || |a.t.pushed| - a.t.popped < Gap(n) ==> right)
          && (polls > 0 && OnlyAtFirst(fw) ==> b.t == Run(a.t, n, fw(0)(0))))
  }

  lemma WaitStarts(a: View, n: nat, fw: Firmware)
    requires n > 0
    ensures Waiting(a, a, n, fw, 0, true)
  {
  }

  lemma WaitGoesOn(a: View, m: View, b: View, n: nat, fw: Firmware, polls: nat, msg: Msg, right: bool, ok: bool)
    requires n > 0 && Waiting(a, m, n, fw, polls, right) && Popped(m, b, n, fw(polls), DeviceBusy, msg, ok)
    ensures Waiting(a, b, n, fw, polls + 1, right && ok)
  {
    hide Run, Gap, ReadsEmpty, Cut;
    RunNothing(m.t, n);
  }

  lemma WaitEnds(a: View, m: View, b: View, n: nat, fw: Firmware, polls: nat, status: Status, reply: Msg,
                 right: bool, ok: bool)
    requires n > 0 && Waiting(a, m, n, fw, polls, right) && Popped(m, b, n, fw(polls), status, reply, ok)
    requires status !in {DeviceBusy, IoTimeout}
    ensures Awaited(a, b, n, fw, status, reply, right && ok)
  {
    hide Run, Gap, ReadsEmpty, Cut;
    RunNothing(m.t, n);
  }

  lemma WaitTimesOut(a: View, b: View, n: nat, fw: Firmware, polls: nat, reply: Msg, right: bool)
    requires n > 0 && Waiting(a, b, n, fw, polls, right) && polls > 0
    ensures Awaited(a, b, n, fw, IoTimeout, reply, right)
  {
    hide Run, Gap;
  }

  // What push and polls come to.
  ghost predicate Asked(a: View, b: View, n: nat, msg: Msg, c: Course, status: Status, reply: Msg, right: bool)
    requires n > 0
  {
    && Later(a, b) && (status in {Success, IoTimeout} ==> !a.hung)
    && (a.valid ==>
          && (TWO32 % (2 * n) == 0 || Roomy(a.t, n) ==> right)
          && (Slip(n) < n || right || a.t.taken == |a.t.pushed| ==> b.valid)
          && (right || a.t.taken == |a.t.pushed| ==> Replied(a.t, b.t, b.hung, msg, status, reply))
          && (right ==> ToldTrue(a.t, b.t, n, status))
          && (!b.hung && right ==> status in {Success, IoTimeout, DeviceBusy})
          && (right && Still(c) ==>
                b.hung == a.hung && Answered(a.t, b.t, n, c.polling(0)(0), status, a.t.popped)))
  }

  // What an exchange comes to. `k` is how many responses had ever been popped
  // after the drain; `right` tells whether every ring check was. That is certain
  // if 2n divides 2^32, if the start is roomy, or if every request is answered
  // then and the ring does not stall. Of a queue whose messages are intact they
  // stay so unless a check is wrong on a ring whose slip is at least n.
  ghost predicate Settles(a: View, b: View, n: nat, msg: Msg, before: Script, c: Course,
                          status: Status, reply: Msg, k: nat, right: bool)
    requires n > 0
  {
    a.valid ==>
      && (TWO32 % (2 * n) == 0 || Roomy(a.t, n) ==> right)
      && (Slip(n) < n || right ==> b.valid)
      && (right ==> AnswersTheOldest(a.t, b.t, b.hung, n, msg, status, reply, k))
      && (right && Still(c) ==>
            b.hung == a.hung && Answered(Run(a.t, n, before), b.t, n, c.polling(0)(0), status, k))
      && (AllAnswered(a) ==>
            && b.valid && (!b.hung && !Stalls(a, n) ==> right)
            && OwnReplyIff(a.t, b.t, b.hung, msg, status, reply, k, Stalls(a, n)))
  }

  lemma PushThenAwait(a: View, m: View, b: View, n: nat, msg: Msg, c: Course, status: Status, reply: Msg,
                      pushed: bool, awaited: bool)
    requires n > 0 && Sane(a, n)
    requires Pushed(a, m, n, msg, Quiet(c.pushing), Success, pushed)
    requires Awaited(m, b, n, c.polling, status, reply, awaited)
    ensures Asked(a, b, n, msg, c, status, reply, pushed && awaited)
    ensures AtMostOneOfEach(a, b, msg, a.t.popped, true)
  {
    hide Run, Gap, Slip, Cut;
    GapBounds(n);
    if TWO32 % (2 * n) == 0 { GapWide(n); }
  }

  lemma NotPushed(a: View, b: View, n: nat, msg: Msg, c: Course, status: Status, reply: Msg, right: bool)
    requires n > 0 && Sane(a, n)
    requires Pushed(a, b, n, msg, Quiet(c.pushing), status, right) && status != Success && status != IoTimeout
    ensures Asked(a, b, n, msg, c, status, reply, right)
    ensures AtMostOneOfEach(a, b, msg, a.t.popped, false)
  {
  }

  lemma DrainThenAsk(a: View, m: View, b: View, n: nat, msg: Msg, c: Course, status: Status, reply: Msg,
                     drained: bool, asked: bool, rung: bool)
    requires n > 0 && Sane(a, n)
    requires Drained(a, m, n, c.draining, drained) && Asked(m, b, n, msg, c, status, reply, asked)
    requires AtMostOneOfEach(m, b, msg, m.t.popped, rung) && (Still(c) ==> CalmAll(c.draining))
    ensures Settles(a, b, n, msg, [], c, status, reply, m.t.popped, drained && asked)
    ensures AtMostOneOfEach(a, b, msg, m.t.popped, rung)
  {
    hide Run, Gap, Slip, Cut;
    RunNothing(a.t, n);
    GapBounds(n);
    if TWO32 % (2 * n) == 0 { GapWide(n); }
  }

  // Nothing but the firmware has run.
  ghost predicate FirmwareRan(a: View, b: View, n: nat, steps: Script) {
    && Later(a, b) && b.t.pushed == a.t.pushed && b.t.popped == a.t.popped
    && (a.valid ==> b.valid && b.t == Run(a.t, n, steps))
    && (a.valid && AllAnswered(a) ==> b.t.posted == a.t.posted && b.r == a.r)
  }

  // What the firmware does before an exchange takes nothing from what the
  // exchange then comes to.
  lemma FirmwareBefore(a: View, m: View, b: View, n: nat, msg: Msg, c: Course, status: Status, reply: Msg,
                       k: nat, right: bool, rung: bool)
    requires n > 0 && Sane(a, n) && Sane(m, n)
    requires FirmwareRan(a, m, n, c.before) && Settles(m, b, n, msg, [], c, status, reply, k, right)
    requires AtMostOneOfEach(m, b, msg, k, rung) && (Still(c) ==> m.hung == a.hung)
    ensures Settles(a, b, n, msg, c.before, c, status, reply, k, right) && AtMostOneOfEach(a, b, msg, k, rung)
  {
    hide Run, Gap, Slip, Cut;
    RunNothing(m.t, n);
  }

  // An exchange refused before its push comes to nothing.
  lemma Refused(a: View, b: View, n: nat, msg: Msg, c: Course, status: Status, reply: Msg)
    requires n > 0 && Sane(a, n) && (a == b || FirmwareRan(a, b, n, c.before))
    requires status !in {Success, IoTimeout, DeviceBusy} && (Still(c) ==> b.hung == a.hung)
    ensures Settles(a, b, n, msg, c.before, c, status, reply, a.t.popped, true)
    ensures AtMostOneOfEach(a, b, msg, a.t.popped, false)
  {
  }

  // Begun with every request answered and fewer responses waiting than the gap,
  // an exchange that succeeds returns the response to its own request, if the
  // path is still up whole.
  lemma OwnReply(a: View, b: View, n: nat, msg: Msg, before: Script, c: Course, reply: Msg, k: nat, right: bool)
    requires n > 0 && a.valid && Sane(a, n) && AllAnswered(a) && |a.t.posted| - a.t.popped < Gap(n)
    requires Settles(a, b, n, msg, before, c, Success, reply, k, right)
    ensures k == |a.t.pushed| < |b.t.posted| && b.t.pushed == a.t.pushed + [msg]
    ensures Cut(reply, b.t.posted[k]) && (!b.hung ==> reply == b.t.posted[k])
  {
    hide Run, Gap, Slip, Cut;
  }
}
