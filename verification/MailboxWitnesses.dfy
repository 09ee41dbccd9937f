// Runs in which the mailbox does not do what it is for: replies that come late
// and are taken for another's, and a request overwritten in its slot.
module MailboxWitnesses {
  import opened Prelude
  import opened RingMath
  import opened Rings
  import opened MailboxMemory
  import opened FirmwareModel
  import opened Mailbox
  import opened LocateQueue
  import opened ExchangeSpec
  import opened ArcExchange

  // Boot status ready on every route, and stalls of just their length.
  function ReadyWorld(controlBlock: u32): World {
    World((round, route) => 1, route => controlBlock, (addr, k) => 0, k => STALL * k)
  }

  // The clock of an exchange whose second is over at its first poll.
  function LateClock(k: nat): nat {
    if k == 0 then 0 else REPLY_TIMEOUT + STALL * k
  }

  // An exchange in which the firmware runs one script before the queue is
  // located, another before the first poll, and is still otherwise.
  function Scripted(controlBlock: u32, before: Script, steps: Script): Course {
    Course(ReadyWorld(controlBlock), 2, before, i => k => [], k => [],
           i => k => if i + k == 0 then steps else [], LateClock)
  }

  lemma ScriptedIsStill(controlBlock: u32, before: Script, steps: Script)
    requires Hang !in before && Hang !in steps
    ensures var c := Scripted(controlBlock, before, steps);
            && Still(c) && c.before == before && c.polling(0)(0) == steps
            && Ticks(c.clock) && Ticks(c.world.clock)
            && forall aperture :: AnswersOnce(c.world, aperture)
  {
    var c := Scripted(controlBlock, before, steps);
    forall aperture ensures AnswersOnce(c.world, aperture) {
      assert Answers(c.world, aperture, 0, ROUTE_ORDER[0]);
      assert SomeAnswers(c.world, aperture, 0);
    }
  }

  ghost predicate AtWork(arc: Arc)
    reads arc, arc.queue, arc.queue.csm
  {
    && arc.Published() && arc.queue.Valid() && arc.queue.Aligned() && !arc.queue.hung
    && !arc.needsHwInit && arc.window && AddressOk(arc.controlBlock) && AddressOk(arc.controlBlock + 4)
  }

  // The half-done work of the firmware on an intact queue.
  lemma MidWork(queue: Queue)
    requires queue.Valid() && queue.Aligned()
    ensures Fetching(queue.traffic) && |queue.traffic.drafted| <= 8
  {
  }

  // What is done to traffic t when the firmware takes a request up if the ring
  // is full, the exchange drains and pushes msg, the firmware answers its
  // oldest request, and the exchange takes that response.
  function Overtaken(t: Traffic, n: nat, msg: Msg, answer: Msg): Traffic {
    var full := |t.pushed| - t.taken == n;
    var u := Run(t, n, if full then Uptake() else []);
    Run(u.(popped := |u.posted|, pushed := u.pushed + [msg]), n, Service(answer)).(popped := |u.posted| + 1)
  }

  lemma OvertakenForm(t: Traffic, n: nat, msg: Msg, answer: Msg)
    requires n > 0 && Fetching(t) && |t.drafted| <= 8
    requires t.popped <= |t.posted| <= t.taken <= |t.pushed| && |t.posted| < |t.pushed| <= t.taken + n
    ensures var u := Run(t, n, if |t.pushed| - t.taken == n then Uptake() else []);
            && u.posted == t.posted && u.pushed == t.pushed && |u.pushed| - u.taken < n
    ensures Overtaken(t, n, msg, answer).posted == t.posted + [t.drafted + answer[..8 - |t.drafted|]]
  {
    hide Run;
    var full := |t.pushed| - t.taken == n;
    if full { UptakeTakes(t, n); } else { RunNothing(t, n); }
    var u := Run(t, n, if full then Uptake() else []);
    ServiceAnswers(u.(popped := |u.posted|, pushed := u.pushed + [msg]), n, answer);
  }

  // An exchange that takes that course succeeds with the answer to another.
  lemma Overtakes(a: View, b: View, n: nat, msg: Msg, answer: Msg, c: Course, status: Status, reply: Msg,
                  k: nat, right: bool)
    requires 0 < n && a.valid && Sane(a, n) && !a.hung && !AllAnswered(a)
    requires Fetching(a.t) && |a.t.drafted| <= 8 && (TWO32 % (2 * n) == 0 || Roomy(a.t, n))
    requires Still(c) && c.before == (if |a.t.pushed| - a.t.taken == n then Uptake() else [])
    requires c.polling(0)(0) == Service(answer)
    requires Settles(a, b, n, msg, c.before, c, status, reply, k, right)
    requires right && !b.hung ==> status in {Success, IoTimeout, DeviceBusy}
    ensures status == Success && !b.hung && b.valid && b.t == Overtaken(a.t, n, msg, answer)
    ensures |a.t.posted| < |b.t.posted| && reply == b.t.posted[|a.t.posted|] && b.t.pushed == a.t.pushed + [msg]
  {
    hide Run, Gap, Slip, Roomy, Fetching;
    OvertakenForm(a.t, n, msg, answer);
    assert status != DeviceBusy;
    assert b.t == Overtaken(a.t, n, msg, answer).(popped := b.t.popped);
  }

  // From any mailbox with an unanswered request there is a course in which an
  // exchange succeeds with the answer to that request, and its own is left in
  // the ring - if the ring checks are sure to be right.
  method AnotherReply(arc: Arc, msg: Msg, answer: Msg) returns (status: Status, reply: Msg)
    requires AtWork(arc) && |arc.queue.traffic.posted| < |arc.queue.traffic.pushed|
    requires TWO32 % (2 * arc.queue.n) == 0 || Roomy(arc.queue.traffic, arc.queue.n)
    modifies arc, arc.queue, arc.queue.csm
    ensures AtWork(arc) && status == Success
    ensures arc.queue.traffic == Overtaken(old(arc.queue.traffic), arc.queue.n, msg, answer)
    ensures var k := old(|arc.queue.traffic.posted|);
            && k < old(|arc.queue.traffic.pushed|) && k < |arc.queue.traffic.posted|
            && reply == arc.queue.traffic.posted[k] && (old(arc.queue.drafted) == [] ==> reply == answer)
            && arc.queue.traffic.pushed == old(arc.queue.traffic.pushed) + [msg]
  {
    hide Consistent, Run, Describes, Gap, FitsInCsm, Settles, AtMostOneOfEach, Overtaken, Roomy, Fetching, Still;
    hide Slip, Advance, RingsOnly, FirmwareOnly, AddressOk, WordOf, Counted, Occupancy;
    ghost var a, n := arc.Now(), arc.queue.n;
    arc.queue.Conservation();
    var q := (arc.queue.queueBase - CSM_BASE) / 4;
    var full := Occupancy(arc.queue.csm[q], arc.queue.csm[q + 4], arc.queue.n) == arc.queue.n;
    var before := if full then Uptake() else [];
    var c := Scripted(arc.controlBlock, before, Service(answer));
    ScriptedIsStill(arc.controlBlock, before, Service(answer));
    arc.InOrder();
    MidWork(arc.queue);
    OvertakenForm(a.t, n, msg, answer);
    assert arc.Answering(c.world);
    ghost var k, right;
    status, reply, k, right := arc.SendSync(msg, c);
    Overtakes(a, arc.Now(), n, msg, answer, c, status, reply, k, right);
    assert a.t.drafted == [] ==> a.t.drafted + answer[..8] == answer;
  }

  // Nobody answers: the exchange gives up after its second.
  method GiveUp(arc: Arc, msg: Msg) returns (status: Status)
    requires AtWork(arc) && arc.queue.n == 4 && arc.queue.traffic == NOTHING
    modifies arc, arc.queue, arc.queue.csm
    ensures AtWork(arc) && status == IoTimeout && arc.queue.traffic == NOTHING.(pushed := [msg])
  {
    hide Consistent, Run, Describes;
    ScriptedIsStill(arc.controlBlock, [], []);
    RunNothing(NOTHING, 4);
    RunNothing(NOTHING.(pushed := [msg]), 4);
    var c := Scripted(arc.controlBlock, [], []);
    assert arc.Answering(c.world);
    ghost var k, right;
    var reply;
    status, reply, k, right := arc.SendSync(msg, c);
    assert arc.queue.traffic.pushed == [msg];
  }

  const NOTHING: Traffic := Traffic([], 0, [], [], [], [], 0)

  method FreshMailbox() returns (arc: Arc)
    ensures fresh(arc) && fresh(arc.queue) && fresh(arc.queue.csm)
    ensures AtWork(arc) && arc.queue.n == 4 && arc.queue.traffic == NOTHING
  {
    hide Consistent;
    var queue := new Queue(CSM_BASE + 0x100, 4, CSM_BASE);
    arc := new Arc(queue, CSM_BASE, false);
  }

  // Two exchanges on a fresh mailbox. The first gives up after its second; the
  // firmware takes its request up only when the second exchange has drained
  // the ring and pushed its own, and the second exchange returns the answer to
  // the first - with its own request still queued.
  method LateReply(first: Msg, second: Msg, answer: Msg) returns (arc: Arc, before: Status, after: Status, got: Msg)
    ensures fresh(arc) && AtWork(arc)
    ensures before == IoTimeout && after == Success && got == answer
    ensures arc.queue.traffic == Traffic([first, second], 1, [first], [], [answer], [], 1)
  {
    hide Run, Consistent;
    arc := FreshMailbox();
    before := GiveUp(arc, first);
    ghost var t := arc.queue.traffic;
    RunNothing(t, 4);
    assert t.pushed + [second] == [first, second] && t.drafted + answer[..8] == answer;
    ServiceAnswers(t.(pushed := [first, second]), 4, answer);
    after, got := AnotherReply(arc, second, answer);
  }

  // A mailbox of three entries with its request pointers at w and r: `pushed`
  // ever pushed, the first `taken` of them taken.
  ghost predicate Stands(queue: Queue, w: nat, r: nat, pushed: seq<Msg>, taken: nat)
    reads queue, queue.csm
  {
    && queue.Valid() && queue.Aligned() && !queue.hung && queue.n == 3
    && queue.csm[queue.L().q] == w && queue.csm[queue.L().q + 4] == r
    && taken <= |pushed| && queue.traffic == Traffic(pushed, taken, pushed[..taken], [], [], [], 0)
  }

  // With one entry more and the writer one further, the reader has not moved.
  lemma Back(w: nat, r: nat, r': nat, c: nat)
    requires w < 6 && r < 6 && r' < 6 && Occupancy(w, r, 3) == c < 3 && Occupancy(Advance(w, 1, 3), r', 3) == c + 1
    ensures r' == r
  {
    AdvanceForm(w, 1, 3);
    OccupancyForms(w, r, 3);
    OccupancyForms(Advance(w, 1, 3), r', 3);
  }

  // The next of the messages m pushed.
  method PushOne(queue: Queue, m: seq<Msg>, k: nat, ghost w: nat, ghost r: nat, ghost taken: nat)
    requires k < |m| && Stands(queue, w, r, m[..k], taken) && r <= w < 6 && k - taken < 3
    modifies queue, queue.csm
    ensures Stands(queue, Advance(w, 1, 3), r, m[..k + 1], taken)
  {
    hide Consistent, Run, Occupancy, Occupancy32, Requests, RingsOnly, OneSlotOnly, FitsInCsm, Slip, Queue.L, Counted;
    hide FirmwareOnly, Advance, Assembling, Slot;
    queue.Conservation();
    OccupancyForms(w, r, 3);
    RunNothing(queue.traffic, 3);
    ghost var right;
    var status;
    status, right := queue.TryPush(m[k], 3, _ => []);
    assert m[..k] + [m[k]] == m[..k + 1];
    queue.Conservation();
    Back(w, r, queue.csm[queue.L().q + 4], k - taken);
    assert m[..k + 1][..taken] == m[..k][..taken];
  }

  method TakeOne(queue: Queue, ghost w: nat, ghost r: nat, ghost pushed: seq<Msg>, ghost taken: nat)
    requires Stands(queue, w, r, pushed, taken) && r < w < 6 && taken < |pushed|
    modifies queue, queue.csm
    ensures Stands(queue, w, r + 1, pushed, taken + 1)
  {
    hide Consistent, Run, Occupancy;
    queue.Conservation();
    OccupancyForms(w, r, 3);
    UptakeTakes(queue.traffic, 3);
    queue.Firmware(Uptake());
    queue.Conservation();
    OccupancyForms(w, queue.csm[queue.L().q + 4], 3);
    assert pushed[..taken + 1] == pushed[..taken] + [pushed[taken]];
  }

  // Three requests pushed and taken, three more pushed: the ring is full with
  // the writer wrapped, and holds m[3] in its first slot.
  method Fill(m: seq<Msg>) returns (queue: Queue)
    requires |m| == 7
    ensures fresh(queue) && fresh(queue.csm) && Stands(queue, 0, 3, m[..6], 3)
  {
    hide Stands;
    queue := Fresh();
    assert m[..0] == [];
    PushOne(queue, m, 0, 0, 0, 0);
    PushOne(queue, m, 1, 1, 0, 0);
    PushOne(queue, m, 2, 2, 0, 0);
    TakeOne(queue, 3, 0, m[..3], 0);
    TakeOne(queue, 3, 1, m[..3], 1);
    TakeOne(queue, 3, 2, m[..3], 2);
    PushOne(queue, m, 3, 3, 3, 3);
    PushOne(queue, m, 4, 4, 3, 3);
    PushOne(queue, m, 5, 5, 3, 3);
  }

  method Fresh() returns (queue: Queue)
    ensures fresh(queue) && fresh(queue.csm) && Stands(queue, 0, 0, [], 0)
  {
    queue := new Queue(CSM_BASE + 0x100, 3, CSM_BASE);
  }

  // The slot at the reader's pointer holds the oldest request not taken, and
  // no consistent ring holds more than it has slots.
  lemma OldestRequest(mem: Memory, l: Layout, t: Traffic)
    requires Consistent(mem, l, t) && t.taken < |t.pushed|
    ensures Requests(mem, l).slots[Slot(mem[l.q + 4], l.n)] == t.pushed[t.taken]
  {
    TakeFirst(Requests(mem, l), l.n, t.pushed[t.taken..]);
  }

  lemma TooMany(mem: Memory, l: Layout, t: Traffic)
    requires |t.pushed| - t.taken > l.n
    ensures !Consistent(mem, l, t)
  {
  }

  // A push into that ring finds it not full and overwrites m[3], which the
  // firmware has not taken: the slot it takes next holds m[6].
  method Overrun(m: seq<Msg>) returns (queue: Queue, status: Status, ghost before: Msg)
    requires |m| == 7
    ensures fresh(queue) && queue.Shape() && status == Success
    ensures queue.traffic.pushed == m && queue.traffic.taken == 3
    ensures before == m[3] && Requests(queue.csm[..], queue.L()).slots[0] == m[6]
    ensures !queue.Valid()
  {
    hide Run, Consistent, Requests, Occupancy;
    queue := Fill(m);
    OldestRequest(queue.csm[..], queue.L(), queue.traffic);
    before := Requests(queue.csm[..], queue.L()).slots[0];
    RunNothing(queue.traffic, 3);
    ghost var right;
    status, right := queue.TryPush(m[6], 3, _ => []);
    assert m[..6] + [m[6]] == m;
    TooMany(queue.csm[..], queue.L(), queue.traffic);
  }
}
