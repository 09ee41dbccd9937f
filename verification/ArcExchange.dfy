// TtWindArcMsgSendSync: one synchronous exchange with the firmware - locate,
// drain, push, ring the doorbell, poll - and which request its reply answers.
module ArcExchange {
  import opened Prelude
  import opened Rings
  import opened RingMath
  import opened MailboxMemory
  import opened FirmwareModel
  import opened Mailbox
  import opened LocateQueue
  import opened ExchangeSpec

  const REPLY_TIMEOUT: int := 1000 * 10_000    // 1000 ms in units of 100 ns

  // A write to the ARC's APB block: over the NOC to an absolute address, or
  // through the aperture at an offset.
  datatype ApbWrite = NocWrite(addr: nat, value: u32) | ApertureWrite(offset: nat, value: u32)

  const APB_NOC_LOW: nat := 0x8000_0000
  const APB_NOC_HIGH: nat := 0x8_8000_0000
  const MSI_FIFO: nat := 0xB0000
  const MISC_CNTL: nat := 0x30100
  const IRQ0: u32 := 0x1_0000

  // What the firmware's queue processor runs on: zero written to its message
  // FIFO, which the NOC has at two addresses, or bit 16 alone to the interrupt
  // register in the aperture.
  predicate StartsQueueProcessor(wr: ApbWrite) {
    match wr
    case NocWrite(addr, value) => addr in {0x800B_0000, 0x8_800B_0000} && value == 0
    case ApertureWrite(offset, value) => offset == 0x30100 && value == 65536
  }

  // The APB block is one MiB wide, wherever it is reached.
  predicate Through(wr: ApbWrite, route: Route) {
    match route
    case NocLow => wr.NocWrite? && 0x8000_0000 <= wr.addr < 0x8010_0000
    case NocHigh => wr.NocWrite? && 0x8_8000_0000 <= wr.addr < 0x8_8010_0000
    case Axi => wr.ApertureWrite? && wr.offset < 0x10_0000
  }

  // The word the driver sees at an address, on the k-th of its reads of a
  // path that hangs before read `hangAt`.
  function Seen(mem: Memory, addr: u32, k: nat, hangAt: nat): u32 {
    if !AddressOk(addr) || k >= hangAt then ALL_ONES else mem[WordOf(addr)]
  }

  // A control block in the CSM describes the queue.
  predicate Describes(mem: Memory, at: u32, base: u32, n: nat) {
    AddressOk(at) && AddressOk(at + 4) ==> mem[WordOf(at)] == base && mem[WordOf(at + 4)] % 0x100 == n
  }

  // A hang can only falsify the entry count; a false base is refused.
  lemma SeenDescription(mem: Memory, at: u32, base: u32, n: nat, hangAt: nat)
    requires Describes(mem, at, base, n) && AddressOk(at) && AddressOk(at + 4)
    ensures FitsInCsm(Seen(mem, at, 0, hangAt), Seen(mem, (at + 4) % TWO32, 1, hangAt) % 0x100) ==>
              && Seen(mem, at, 0, hangAt) == base
              && 0 < Seen(mem, (at + 4) % TWO32, 1, hangAt) % 0x100 <= 255
              && (hangAt < 2 || Seen(mem, (at + 4) % TWO32, 1, hangAt) % 0x100 == n)
    ensures hangAt >= 2 ==> Seen(mem, at, 0, hangAt) == base && Seen(mem, (at + 4) % TWO32, 1, hangAt) % 0x100 == n
  {
  }

  class Arc {
    const queue: Queue
    const controlBlock: u32

    var needsHwInit: bool
    var window: bool      // kernel window and its registers are mapped
    var aperture: bool    // AXI aperture is mapped
    var route: Route
    var writes: seq<ApbWrite>   // to the APB block, in order

    constructor (queue: Queue, controlBlock: u32, aperture: bool)
      ensures this.queue == queue && this.controlBlock == controlBlock
      ensures !needsHwInit && window && this.aperture == aperture && writes == []
    {
      this.queue, this.controlBlock, this.aperture := queue, controlBlock, aperture;
      needsHwInit, window, route, writes := false, true, NocLow, [];
    }

    // The firmware's control block, if it lies in the CSM at all, is apart from
    // the rings and describes the queue.
    ghost predicate Published()
      reads this, queue, queue.csm
    {
      && queue.Running()
      && Describes(queue.csm[..], controlBlock, queue.queueBase, queue.n)
      && (AddressOk(controlBlock) && AddressOk(controlBlock + 4) ==>
            !RingWord(queue.L(), WordOf(controlBlock)) && !RingWord(queue.L(), WordOf(controlBlock + 4)))
    }

    // Whatever the firmware does, its control block stays.
    method Elapse(steps: Script)
      requires Published()
      modifies queue, queue.csm
      ensures Published() && queue.FirmwareFrame()
      ensures queue.hung <==> old(queue.hung) || (queue.Aligned() && Hang in steps)
      ensures steps == [] ==> queue.traffic == old(queue.traffic)
      ensures old(queue.Valid()) ==> queue.Valid()
      ensures !queue.Aligned() ==> queue.traffic == old(queue.traffic)
      ensures queue.Aligned() ==> FirmwareRan(old(Now()), Now(), queue.n, steps)
    {
      hide Consistent, Counted, FitsInCsm, Run;
      if queue.Aligned() { InOrder(); }
      ghost var mem := queue.csm[..];
      queue.Firmware(steps);
      FirmwareInSlot(queue.L(), 0, mem, queue.csm[..]);
      if queue.Aligned() { InOrder(); }
    }

    // The path to the CSM hangs.
    method HangUp()
      requires Published()
      modifies queue`hung
      ensures Published() && queue.FirmwareFrame() && queue.hung && queue.traffic == old(queue.traffic)
      ensures old(queue.Valid()) ==> queue.Valid()
      ensures !queue.Aligned() ==> queue.traffic == old(queue.traffic)
      ensures queue.Aligned() ==> FirmwareRan(old(Now()), Now(), queue.n, [])
    {
      hide Consistent, Counted, FitsInCsm, AddressOk, WordOf;
      RunNothing(queue.traffic, queue.n);
      queue.hung := true;
    }

    // Locating the queue with the firmware running before it, and the path
    // possibly hanging before one of the two reads of the control block. With
    // a route answering in time and no hang it succeeds.
    method LocateMailbox(world: World, hangAt: nat, steps: Script) returns (found: Located)
      requires Published() && Ticks(world.clock)
      requires forall r :: world.qcbPtr(r) in {controlBlock, ALL_ONES}
      modifies this`route, queue, queue.csm
      ensures Published() && queue.FirmwareFrame()
      ensures queue.hung <==> old(queue.hung) || (queue.Aligned() && Hang in steps) || hangAt < 2
      ensures steps == [] ==> queue.traffic == old(queue.traffic)
      ensures old(queue.Valid()) ==> queue.Valid()
      ensures !queue.Aligned() ==> queue.traffic == old(queue.traffic)
      ensures queue.Aligned() ==> FirmwareRan(old(Now()), Now(), queue.n, steps)
      ensures found.status == Success ==> found.base == queue.queueBase && queue.Known(found.entries)
      ensures found.status == Success ==> Found(world, aperture, route)
      ensures found.status !in {IoTimeout, DeviceBusy, ReinitializationNeeded}
      ensures Answering(world) && !queue.hung ==> found.status == Success
    {
      hide Consistent, Counted, FitsInCsm, AddressOk, WordOf;
      Elapse(steps);
      RunNothing(queue.traffic, queue.n);
      var hang := if queue.hung then 0 else hangAt;
      found := Discover(world, hang);
      if hang < 2 {
        HangUp();
      }
    }

    // Discovery itself, over a path that hangs before read `hang` of the
    // control block.
    method Discover(world: World, hang: nat) returns (found: Located)
      requires Published() && Ticks(world.clock)
      requires forall r :: world.qcbPtr(r) in {controlBlock, ALL_ONES}
      modifies this`route
      ensures found.status == Success ==>
                found.base == queue.queueBase && 0 < found.entries <= 255 && (found.entries == queue.n || hang < 2)
      ensures found.status == Success ==> Found(world, aperture, route)
      ensures found.status !in {IoTimeout, DeviceBusy, ReinitializationNeeded}
      ensures Answering(world) && hang >= 2 ==> found.status == Success
    {
      hide Consistent, FitsInCsm, FirstAnswering, FirstUp, Found, Undecided, PastDeadline, Queue.Valid, Queue.L;
      hide RingWord;
      if AddressOk(controlBlock) && AddressOk(controlBlock + 4) {
        SeenDescription(queue.csm[..], controlBlock, queue.queueBase, queue.n, hang);
      }
      var mem: Memory := queue.csm[..];
      var seen := world.(csm := (addr, k) => Seen(mem, addr, k, hang));
      var rounds;
      found, route, rounds := Locate(seen, aperture, route);
      if found.status == Success {
        FoundBy(world, seen, aperture, route);
      }
      if Answering(world) {
        AnswersInTime(world, seen, aperture, rounds);
      }
    }

    // Some route answers before anything else is decided, and all lead to the
    // control block.
    ghost predicate Answering(world: World)
      reads this`aperture
    {
      && AnswersOnce(world, aperture) && (forall r :: world.qcbPtr(r) == controlBlock)
      && AddressOk(controlBlock) && AddressOk(controlBlock + 4)
    }

    ghost function Now(): View
      requires queue.Shape()
      reads queue, queue.csm
    {
      View(queue.Valid(), queue.hung, queue.csm[queue.L().q + 1], queue.traffic)
    }

    lemma InOrder()
      requires queue.Shape() && queue.Aligned()
      ensures Sane(Now(), queue.n)
    {
      if queue.Valid() { queue.Conservation(); }
    }

    // One pop.
    method Pop(entries: nat, fw: nat -> Script) returns (status: Status, msg: Msg, ghost right: bool)
      requires queue.Running() && queue.Known(entries)
      modifies queue, queue.csm
      ensures queue.Running() && queue.DriverFrame() && (old(queue.Valid()) ==> queue.Valid())
      ensures status in {Success, DeviceBusy, InvalidAddress, DeviceDoesNotExist}
      ensures !queue.Aligned() ==> status == InvalidAddress && Untouched()
      ensures queue.traffic.popped <= old(queue.traffic.popped) + 1 && (status == Success ==> right)
      ensures queue.Aligned() ==> Popped(old(Now()), Now(), queue.n, fw, status, msg, right)
    {
      hide Consistent, Counted, Occupancy, Occupancy32, RingsOnly, Advance, Gap, Slip, Run, ReadsEmpty, FitsInCsm;
      status, msg, right := queue.TryPop(entries, fw);
      if queue.Aligned() { InOrder(); }
    }

    // Pop until a pop fails, at most once per entry.
    method Drain(entries: nat, fw: Firmware) returns (ghost right: bool)
      requires queue.Running() && queue.Known(entries)
      modifies queue, queue.csm
      ensures queue.Running() && queue.DriverFrame() && (old(queue.Valid()) ==> queue.Valid())
      ensures queue.traffic.popped <= old(queue.traffic.popped) + entries
      ensures !queue.Aligned() ==> Untouched()
      ensures queue.Aligned() ==> Drained(old(Now()), Now(), queue.n, fw, right)
    {
      hide Drained, Draining, Popped, Sane, RingsOnly, Queue.Valid, Queue.L, FitsInCsm;
      right := true;
      ghost var mem, a := queue.csm[..], Now();
      RingsOnlyNone(queue.L(), mem);
      if queue.Aligned() {
        InOrder();
        DrainStarts(a, queue.n, fw);
      }
      for i := 0 to entries
        invariant queue.Running() && queue.DriverFrame() && queue.Known(entries) && right
        invariant queue.traffic.popped <= old(queue.traffic.popped) + i
        invariant (old(queue.Valid()) ==> queue.Valid()) && (!queue.Aligned() ==> Untouched())
        invariant queue.Aligned() ==> Draining(a, Now(), queue.n, fw, i)
      {
        ghost var was, m := queue.csm[..], Now();
        var status, msg;
        status, msg, right := Pop(entries, fw(i));
        RingsOnlyOn(queue.L(), mem, was, queue.csm[..]);
        if status != Success {
          if queue.Aligned() { DrainStops(a, m, Now(), queue.n, fw, i, status, msg, right); }
          return;
        }
        DrainGoesOn(a, m, Now(), queue.n, fw, i, msg, right);
      }
      if queue.Aligned() { DrainCompletes(a, Now(), queue.n, fw, entries); }
    }

    // Poll for a response until one arrives, something fails, or a second has
    // passed.
    method Await(entries: nat, fw: Firmware, clock: nat -> nat)
      returns (status: Status, reply: Msg, polls: nat, ghost right: bool)
      requires queue.Running() && queue.Known(entries) && Ticks(clock)
      modifies queue, queue.csm
      ensures 1 <= polls <= 5002
      ensures queue.Running() && queue.DriverFrame() && (old(queue.Valid()) ==> queue.Valid())
      ensures status in {Success, IoTimeout, InvalidAddress, DeviceDoesNotExist}
      // A second, in units of 100 ns.
      ensures status == IoTimeout ==> clock(polls) - clock(0) > 10_000_000
      ensures forall k :: 1 <= k < polls ==> clock(k) - clock(0) <= 10_000_000
      ensures !queue.Aligned() ==> status == InvalidAddress && Untouched()
      ensures queue.Aligned() ==> Awaited(old(Now()), Now(), queue.n, fw, status, reply, right)
    {
      hide Awaited, Waiting, Popped, Now, RingsOnly, Queue.Valid, Queue.L, FitsInCsm;
      ghost var mem, a := queue.csm[..], Now();
      RingsOnlyNone(queue.L(), mem);
      polls, right := 0, true;
      if queue.Aligned() { WaitStarts(a, queue.n, fw); }
      while true
        invariant polls <= 5001 && forall k :: 1 <= k <= polls ==> clock(k) - clock(0) <= 10_000_000
        invariant queue.Running() && queue.DriverFrame() && queue.Known(entries)
        invariant (old(queue.Valid()) ==> queue.Valid()) && (!queue.Aligned() ==> Untouched())
        invariant queue.Aligned() ==> Waiting(a, Now(), queue.n, fw, polls, right)
        decreases 5002 - polls
      {
        ghost var was, m := queue.csm[..], Now();
        ghost var ok;
        status, reply, ok := Pop(entries, fw(polls));
        RingsOnlyOn(queue.L(), mem, was, queue.csm[..]);
        polls := polls + 1;
        if status != DeviceBusy {
          if queue.Aligned() { WaitEnds(a, m, Now(), queue.n, fw, polls - 1, status, reply, right, ok); }
          right := right && ok;
          return;
        }
        WaitGoesOn(a, m, Now(), queue.n, fw, polls - 1, reply, right, ok);
        right := right && ok;
        TicksBy(clock, polls);
        if clock(polls) > clock(0) + REPLY_TIMEOUT {
          WaitTimesOut(a, Now(), queue.n, fw, polls, reply, right);
          status := IoTimeout;
          return;
        }
      }
    }

    // One more write, which starts the firmware's queue processor over the
    // route.
    twostate predicate RungOnce()
      reads this
    {
      var n := |old(writes)|;
      && |writes| == n + 1 && writes[..n] == old(writes)
      && StartsQueueProcessor(writes[n]) && Through(writes[n], route)
    }

    method ApbWrite32(offset: nat, value: u32)
      requires offset < 0x10_0000
      modifies this`writes
      ensures |writes| == |old(writes)| + 1 && writes[..|old(writes)|] == old(writes)
      ensures Through(writes[|old(writes)|], route)
      ensures writes[|old(writes)|] ==
                match route
                case NocLow => NocWrite(0x8000_0000 + offset, value)
                case NocHigh => NocWrite(0x8_8000_0000 + offset, value)
                case Axi => ApertureWrite(offset, value)
    {
      match route {
        case NocLow => writes := writes + [NocWrite(APB_NOC_LOW + offset, value)];
        case NocHigh => writes := writes + [NocWrite(APB_NOC_HIGH + offset, value)];
        case Axi => writes := writes + [ApertureWrite(offset, value)];
      }
    }

    method RingDoorbell()
      modifies this`writes
      ensures RungOnce()
    {
      if route == Axi {
        ApbWrite32(MISC_CNTL, IRQ0);
      } else {
        ApbWrite32(MSI_FIFO, 0);
      }
    }

    // Push, and ring if that succeeded.
    method PushAndRing(msg: Msg, entries: nat, fw: nat -> Script) returns (status: Status, ghost right: bool)
      requires queue.Running() && queue.Known(entries)
      modifies this`writes, queue, queue.csm
      ensures queue.Running() && queue.DriverFrame()
      ensures status in {Success, DeviceBusy, InvalidAddress, DeviceDoesNotExist}
      ensures !queue.Aligned() ==> status == InvalidAddress && queue.traffic == old(queue.traffic)
      ensures if status == Success then RungOnce() else writes == old(writes)
      ensures !queue.Aligned() && old(queue.Valid()) ==> queue.Valid()
      ensures queue.Aligned() ==>
                Pushed(old(Now()), Now(), queue.n, msg, Quiet(fw), status, right)
    {
      hide Consistent, Run, Occupancy, Slip, RingsOnly, Queue.Written, OneSlotOnly, Requests;
      if queue.Valid() && queue.Aligned() { queue.Conservation(); }
      RunNothing(queue.traffic, queue.n);
      status, right := queue.TryPush(msg, entries, fw);
      if status == Success {
        RingDoorbell();
      }
    }

    // Push, ring and poll.
    method Ask(msg: Msg, entries: nat, c: Course) returns (status: Status, reply: Msg, ghost right: bool)
      requires queue.Running() && queue.Known(entries) && Ticks(c.clock)
      modifies this`writes, queue, queue.csm
      ensures queue.Running() && queue.DriverFrame() && Rung()
      ensures status in {Success, DeviceBusy, InvalidAddress, DeviceDoesNotExist, IoTimeout}
      ensures !queue.Aligned() ==> status == InvalidAddress && Untouched() && (old(queue.Valid()) ==> queue.Valid())
      ensures queue.Aligned() ==>
                && Asked(old(Now()), Now(), queue.n, msg, c, status, reply, right)
                && AtMostOneOfEach(old(Now()), Now(), msg, old(queue.traffic.popped), writes != old(writes))
    {
      hide Consistent, Run, Occupancy, Slip, RingsOnly, Gap, Advance, Asked, Replied, Pushed, Awaited;
      hide AtMostOneOfEach;
      ghost var a := Now();
      if queue.Aligned() { InOrder(); }
      reply := msg;
      status, right := PushAndRing(msg, entries, c.pushing);
      ghost var ok, mem, m := true, queue.csm[..], Now();
      if status != Success {
        if queue.Aligned() { NotPushed(a, m, queue.n, msg, c, status, reply, right); }
        return;
      }
      var polls;
      status, reply, polls, ok := Await(entries, c.polling, c.clock);
      RingsOnlyOn(queue.L(), old(queue.csm[..]), mem, queue.csm[..]);
      PushThenAwait(a, m, Now(), queue.n, msg, c, status, reply, right, ok);
      right := right && ok;
    }

    twostate predicate Rung()
      reads this
    {
      writes == old(writes) || RungOnce()
    }

    twostate predicate Untouched()
      reads this`writes, queue
    {
      queue.traffic == old(queue.traffic) && writes == old(writes)
    }

    twostate predicate Outcome(msg: Msg, before: Script, c: Course, status: Status, reply: Msg, k: nat, right: bool)
      requires queue.Shape()
      reads this, queue, queue.csm
    {
      && Rung()
      && (if queue.Aligned() then
            && AtMostOneOfEach(old(Now()), Now(), msg, k, writes != old(writes))
            && Settles(old(Now()), Now(), queue.n, msg, before, c, status, reply, k, right)
          else Untouched() && (old(queue.Valid()) ==> queue.Valid()))
    }

    // With the queue located: drain, then ask.
    method Converse(msg: Msg, entries: nat, c: Course)
      returns (status: Status, reply: Msg, ghost k: nat, ghost right: bool)
      requires Published() && queue.Known(entries) && Ticks(c.clock)
      modifies this`writes, queue, queue.csm
      ensures Published() && queue.DriverFrame()
      ensures status in {Success, DeviceBusy, InvalidAddress, DeviceDoesNotExist, IoTimeout}
      ensures Outcome(msg, [], c, status, reply, k, right)
      ensures old(queue.Valid()) && right && queue.Aligned() && !queue.hung ==>
                status in {Success, IoTimeout, DeviceBusy}
    {
      hide Consistent, Run, Occupancy, Slip, FitsInCsm, Gap, Advance, Drained, Settles, AtMostOneOfEach;
      ghost var a := Now();
      if queue.Aligned() { InOrder(); }
      right := Drain(entries, c.draining);
      k := queue.traffic.popped;
      ghost var ok, m := true, Now();
      status, reply, ok := Ask(msg, entries, c);
      if queue.Aligned() {
        DrainThenAsk(a, m, Now(), queue.n, msg, c, status, reply, right, ok, writes != old(writes));
      }
      right := right && ok;
    }

    // Past the guards: locate, then converse.
    method Exchange(msg: Msg, c: Course) returns (status: Status, reply: Msg, ghost k: nat, ghost right: bool)
      requires Published() && Ticks(c.world.clock) && Ticks(c.clock)
      requires forall r :: c.world.qcbPtr(r) in {controlBlock, ALL_ONES}
      modifies this`route, this`writes, queue, queue.csm
      ensures Published() && queue.DriverFrame()
      ensures status != ReinitializationNeeded
      ensures Outcome(msg, c.before, c, status, reply, k, right)
      ensures writes != old(writes) ==> Found(c.world, aperture, route)
      ensures Answering(c.world) && queue.Aligned() && !queue.hung ==>
                (old(queue.Valid()) && right ==> status in {Success, IoTimeout, DeviceBusy})
    {
      hide Consistent, Counted, Run, Occupancy, Slip, Describes, FitsInCsm, AddressOk, WordOf, Settles;
      hide AtMostOneOfEach, Gap, Advance, RingsOnly, FirmwareOnly;
      ghost var a := Now();
      if queue.Aligned() { InOrder(); }
      reply, k, right := msg, queue.traffic.popped, true;
      var found := LocateMailbox(c.world, c.hangAt, c.before);
      ghost var mem, m := queue.csm[..], Now();
      if queue.Aligned() { InOrder(); }
      FirmwareInRings(queue.L(), old(queue.csm[..]), mem);
      status := found.status;
      if status != Success {
        if queue.Aligned() { Refused(a, m, queue.n, msg, c, status, reply); }
        return;
      }
      status, reply, k, right := Converse(msg, found.entries, c);
      RingsOnlyOn(queue.L(), old(queue.csm[..]), mem, queue.csm[..]);
      if queue.Aligned() {
        FirmwareBefore(a, m, Now(), queue.n, msg, c, status, reply, k, right, writes != old(writes));
      }
    }

    // The guards come before any access.
    method SendSync(msg: Msg, c: Course) returns (status: Status, reply: Msg, ghost k: nat, ghost right: bool)
      requires Published() && Ticks(c.world.clock) && Ticks(c.clock)
      requires forall r :: c.world.qcbPtr(r) in {controlBlock, ALL_ONES}
      modifies this`route, this`writes, queue, queue.csm
      ensures Published() && queue.DriverFrame()
      ensures status == ReinitializationNeeded <==> needsHwInit
      ensures needsHwInit || !window ==>
                && status == (if needsHwInit then ReinitializationNeeded else DeviceNotReady)
                && queue.csm[..] == old(queue.csm[..]) && queue.traffic == old(queue.traffic)
                && writes == old(writes) && route == old(route)
      ensures Outcome(msg, c.before, c, status, reply, k, right)
      ensures writes != old(writes) ==> Found(c.world, aperture, route)
      // Guards passed, queue found and path up: push and polls are reached.
      ensures !needsHwInit && window && Answering(c.world) && queue.Aligned() && !queue.hung ==>
                (old(queue.Valid()) && right ==> status in {Success, IoTimeout, DeviceBusy})
      // Begun with no request unanswered and fewer responses waiting than the gap.
      ensures old(queue.Valid()) && queue.Aligned() && status == Success
              && old(|queue.traffic.posted| == |queue.traffic.pushed| && queue.Ready() < Gap(queue.n)) ==>
                && queue.traffic.pushed == old(queue.traffic.pushed) + [msg]
                && k == old(|queue.traffic.pushed|) < |queue.traffic.posted| && Cut(reply, queue.traffic.posted[k])
                && (!queue.hung ==> reply == queue.traffic.posted[k])
    {
      hide Consistent, Run, Occupancy, Slip, Describes, Settles, AtMostOneOfEach, Gap, Advance;
      ghost var a := Now();
      if queue.Aligned() { InOrder(); }
      reply, k, right := msg, queue.traffic.popped, true;
      if needsHwInit || !window {
        status := if needsHwInit then ReinitializationNeeded else DeviceNotReady;
        if queue.Aligned() { Refused(a, a, queue.n, msg, c, status, reply); }
        return;
      }
      status, reply, k, right := Exchange(msg, c);
      ghost var prompt := AllAnswered(a) && |a.t.posted| - a.t.popped < Gap(queue.n);
      if status == Success && a.valid && prompt && queue.Aligned() {
        OwnReply(a, Now(), queue.n, msg, c.before, c, reply, k, right);
      }
    }
  }
}
