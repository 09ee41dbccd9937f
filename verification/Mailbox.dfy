// TtWindArcTryPush and TtWindArcTryPop over the CSM SRAM, word by word, with
// the firmware free to act between any two of the driver's accesses.
module Mailbox {
  import opened Prelude
  import opened RingMath
  import opened Rings
  import opened MailboxMemory
  import opened FirmwareModel

  const CSM_BASE: int := 0x1000_0000
  const CSM_SIZE: int := 0x8_0000
  const HEADER_SIZE: int := 32      // bytes
  const MSG_SIZE: int := 32         // bytes

  // The address check of the CSM accessors.
  predicate AddressOk(addr: int) {
    CSM_BASE <= addr <= CSM_BASE + CSM_SIZE - 4 && addr % 4 == 0
  }

  function WordOf(addr: int): (w: nat)
    requires AddressOk(addr)
    ensures w < CSM_WORDS && addr == CSM_BASE + 4 * w
  {
    (addr - CSM_BASE) / 4
  }

  // What TtWindArcLocateQueue checks of the queue it found.
  predicate FitsInCsm(queueBase: u32, n: int) {
    && 0 < n <= 255
    && CSM_BASE <= queueBase
    && queueBase + HEADER_SIZE + 2 * n * MSG_SIZE <= CSM_BASE + CSM_SIZE
  }

  // Ring pointers, as byte offsets from the queue base.
  const REQ_WPTR: int := 0x00
  const RES_RPTR: int := 0x04
  const REQ_RPTR: int := 0x10
  const RES_WPTR: int := 0x14

  class Queue {
    const csm: array<u32>
    const queueBase: u32
    const n: nat

    var hung: bool

    // The firmware's own registers: words of the request being taken, words
    // of the response being written, requests taken and not yet answered.
    var fetched: seq<u32>
    var drafted: seq<u32>
    var inside: nat

    ghost var traffic: Traffic

    // An idle mailbox at a word-aligned base with a control block for it, as
    // the firmware sets it up.
    constructor (base: u32, entries: nat, controlBlock: u32)
      requires base % 4 == 0 && FitsInCsm(base, entries)
      requires AddressOk(controlBlock) && AddressOk(controlBlock + 4)
      requires controlBlock + 8 <= base || base + HEADER_SIZE + 2 * entries * MSG_SIZE <= controlBlock
      ensures Valid() && Aligned() && fresh(csm) && queueBase == base && n == entries && !hung
      ensures csm[WordOf(controlBlock)] == base && csm[WordOf(controlBlock + 4)] == entries
      ensures traffic == Traffic([], 0, [], [], [], [], 0) && csm[L().q] == csm[L().q + 4] == 0
    {
      csm := new u32[CSM_WORDS](_ => 0);
      queueBase, n := base, entries;
      hung, fetched, drafted, inside := false, [], [], 0;
      traffic := Traffic([], 0, [], [], [], [], 0);
      new;
      csm[WordOf(controlBlock)], csm[WordOf(controlBlock + 4)] := base, entries;
      Idle(csm[..], L());
    }

    ghost predicate Shape()
    {
      csm.Length == CSM_WORDS && FitsInCsm(queueBase, n)
    }

    predicate Aligned()
    {
      queueBase % 4 == 0
    }

    ghost function L(): (l: Layout)
      requires Shape()
      ensures Sound(l) && l.n == n
    {
      Layout((queueBase - CSM_BASE) / 4, n)
    }

    // What always holds, whatever the rings contain.
    ghost predicate Running()
      reads this
    {
      && Shape() && |fetched| <= 8 && |drafted| <= 8
      && (drafted != [] ==> inside > 0)
    }

    // A word-aligned queue holds the traffic. (Of a misaligned one nothing is
    // assumed: every access to it is refused.)
    ghost predicate Valid()
      reads this, csm
    {
      && Running()
      && (Aligned() ==>
            && Consistent(csm[..], L(), traffic)
            && fetched == traffic.fetched && drafted == traffic.drafted
            && inside == traffic.taken - |traffic.posted|)
    }

    ghost function Queued(): int
      reads this
    {
      |traffic.pushed| - traffic.taken
    }

    ghost function Ready(): int
      reads this
    {
      |traffic.posted| - traffic.popped
    }

    // Requests whose responses have not been popped.
    ghost function Outstanding(): int
      reads this
    {
      |traffic.pushed| - traffic.popped
    }

    // Every request pushed has been taken and answered.
    ghost predicate AllAnswered()
      reads this
    {
      |traffic.posted| == |traffic.pushed|
    }

    // A pop takes the response ring for empty.
    ghost predicate LooksEmpty()
      requires Shape() && Ready() >= 0
      reads this, csm
    {
      ReadsEmpty(csm[L().q + 1], Ready(), n)
    }

    // Every request pushed and not yet answered to the driver is queued, inside
    // the firmware, or answered by a response that waits to be popped; the ring
    // pointers count the two ends.
    lemma Conservation()
      requires Valid() && Aligned()
      ensures |traffic.pushed| - traffic.popped == Queued() + inside + Ready()
      ensures 0 <= Queued() <= n && 0 <= Ready() <= n
      ensures csm[L().q] < 2 * n && csm[L().q + 1] < 2 * n && csm[L().q + 4] < 2 * n && csm[L().q + 5] < 2 * n
      ensures Queued() == Occupancy(csm[L().q], csm[L().q + 4], n)
      ensures Ready() == Occupancy(csm[L().q + 5], csm[L().q + 1], n)
      ensures csm[L().q] == csm[L().q + 4] <==> Queued() == 0
      ensures traffic.received == traffic.pushed[..traffic.taken]
    {
      Counts(csm[..], L(), traffic);
    }

    // It is not empty only if the gap is no wider than it, nor than what is
    // outstanding.
    lemma LooksEmptyNeeds()
      requires Valid() && Aligned()
      ensures Ready() >= 0
      ensures LooksEmpty() && Ready() > 0 ==> Gap(n) <= n && Gap(n) <= Outstanding()
    {
      hide Consistent;
      Conservation();
    }

    // ------------------------------------------------------------- firmware

    // What the firmware leaves alone, however long it runs.
    twostate predicate FirmwareFrame()
      requires Shape()
      reads this, csm
    {
      && traffic.pushed == old(traffic.pushed) && traffic.popped == old(traffic.popped)
      && old(traffic.taken) <= traffic.taken && old(traffic.posted) <= traffic.posted
      && (old(hung) ==> hung)
      && FirmwareOnly(L(), old(csm[..]), csm[..])
    }

    method DoFetch()
      requires Running() && Aligned() && |fetched| < 8
      modifies this
      ensures Running() && FirmwareFrame() && hung == old(hung)
      ensures old(Valid()) ==> Valid() && traffic == Stepped(old(traffic), n, Fetch)
    {
      hide Consistent;
      var q := (queueBase - CSM_BASE) / 4;
      if Valid() {
        Counts(csm[..], L(), traffic);
        if csm[q] != csm[q + 4] {
          FetchWord(csm[..], L(), traffic);
        }
      }
      if csm[q] != csm[q + 4] {
        fetched := fetched + [csm[q + 8 + 8 * (csm[q + 4] % n) + |fetched|]];
        traffic := traffic.(fetched := fetched);
      }
    }

    method DoAccept()
      requires Running() && Aligned() && |fetched| == 8
      modifies this, csm
      ensures Running() && FirmwareFrame() && hung == old(hung)
      ensures old(Valid()) ==> Valid() && traffic == Stepped(old(traffic), n, Accept)
    {
      hide Consistent;
      var q := (queueBase - CSM_BASE) / 4;
      ghost var mem := csm[..];
      if Valid() {
        AcceptRequest(mem, L(), traffic);
      }
      csm[q + 4] := (csm[q + 4] + 1) % (2 * n);
      assert csm[..] == mem[q + 4 := csm[q + 4]];
      traffic := traffic.(taken := traffic.taken + 1, received := traffic.received + [fetched], fetched := []);
      fetched := [];
      inside := inside + 1;
    }

    method DoDraft(word: u32)
      requires Running() && Aligned() && |drafted| < 8
      modifies this, csm
      ensures Running() && FirmwareFrame() && hung == old(hung)
      ensures old(Valid()) ==> Valid() && traffic == Stepped(old(traffic), n, Draft(word))
    {
      hide Consistent, Counted, FirmwareOnly, Occupancy, Slot;
      var q := (queueBase - CSM_BASE) / 4;
      ghost var mem := csm[..];
      if Valid() {
        Counts(mem, L(), traffic);
        if |traffic.posted| < traffic.taken && Ready() < n {
          DraftWord(mem, L(), traffic, word);
        }
      }
      FirmwareWrites(L(), mem, q + 4, 0);
      if inside > 0 && Occupancy(csm[q + 5], csm[q + 1], n) < n {
        var at := q + 8 + 8 * n + 8 * Slot(csm[q + 5], n) + |drafted|;
        FirmwareWrites(L(), mem, at, word);
        csm[at] := word;
        assert csm[..] == mem[at := word];
        drafted := drafted + [word];
        traffic := traffic.(drafted := drafted);
      }
    }

    method DoPublish()
      requires Running() && Aligned() && |drafted| == 8
      modifies this, csm
      ensures Running() && FirmwareFrame() && hung == old(hung)
      ensures old(Valid()) ==> Valid() && traffic == Stepped(old(traffic), n, Publish)
    {
      hide Consistent;
      var q := (queueBase - CSM_BASE) / 4;
      ghost var mem := csm[..];
      if Valid() {
        PublishResponse(mem, L(), traffic);
      }
      csm[q + 5] := (csm[q + 5] + 1) % (2 * n);
      assert csm[..] == mem[q + 5 := csm[q + 5]];
      traffic := traffic.(posted := traffic.posted + [drafted], drafted := []);
      drafted := [];
      inside := inside - 1;
    }

    method Act(step: FirmwareStep)
      requires Running() && Aligned()
      modifies this, csm
      ensures Running() && FirmwareFrame() && (hung <==> old(hung) || step == Hang)
      ensures old(Valid()) ==> Valid() && traffic == Stepped(old(traffic), n, step)
    {
      hide Consistent;
      match step {
        case Fetch => if |fetched| < 8 { DoFetch(); }
        case Accept => if |fetched| == 8 { DoAccept(); }
        case Draft(word) => if |drafted| < 8 { DoDraft(word); }
        case Publish => if |drafted| == 8 { DoPublish(); }
        case Hang => hung := true;
      }
    }

    // Any number of firmware actions.
    method Firmware(steps: Script)
      requires Running()
      modifies this, csm
      ensures Running() && FirmwareFrame()
      ensures !Aligned() ==> csm[..] == old(csm[..]) && traffic == old(traffic)
      ensures hung <==> old(hung) || (Aligned() && Hang in steps)
      ensures steps == [] ==> traffic == old(traffic) && csm[..] == old(csm[..])
      ensures old(Valid()) ==> Valid() && (Aligned() ==> traffic == Run(old(traffic), n, steps))
    {
      hide Consistent, Stepped;
      if queueBase % 4 != 0 {
        return;
      }
      for i := 0 to |steps|
        invariant Running() && FirmwareFrame()
        invariant hung <==> old(hung) || Hang in steps[..i]
        invariant i == 0 ==> traffic == old(traffic) && csm[..] == old(csm[..])
        invariant old(Valid()) ==> Valid() && traffic == Run(old(traffic), n, steps[..i])
      {
        RunNext(old(traffic), n, steps, i);
        Act(steps[i]);
      }
      assert steps[..|steps|] == steps;
    }

    // --------------------------------------------------------------- driver

    method CsmRead32(addr: u32) returns (status: Status, value: u32)
      requires Shape()
      ensures status == if AddressOk(addr) then Success else InvalidAddress
      ensures value == if !AddressOk(addr) then 0 else if hung then ALL_ONES else csm[WordOf(addr)]
    {
      if addr < CSM_BASE || addr > CSM_BASE + CSM_SIZE - 4 || addr % 4 != 0 {
        return InvalidAddress, 0;
      }
      return Success, if hung then ALL_ONES else csm[(addr - CSM_BASE) / 4];
    }

    method CsmWrite32(addr: u32, value: u32) returns (status: Status)
      requires Shape()
      modifies csm
      ensures status == if AddressOk(addr) then Success else InvalidAddress
      ensures csm[..] == if AddressOk(addr) && !hung then old(csm[..])[WordOf(addr) := value] else old(csm[..])
    {
      if addr < CSM_BASE || addr > CSM_BASE + CSM_SIZE - 4 || addr % 4 != 0 {
        return InvalidAddress;
      }
      if !hung {
        csm[(addr - CSM_BASE) / 4] := value;
      }
      return Success;
    }

    // What any mailbox operation of the driver leaves alone, firmware included.
    twostate predicate DriverFrame()
      requires Shape()
      reads this, csm
    {
      && old(traffic.taken) <= traffic.taken && old(traffic.posted) <= traffic.posted
      && (old(hung) ==> hung)
      && RingsOnly(L(), old(csm[..]), csm[..])
    }

    lemma PointerAddress(offset: int)
      requires Shape() && offset in {REQ_WPTR, REQ_RPTR, RES_WPTR, RES_RPTR}
      ensures AddressOk(queueBase + offset) <==> Aligned()
      ensures Aligned() ==> WordOf(queueBase + offset) == L().q + offset / 4
    {
    }

    lemma NextPointer(p: u32)
      requires Shape()
      ensures (p + 1) % (2 * n) == Advance(p, 1, n)
    {
    }

    lemma RequestAddress(wptr: u32, i: nat)
      requires Shape() && Aligned() && i < 8
      ensures var addr := queueBase + HEADER_SIZE + (wptr % n) * MSG_SIZE + 4 * i;
              AddressOk(addr) && WordOf(addr) == PushWord(L(), wptr, i)
    {
    }

    lemma ResponseAddress(rptr: u32, i: nat)
      requires Shape() && Aligned() && i < 8
      ensures var addr := queueBase + HEADER_SIZE + n * MSG_SIZE + (rptr % n) * MSG_SIZE + 4 * i;
              && AddressOk(addr) && L().q + 8 + 16 * n <= CSM_WORDS
              && WordOf(addr) == L().q + 8 + 8 * n + 8 * Slot(rptr, n) + i
    {
    }

    // The driver works with the entry count it read from the queue control
    // block, which is the queue's unless the path hung during that read.
    predicate Known(entries: nat)
      reads this
    {
      0 < entries <= 255 && (entries == n || hung)
    }

    // The firmware runs, then the driver reads one of the four pointers;
    // all-1s means that the device is gone.
    method ReadPointer(offset: int, steps: Script) returns (status: Status, value: u32)
      requires Running() && offset in {REQ_WPTR, REQ_RPTR, RES_WPTR, RES_RPTR}
      modifies this, csm
      ensures Running() && FirmwareFrame()
      ensures !Aligned() ==> csm[..] == old(csm[..]) && traffic == old(traffic)
      ensures !Aligned() <==> status == InvalidAddress
      ensures Aligned() ==> status == Success || status == DeviceDoesNotExist
      ensures status == Success ==> value == csm[L().q + offset / 4] && !hung
      ensures hung <==> old(hung) || (Aligned() && Hang in steps)
      ensures steps == [] ==> traffic == old(traffic) && csm[..] == old(csm[..])
      ensures old(Valid()) ==>
                && Valid() && (Aligned() ==> traffic == Run(old(traffic), n, steps))
                && (status == Success ==> value < 2 * n) && (status == DeviceDoesNotExist ==> hung)
    {
      hide Consistent, Counted, AddressOk, WordOf, Run;
      Firmware(steps);
      PointerAddress(offset);
      status, value := CsmRead32(queueBase + offset);
      if Valid() && Aligned() { Conservation(); }
      if status == Success && value == ALL_ONES {
        status := DeviceDoesNotExist;
      }
    }

    // ----------------------------------------------------------------- push

    // What the ring check makes of the pointers.
    ghost function Verdict(mem: Memory, l: Layout): Status
      requires Sound(l)
    {
      if Occupancy32(mem[l.q], mem[l.q + 4], l.n) >= l.n then DeviceBusy else Success
    }

    // The ring check of a push. `right` tells whether it found the ring full
    // exactly when it was.
    method PushCheck(entries: nat, fw: nat -> Script) returns (status: Status, wptr: u32, ghost right: bool)
      requires Running() && Known(entries)
      modifies this, csm
      ensures Running() && FirmwareFrame()
      ensures !Aligned() ==> csm[..] == old(csm[..]) && traffic == old(traffic)
      ensures !Aligned() <==> status == InvalidAddress
      ensures status in {Success, DeviceBusy, InvalidAddress, DeviceDoesNotExist}
      ensures status == Success ==> csm[L().q] == wptr && entries == n
      ensures Calm(fw) ==> hung == old(hung)
      ensures old(Valid()) && Aligned() && OnlyFirst(fw) ==> traffic == Run(old(traffic), n, fw(0))
      ensures old(Valid()) ==> Valid() && (status == DeviceDoesNotExist ==> hung)
      ensures old(Valid()) && Aligned() && !hung && fw(0) == fw(1) == [] ==> status == Verdict(old(csm[..]), L())
      ensures status in {Success, DeviceBusy} ==> (right <==> (status == DeviceBusy <==> Queued() == n))
      ensures status !in {Success, DeviceBusy} ==> right
      ensures old(Valid()) && (TWO32 % (2 * n) == 0 || old(csm[L().q] >= csm[L().q + 4])) ==> right
      ensures old(Valid()) && !right && status == Success ==> Slip(n) >= n
    {
      hide Consistent, Counted, AddressOk, WordOf, Run, Occupancy, Occupancy32, FirmwareOnly, FitsInCsm, Slip, Slot;
      hide Advance;
      ghost var was, w, r := Valid() && Aligned(), csm[L().q], csm[L().q + 4];
      right := true;
      if was { Conservation(); }
      var rptr;
      status, wptr := ReadPointer(REQ_WPTR, fw(0));
      if status != Success {
        return;
      }
      ghost var mem := csm[..];
      status, rptr := ReadPointer(REQ_RPTR, fw(1));
      FirmwareInSlot(L(), wptr, old(csm[..]), mem);
      FirmwareInSlot(L(), wptr, mem, csm[..]);
      FirmwareOnlyOn(L(), old(csm[..]), mem, csm[..]);
      if status != Success {
        return;
      }
      if was {
        Conservation();
        PushSafe(wptr, rptr, n);
        if w >= r {
          StaysBehind(w, r, rptr, n);
        }
      }
      if Occupancy32(wptr, rptr, entries) >= entries {
        status := DeviceBusy;
      }
      right := status == DeviceBusy <==> Queued() == n;
    }

    // The slot at the request write pointer holds i words of msg, unless the
    // path has hung and lost some of them.
    ghost predicate Filling(msg: Msg, wptr: u32, i: nat)
      requires i <= 8
      reads this, csm
    {
      && Running() && Aligned() && csm[L().q] == wptr
      && (!hung ==> Assembling(csm[..], L())[..i] == msg[..i])
    }

    // The firmware runs, then the driver writes word i of the message.
    method PushWordAt(msg: Msg, wptr: u32, i: nat, entries: nat, steps: Script) returns (status: Status)
      requires i < 8 && Filling(msg, wptr, i) && entries == n
      modifies this, csm
      ensures status == Success && Filling(msg, wptr, i + 1) && DriverFrame()
      ensures OneSlotOnly(L(), wptr, old(csm[..]), csm[..])
      ensures traffic.pushed == old(traffic.pushed) && traffic.popped == old(traffic.popped)
      ensures steps == [] ==> traffic == old(traffic)
      ensures hung <==> old(hung) || Hang in steps
      ensures old(Valid() && Queued() < n) ==> Valid() && Queued() < n
    {
      hide Consistent, Counted, Advance, Slot, Assembling, Run, FirmwareOnly, RingsOnly, OneSlotOnly, AddressOk;
      hide WordOf;
      ghost var before := csm[..];
      Firmware(steps);
      ghost var mem := csm[..];
      AssemblingFrame(before, mem, L());
      FirmwareInSlot(L(), wptr, before, mem);
      AssembleWord(mem, L(), i, msg[i]);
      if Valid() && Queued() < n {
        PushRequestWord(mem, L(), traffic, i, msg[i]);
      }
      RequestAddress(wptr, i);
      PushWrites(L(), wptr, mem, PushWord(L(), wptr, i), msg[i]);
      status := CsmWrite32(queueBase + HEADER_SIZE + (wptr % entries) * MSG_SIZE + 4 * i, msg[i]);
      FirmwareInRings(L(), before, mem);
      RingsOnlyOn(L(), before, mem, csm[..]);
      OneSlotOnlyOn(L(), wptr, before, mem, csm[..]);
      assert !hung ==> Assembling(csm[..], L())[..i + 1] == msg[..i + 1];
    }

    // The firmware runs, then the driver advances the request write pointer.
    method PushPointerAt(msg: Msg, wptr: u32, entries: nat, steps: Script) returns (status: Status)
      requires Filling(msg, wptr, 8) && entries == n
      modifies this, csm
      ensures status == Success && Running() && DriverFrame()
      ensures OneSlotOnly(L(), wptr, old(csm[..]), csm[..])
      ensures traffic.popped == old(traffic.popped)
      ensures traffic.pushed == if hung then old(traffic.pushed) else old(traffic.pushed) + [msg]
      ensures steps == [] ==> traffic == old(traffic).(pushed := traffic.pushed)
      ensures hung <==> old(hung) || Hang in steps
      ensures !hung ==> csm[L().q] == Advance(wptr, 1, n) && Requests(csm[..], L()).slots[Slot(wptr, n)] == msg
      ensures old(Valid() && Queued() < n) ==> Valid()
    {
      hide Consistent, Counted, Slot, Run, Advance, FirmwareOnly, RingsOnly, OneSlotOnly, AddressOk, WordOf, RingAt;
      hide Queue.L;
      ghost var before := csm[..];
      Firmware(steps);
      ghost var mem := csm[..];
      AssemblingFrame(before, mem, L());
      FirmwareInSlot(L(), wptr, before, mem);
      if Valid() && Queued() < n {
        PushPointer(mem, L(), traffic);
      }
      assert !hung ==> Assembling(mem, L()) == msg;
      PointerAddress(REQ_WPTR);
      NextPointer(wptr);
      WritePointer(mem, RequestPlace(L()), n, L().q, Advance(wptr, 1, n));
      PushWrites(L(), wptr, mem, L().q, Advance(wptr, 1, n));
      status := CsmWrite32(queueBase + REQ_WPTR, (wptr + 1) % (2 * entries));
      FirmwareInRings(L(), before, mem);
      RingsOnlyOn(L(), before, mem, csm[..]);
      OneSlotOnlyOn(L(), wptr, before, mem, csm[..]);
      if !hung {
        traffic := traffic.(pushed := traffic.pushed + [msg]);
      }
    }

    // The message is in the slot at what was the write pointer, the pointer has
    // advanced over it, and the other request slots are as they were.
    twostate predicate Written(msg: Msg)
      requires Shape()
      reads this, csm
    {
      var w := old(csm[L().q]);
      && csm[L().q] == Advance(w, 1, n)
      && Requests(csm[..], L()).slots[Slot(w, n)] == msg && OneSlotOnly(L(), w, old(csm[..]), csm[..])
    }

    // A push appends the request to what the firmware will receive, or, when
    // it takes the ring to be full, changes nothing. If the path hangs on the
    // way the request is either pushed whole or not at all. `right` tells
    // whether the ring check found the ring full exactly when it was. It does
    // if 2n divides 2^32 or the writer had not wrapped past the reader; a
    // check that lets a full ring through needs a slip of at least n, and only
    // such a check costs the queue its messages.
    method TryPush(msg: Msg, entries: nat, fw: nat -> Script) returns (status: Status, ghost right: bool)
      requires Running() && Known(entries)
      modifies this, csm
      ensures Running() && DriverFrame() && traffic.popped == old(traffic.popped)
      ensures traffic.pushed ==
                if status == Success && !hung then old(traffic.pushed) + [msg] else old(traffic.pushed)
      ensures status in {Success, DeviceBusy, InvalidAddress, DeviceDoesNotExist}
      ensures !Aligned() <==> status == InvalidAddress
      ensures !Aligned() ==> csm[..] == old(csm[..]) && traffic == old(traffic)
      ensures status == Success && !hung ==> Written(msg)
      ensures Calm(fw) ==> hung == old(hung)
      ensures !right ==> status in {Success, DeviceBusy}
      ensures status == DeviceBusy ==> (right <==> Queued() == n)
      ensures old(Valid()) && (TWO32 % (2 * n) == 0 || old(csm[L().q] >= csm[L().q + 4])) ==> right
      ensures old(Valid()) && status == DeviceBusy && right ==> old(Queued()) == n
      ensures old(Valid()) && !right && status == Success ==> old(Queued()) == n && Slip(n) >= n
      ensures old(Valid()) && Aligned() && OnlyFirst(fw) ==>
                traffic == Run(old(traffic), n, fw(0)).(pushed := traffic.pushed)
      ensures old(Valid()) && Aligned() && !hung && fw(0) == fw(1) == [] ==> status == Verdict(old(csm[..]), L())
      ensures old(Valid()) && (right || status != Success) ==>
                && Valid() && (status == DeviceDoesNotExist ==> hung)
                && (Aligned() && !hung ==> status == Success || status == DeviceBusy)
    {
      hide Consistent, Run, Counted, Occupancy, Occupancy32, Assembling, Slot, Advance, FirmwareOnly, RingsOnly;
      hide OneSlotOnly;
      if Valid() && Aligned() { Conservation(); }
      ghost var a := csm[..];
      var wptr;
      status, wptr, right := PushCheck(entries, fw);
      ghost var b := csm[..];
      FirmwareInRings(L(), a, b);
      FirmwareInSlot(L(), wptr, a, b);
      if status != Success {
        return;
      }
      if Valid() { Conservation(); }
      status := FillSlot(msg, wptr, entries, fw);
      ghost var c := csm[..];
      RingsOnlyOn(L(), a, b, c);
      OneSlotOnlyOn(L(), wptr, a, b, c);
      if status != Success {
        return;
      }
      status := PushPointerAt(msg, wptr, entries, fw(10));
      RingsOnlyOn(L(), a, c, csm[..]);
      OneSlotOnlyOn(L(), wptr, a, c, csm[..]);
    }

    // The eight words of the message, one after another.
    method FillSlot(msg: Msg, wptr: u32, entries: nat, fw: nat -> Script) returns (status: Status)
      requires Running() && Aligned() && csm[L().q] == wptr && entries == n
      modifies this, csm
      ensures status == Success && Filling(msg, wptr, 8) && DriverFrame()
      ensures OneSlotOnly(L(), wptr, old(csm[..]), csm[..])
      ensures traffic.pushed == old(traffic.pushed) && traffic.popped == old(traffic.popped)
      ensures Calm(fw) ==> hung == old(hung)
      ensures OnlyFirst(fw) ==> traffic == old(traffic)
      ensures old(Valid() && Queued() < n) ==> Valid() && Queued() < n
    {
      hide Consistent, Counted, Assembling, Slot, RingsOnly, OneSlotOnly;
      status := Success;
      PushWrites(L(), wptr, csm[..], L().q, 0);
      for i := 0 to 8
        invariant Filling(msg, wptr, i) && DriverFrame() && status == Success
        invariant OneSlotOnly(L(), wptr, old(csm[..]), csm[..])
        invariant traffic.pushed == old(traffic.pushed) && traffic.popped == old(traffic.popped)
        invariant Calm(fw) ==> hung == old(hung)
        invariant OnlyFirst(fw) ==> traffic == old(traffic)
        invariant old(Valid() && Queued() < n) ==> Valid() && Queued() < n
      {
        ghost var mem := csm[..];
        status := PushWordAt(msg, wptr, i, entries, fw(2 + i));
        RingsOnlyOn(L(), old(csm[..]), mem, csm[..]);
        OneSlotOnlyOn(L(), wptr, old(csm[..]), mem, csm[..]);
        if status != Success {
          return;
        }
      }
    }

    // ------------------------------------------------------------------ pop

    // The words read so far are those of the oldest unpopped response, all-1s
    // from where the path hung.
    ghost predicate Reading(words: seq<u32>)
      reads this, csm
    {
      && Valid() && Ready() > 0 && |words| <= 8
      && Cut(words, traffic.posted[traffic.popped])
      && (!hung ==> words == traffic.posted[traffic.popped][..|words|])
    }

    // The ring check of a pop: the reader's pointer first.
    method PopCheck(entries: nat, fw: nat -> Script) returns (status: Status, rptr: u32, ghost right: bool)
      requires Running() && Known(entries)
      modifies this, csm
      ensures Running() && FirmwareFrame()
      ensures !Aligned() ==> csm[..] == old(csm[..]) && traffic == old(traffic)
      ensures !Aligned() <==> status == InvalidAddress
      ensures status in {Success, DeviceBusy, InvalidAddress, DeviceDoesNotExist}
      ensures status == Success ==> csm[L().q + 1] == rptr && entries == n
      ensures Calm(fw) ==> hung == old(hung)
      ensures status == DeviceBusy ==> (right <==> Ready() == 0)
      ensures status != DeviceBusy ==> right
      ensures status in {Success, DeviceBusy} ==> !hung
      ensures csm[L().q + 1] == old(csm[L().q + 1])
      ensures old(Valid()) && Aligned() && OnlyFirst(fw) ==> traffic == Run(old(traffic), n, fw(0))
      ensures old(Valid()) && Aligned() ==> Run(old(traffic), n, fw(0)).posted <= traffic.posted
      ensures old(Valid()) ==>
                && Valid() && (status == DeviceDoesNotExist ==> hung) && (status == Success ==> Reading([]))
                && (Aligned() && status in {Success, DeviceBusy} ==>
                      Ready() >= 0 && (status == DeviceBusy <==> LooksEmpty()))
    {
      hide Consistent, Counted, AddressOk, WordOf, Run, Occupancy, Occupancy32, FirmwareOnly, FitsInCsm, Slip, Gap;
      hide Advance, ReadsEmpty;
      ghost var was := Valid() && Aligned();
      right := true;
      var wptr;
      status, rptr := ReadPointer(RES_RPTR, fw(0));
      FirmwareInSlot(L(), rptr, old(csm[..]), csm[..]);
      if status != Success {
        return;
      }
      ghost var mem := csm[..];
      status, wptr := ReadPointer(RES_WPTR, fw(1));
      FirmwareInSlot(L(), rptr, mem, csm[..]);
      FirmwareOnlyOn(L(), old(csm[..]), mem, csm[..]);
      if status != Success {
        return;
      }
      if was {
        Conservation();
        PopDecision(wptr, rptr, n);
        if Ready() > 0 { WholeIsCut([], traffic.posted[traffic.popped]); }
      }
      if Occupancy32(wptr, rptr, entries) == 0 {
        status := DeviceBusy;
        right := Ready() == 0;
      }
    }

    // The firmware runs, then the driver reads the next word of the response.
    method PopWordAt(rptr: u32, words: seq<u32>, entries: nat, steps: Script)
      returns (status: Status, words': seq<u32>)
      requires Running() && Aligned() && csm[L().q + 1] == rptr && |words| < 8 && entries == n
      modifies this, csm
      ensures status == Success && Running() && csm[L().q + 1] == rptr && |words'| == |words| + 1 && FirmwareFrame()
      ensures steps == [] ==> traffic == old(traffic)
      ensures hung <==> old(hung) || Hang in steps
      ensures old(Reading(words)) ==> Reading(words')
    {
      hide Consistent, Counted, Slot, Run, Cut;
      ghost var was := Reading(words);
      Firmware(steps);
      var i := |words|;
      if was {
        OldestResponse(csm[..], L(), traffic, i);
      }
      ResponseAddress(rptr, i);
      var word;
      status, word := CsmRead32(queueBase + HEADER_SIZE + entries * MSG_SIZE + (rptr % entries) * MSG_SIZE + 4 * i);
      words' := words + [word];
      if was {
        if hung {
          CutMore(words, traffic.posted[traffic.popped]);
        } else {
          assert words' == traffic.posted[traffic.popped][..i + 1];
          WholeIsCut(words', traffic.posted[traffic.popped]);
        }
      }
    }

    method PopPointerAt(rptr: u32, words: seq<u32>, entries: nat, steps: Script) returns (status: Status)
      requires Running() && Aligned() && csm[L().q + 1] == rptr && |words| == 8 && entries == n
      modifies this, csm
      ensures status == Success && Running() && DriverFrame() && traffic.pushed == old(traffic.pushed)
      ensures traffic.popped == if hung then old(traffic.popped) else old(traffic.popped) + 1
      ensures steps == [] ==> traffic == old(traffic).(popped := traffic.popped)
      ensures csm[L().q + 1] == if hung then rptr else Advance(rptr, 1, n)
      ensures hung <==> old(hung) || Hang in steps
      ensures old(Reading(words)) ==>
                && Valid() && old(traffic.popped) < |traffic.posted|
                && Cut(words, traffic.posted[old(traffic.popped)])
                && (!hung ==> words == traffic.posted[old(traffic.popped)])
    {
      hide Consistent, Counted, Slot, AddressOk, WordOf, Run, Advance, Cut;
      ghost var was := Reading(words);
      Firmware(steps);
      ghost var t := traffic;
      if was {
        PopPointer(csm[..], L(), t);
      }
      PointerAddress(RES_RPTR);
      NextPointer(rptr);
      status := CsmWrite32(queueBase + RES_RPTR, (rptr + 1) % (2 * entries));
      if !hung {
        traffic := traffic.(popped := traffic.popped + 1);
      }
    }

    // The eight words of the response, one after another.
    method PopWords(rptr: u32, entries: nat, fw: nat -> Script) returns (status: Status, words: seq<u32>)
      requires Running() && Aligned() && csm[L().q + 1] == rptr && entries == n
      modifies this, csm
      ensures status == Success && |words| == 8
      ensures Running() && csm[L().q + 1] == rptr && FirmwareFrame()
      ensures Calm(fw) ==> hung == old(hung)
      ensures OnlyFirst(fw) ==> traffic == old(traffic)
      ensures old(Reading([])) ==> Reading(words)
    {
      hide Consistent, Counted, Slot, FirmwareOnly, Cut;
      FirmwareWrites(L(), csm[..], L().q + 4, 0);
      status, words := Success, [];
      for i := 0 to 8
        invariant Running() && csm[L().q + 1] == rptr && |words| == i && FirmwareFrame() && status == Success
        invariant Calm(fw) ==> hung == old(hung)
        invariant OnlyFirst(fw) ==> traffic == old(traffic)
        invariant old(Reading([])) ==> Reading(words)
      {
        ghost var mem := csm[..];
        status, words := PopWordAt(rptr, words, entries, fw(2 + i));
        FirmwareOnlyOn(L(), old(csm[..]), mem, csm[..]);
        if status != Success {
          return;
        }
      }
    }

    // Past the ring check: read the response and advance over it.
    method TakeOldest(rptr: u32, entries: nat, fw: nat -> Script) returns (status: Status, msg: Msg)
      requires Running() && Aligned() && csm[L().q + 1] == rptr && entries == n
      modifies this, csm
      ensures status == Success && Running() && DriverFrame() && traffic.pushed == old(traffic.pushed)
      ensures traffic.popped == old(traffic.popped) + if hung then 0 else 1
      ensures Calm(fw) ==> hung == old(hung)
      ensures csm[L().q + 1] == if hung then rptr else Advance(rptr, 1, n)
      ensures OnlyFirst(fw) ==> traffic == old(traffic).(popped := traffic.popped)
      ensures old(Reading([])) ==>
                && Valid() && old(traffic.popped) < |traffic.posted| <= |traffic.pushed|
                && Cut(msg, traffic.posted[old(traffic.popped)])
                && (!hung ==> msg == traffic.posted[old(traffic.popped)])
    {
      hide Consistent, Counted, Slot, FirmwareOnly, RingsOnly, Advance, Cut;
      var words;
      msg := seq(8, _ => 0);
      status, words := PopWords(rptr, entries, fw);
      if status != Success {
        return;
      }
      msg := words;
      ghost var mid := csm[..];
      status := PopPointerAt(rptr, words, entries, fw(10));
      FirmwareInRings(L(), old(csm[..]), mid);
      RingsOnlyOn(L(), old(csm[..]), mid, csm[..]);
      if Valid() { Conservation(); }
    }

    // A pop takes the oldest response, whole, or reports that there is none. If
    // the path hangs on the way it may return the first words of that response
    // and all-1s for the rest, and leave it in the ring.
    // `right` tells whether such a report is true: it comes from a ring that looks
    // empty, and is true for sure if the gap is wider than the ring or than the
    // requests outstanding. With every request answered it comes exactly from a
    // ring that looks empty. A queue keeps its messages in any case.
    method TryPop(entries: nat, fw: nat -> Script) returns (status: Status, msg: Msg, ghost right: bool)
      requires Running() && Known(entries)
      modifies this, csm
      ensures Running() && DriverFrame() && traffic.pushed == old(traffic.pushed)
      ensures traffic.popped == old(traffic.popped) + if status == Success && !hung then 1 else 0
      ensures status in {Success, DeviceBusy, InvalidAddress, DeviceDoesNotExist}
      ensures !Aligned() <==> status == InvalidAddress
      ensures !Aligned() ==> csm[..] == old(csm[..]) && traffic == old(traffic)
      ensures Calm(fw) ==> hung == old(hung)
      ensures csm[L().q + 1] ==
                if status == Success && !hung then Advance(old(csm[L().q + 1]), 1, n) else old(csm[L().q + 1])
      ensures status == DeviceBusy ==> !hung && (right <==> Ready() == 0)
      ensures status != DeviceBusy ==> right
      ensures status == Success ==> !old(hung)
      ensures old(Valid()) && (Gap(n) > n || old(Outstanding()) < Gap(n)) ==> right
      ensures old(Valid()) && Aligned() && OnlyFirst(fw) ==>
                traffic == Run(old(traffic), n, fw(0)).(popped := traffic.popped)
      ensures old(Valid()) && Aligned() ==> Run(old(traffic), n, fw(0)).posted <= traffic.posted
      ensures old(Valid()) ==>
                && Valid() && (status == DeviceDoesNotExist ==> hung)
                && (status == DeviceBusy ==> Ready() >= 0 && LooksEmpty())
                && (status == Success ==>
                      old(traffic.popped) < |traffic.posted| && Cut(msg, traffic.posted[old(traffic.popped)]))
                && (Aligned() && !hung ==> status == Success || status == DeviceBusy)
                && (status == Success && !hung ==> msg == traffic.posted[old(traffic.popped)])
      ensures old(Valid() && AllAnswered()) && Aligned() && !hung ==>
                && traffic.posted == old(traffic.posted)
                && old(Ready()) >= 0 && (status == DeviceBusy <==> old(LooksEmpty()))
    {
      hide Consistent, Run, Counted, Occupancy, Occupancy32, Slot, FirmwareOnly, RingsOnly, Advance, Gap, Slip;
      hide FitsInCsm, AddressOk, WordOf, ReadsEmpty;
      if Valid() && Aligned() { Conservation(); }
      var rptr;
      msg := seq(8, _ => 0);
      status, rptr, right := PopCheck(entries, fw);
      ghost var was := csm[..];
      FirmwareInRings(L(), old(csm[..]), was);
      if Valid() && Aligned() {
        Conservation();
        LooksEmptyNeeds();
      }
      if status != Success {
        return;
      }
      status, msg := TakeOldest(rptr, entries, fw);
      RingsOnlyOn(L(), old(csm[..]), was, csm[..]);
    }
  }
}
