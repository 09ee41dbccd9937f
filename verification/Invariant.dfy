// The inductive invariant of the transition system, in named parts.
module Invariant {
  import opened Prelude
  import opened ConfigSpace
  import opened WindowPool
  import opened Iatu
  import opened Machine

  // -------------------------------------------------------- program points

  predicate AtReset(pc: Ioctl, r: ResetPc) { pc.Reset? && pc.r == r }

  // RESET_DEVICE past its check of the mapping list.
  predicate PastCheck(pc: Ioctl) { pc.Reset? && !pc.r.RCheck? }

  // RESET_DEVICE past its save of config space.
  predicate PastSave(pc: Ioctl) { PastProbe(pc) && !pc.r.RSave? }

  // RESET_DEVICE past its marker write.
  predicate PastMarker(pc: Ioctl) { PastSave(pc) && !pc.r.RMarkRead? && !pc.r.RMarkWrite? }

  predicate AboutToRestrict(pc: Ioctl) { AtReset(pc, RCarry) || AtReset(pc, RRestrict) }

  predicate Restricting(pc: Ioctl) { pc.Reset? && (pc.r.RDarken? || pc.r.RTarget? || pc.r.RControl?) }

  predicate Probing(pc: Ioctl) { pc.Post? && (pc.p.PProbe? || pc.p.PMarker?) }

  predicate Restoring(pc: Ioctl) { pc.Post? && pc.p.PRestore? }

  predicate Restored(pc: Ioctl) { pc.Post? && (pc.p.PResave? || pc.p.PGate? || pc.p.PUnrestrict?) }

  predicate Answering(pc: Ioctl) { pc.Post? && pc.p.PUnlock? }

  predicate Configuring(pc: Ioctl) { pc.Window? && pc.w.TConfigure? }

  // ------------------------------------------------------------ invariants

  // A pending reset timer sits in a chip that is on the bus with its marker
  // set, and nothing is in flight unless the driver is restricted.
  ghost predicate ChipInv(s: State) {
    && (s.chip.pending ==> s.chip.onBus && Marker(s.chip.cfg))
    && (s.chip.pending || !s.chip.onBus ==> s.restricted)
  }

  ghost predicate BoardInv(s: State) {
    && s.board.vendorId != 0xFFFF && Vendor(s.chip.cfg) == s.board.vendorId
    && s.board.writable[COMMAND] && !s.board.writable[0]
  }

  ghost predicate LockInv(s: State) {
    && (s.arc == ByIoctl <==> IoctlHoldsArc(s.ioctl))
    && (s.arc == ByPower <==> PowerHoldsArc(s.power))
    && (!s.hw.queue ==> s.ioctl.Idle? && !s.power.PowerSect?)
    && (s.hw.queue ==> s.hw.started && s.hw.kernelTlb && s.hw.tlbRegs && !s.power.Releasing?)
  }

  // What a critical section relies on once its guard has passed.
  ghost predicate PassedGuard(s: State, sec: Critical) {
    && (CriticalTouches(sec) || sec.Verify? ==> !s.restricted)
    && (sec.Touch? ==> GuardPasses(s, sec.job) && (sec.axi ==> s.hw.aperture && !sec.job.SysmemReport?))
    && (sec.Detect? ==> s.hw.nocId)
    && (sec.Detect? || sec.Program? || sec.Loopback? || sec.Verify? ==> s.sys.live && s.hw.bar2)
    && (sec.Program? || sec.Loopback? || sec.Verify? ==> s.sys.tileX == 2 || s.sys.tileX == 11)
    && (sec.Loopback? || sec.Verify? ==> s.sys.region == Region(0, s.sys.size - 1, s.sys.phys, true))
  }

  ghost predicate GuardInv(s: State) {
    && (s.ioctl.Sect? ==> PassedGuard(s, s.ioctl.sec))
    && (s.power.PowerSect? ==> PassedGuard(s, s.power.sec))
  }

  // RESET_DEVICE: what holds before each of its accesses.
  ghost predicate ResetInv(s: State) {
    && (PastCheck(s.ioctl) ==> s.recs.listed == {})
    && (PastSave(s.ioctl) ==> s.save.valid)
    && (s.ioctl.Reset? && s.ioctl.r.RMarkWrite? && s.chip.onBus ==>
          Low(s.chip.cfg[COMMAND]) == s.ioctl.r.command)
    && (PastMarker(s.ioctl) && s.chip.onBus ==> Marker(s.chip.cfg))
    && (AboutToRestrict(s.ioctl) ==> Unowned(s.own.pool))
    && (Restricting(s.ioctl) ==> s.restricted)
  }

  // POST_RESET: past its marker test no timer is pending and the link is up.
  ghost predicate PostInv(s: State) {
    && (Probing(s.ioctl) || Restoring(s.ioctl) || Restored(s.ioctl) ==> s.restricted)
    && (Restoring(s.ioctl) || Restored(s.ioctl) ==> s.chip.onBus && !s.chip.pending)
    && (Restoring(s.ioctl) ==> s.ioctl.p.i <= DWORDS && !Marker(s.chip.cfg))
    && (s.ioctl.Post? && s.ioctl.p.PGate? ==> s.ioctl.p.j <= 5)
    && (Answering(s.ioctl) ==> (s.ioctl.p.answer == Success <==> !s.restricted))
    && (Answering(s.ioctl) && s.ioctl.p.recovered ==> s.ioctl.p.answer == Success)
  }

  predicate Without(s: State) { !s.hw.queue }

  // The release stands at one of these points, or is over.
  predicate AtRelease(s: State, points: set<Release>) {
    s.power.PowerIdle? || (s.power.Releasing? && s.power.x in points)
  }

  // The hardware is released with the list already emptied, and what a step of
  // the release has taken away stays away.
  ghost predicate ReleaseInv(s: State) {
    && (!s.hw.queue && s.power != Releasing(XRevoke) ==> s.recs.listed == {} && Unowned(s.own.pool))
    && (s.recs.revoking != {} ==> s.power == Releasing(XDestroy))
    && (Without(s) && AtRelease(s, {XUnlock, XFree, XRegs, XBus}) ==>
          && !s.hw.kernelTlb && !s.hw.bar2 && !s.hw.nocId && !s.hw.aperture && !s.sys.verified)
    && (Without(s) && AtRelease(s, {XRegs, XBus}) ==> !s.sys.live)
    && (Without(s) && AtRelease(s, {XBus}) ==> !s.hw.tlbRegs)
    && (Without(s) && AtRelease(s, {}) ==> !s.hw.started)
  }

  ghost predicate RestrictedInv(s: State) {
    s.restricted ==>
      && s.recs.listed == {} && s.recs.revoking == {}
      && Unowned(s.own.pool)
      && s.save.valid
      && (s.sys.verified ==> AtReset(s.ioctl, RDarken))
      && (s.ioctl.Idle? || s.ioctl.Reset? || s.ioctl.Post?)
  }

  ghost predicate PoolInv(s: State) {
    && WellFormed(s.own.pool)
    && (forall m :: m in s.recs.listed && m.tlb >= 0 ==> Owns(s.own.pool, m.file, m.tlb))
    && (Configuring(s.ioctl) ==> !s.restricted && s.hw.tlbRegs && Owns(s.own.pool, s.ioctl.h, s.ioctl.w.id))
  }

  // The handle whose request is being handled, while it still matters.
  function Requestor(pc: Ioctl): Option<Handle> {
    if pc.Reset? && !pc.r.RRestrict? && !Restricting(pc) && !pc.r.RUnlock? then pc.f
    else if pc.Window? && !pc.w.MBackout? && !pc.w.UDestroy? then Some(pc.h)
    else None
  }

  // Between the generation bump and the carry of the arming handle.
  predicate Bumped(pc: Ioctl) { AtReset(pc, RReclaim) || AtReset(pc, RCarry) }

  predicate RequestorInv(s: State) {
    Requestor(s.ioctl).Some? ==>
      && Requestor(s.ioctl).value in s.own.files
      && s.own.files[Requestor(s.ioctl).value] == if Bumped(s.ioctl) then s.own.gen - 1 else s.own.gen
  }

  ghost predicate GenerationInv(s: State) {
    && (forall h :: h in s.own.files ==> s.own.files[h] <= s.own.gen)
    && RequestorInv(s)
    && (forall i :: 0 <= i < WINDOWS && s.own.pool.owner[i].Some? ==>
          && s.own.pool.owner[i].value in s.own.files
          && (AtReset(s.ioctl, RReclaim) || s.own.files[s.own.pool.owner[i].value] == s.own.gen))
    && (forall m :: m in s.recs.listed ==> m.file in s.own.files && s.own.files[m.file] == s.own.gen)
    && (s.ioctl.Window? && s.ioctl.w.MInsert? ==> s.ioctl.w.m.file == s.ioctl.h)
  }

  // --------------------------------------------------------------- records

  function InHand(pc: Ioctl): set<Mapping> {
    if pc.Window? && (pc.w.MInsert? || pc.w.MBackout? || pc.w.UDestroy?) then {pc.w.m} else {}
  }

  // Records whose user view exists: listed, or taken off the list and not yet
  // unmapped, or held by the ioctl in progress.
  function Views(s: State): set<Mapping> {
    s.recs.listed + s.recs.cleaning + s.recs.revoking + InHand(s.ioctl)
  }

  ghost predicate Apart(r: Records, hand: set<Mapping>) {
    r.listed !! r.cleaning !! r.revoking !! hand
  }

  ghost predicate Numbered(r: Records, views: set<Mapping>) {
    && (forall m :: m in views ==> m.id < r.made && m.id !in r.gone)
    && (forall a, b :: a in views && b in views && a.id == b.id ==> a == b)
    && (forall i :: i in r.gone ==> i < r.made)
  }

  ghost predicate RecordInv(s: State) {
    && Apart(s.recs, InHand(s.ioctl))
    && Numbered(s.recs, Views(s))
  }

  function OfProcess(ms: set<Mapping>, p: nat): set<Mapping> { set m | m in ms && m.proc == p }

  // Process references: each process is referenced once per record naming it.
  ghost predicate Referenced(refs: multiset<nat>, views: set<Mapping>) {
    forall p: nat :: refs[p] == |OfProcess(views, p)|
  }

  ghost predicate ReferenceInv(s: State) { Referenced(s.recs.refs, Views(s)) }

  // ---------------------------------------------------------------- config

  ghost predicate RestoredBelow(s: State, n: int)
    requires n <= DWORDS
  {
    forall j :: 0 <= j < n && j != COMMAND && s.board.writable[j] ==> s.chip.cfg[j] == s.save.image[j]
  }

  ghost predicate ConfigInv(s: State) {
    && (s.restricted ==> SameWritable(s.save.image, s.save.orig, s.board.writable))
    && (PastSave(s.ioctl) && !s.restricted ==> s.save.image == s.save.orig)
    && (Restoring(s.ioctl) && s.ioctl.p.ok && s.ioctl.p.i <= DWORDS ==> RestoredBelow(s, s.ioctl.p.i))
    && (Restored(s.ioctl) ==> SameWritable(s.chip.cfg, s.save.orig, s.board.writable))
  }

  ghost predicate SysmemInv(s: State) {
    && (s.sys.verified ==>
          && s.sys.live
          && (s.sys.tileX == 2 || s.sys.tileX == 11)
          && s.sys.region == Region(0, s.sys.size - 1, s.sys.phys, true))
    && (!s.hw.queue && s.sys.verified ==>
          s.power.Releasing? && (s.power.x.XRevoke? || s.power.x.XDestroy? || s.power.x.XLock? || s.power.x.XUnmap?))
  }

  // ----------------------------------------------------------------- polls

  // Once an answer other than BUSY has been given, BUSY never comes again.
  ghost predicate PollShape(log: seq<Status>) {
    forall i, j :: 0 <= i < j < |log| && log[i] != DeviceBusy ==> log[j] != DeviceBusy
  }

  ghost predicate OtherThanBusy(log: seq<Status>) {
    exists i :: 0 <= i < |log| && log[i] != DeviceBusy
  }

  // One arm, no short config read in POST_RESET, parity clear in the saved COMMAND.
  ghost predicate SingleArm(s: State) { s.polls.arms <= 1 && !s.polls.flaky && !Marker(s.save.orig) }

  // The chip has reset: nothing pending, and its marker is clear.
  ghost predicate HasReset(c: Chip) { !c.pending && (c.onBus ==> !Marker(c.cfg)) }

  ghost predicate PollInv(s: State) {
    && (s.restricted || PastProbe(s.ioctl) ==> s.polls.arms >= 1)
    && (PastProbe(s.ioctl) && s.polls.arms <= 1 ==> s.polls.log == [])
    && (SingleArm(s) ==>
          && PollShape(s.polls.log)
          && (s.restricted && OtherThanBusy(s.polls.log) ==>
                HasReset(s.chip) && (s.ioctl == Post(PMarker) ==> s.chip.onBus))
          && (Restoring(s.ioctl) || Restored(s.ioctl) ==> !Marker(s.chip.cfg))
          && (Answering(s.ioctl) && s.ioctl.p.answer != DeviceBusy && s.restricted ==> HasReset(s.chip))
          && (Answering(s.ioctl) && OtherThanBusy(s.polls.log) ==> s.ioctl.p.answer != DeviceBusy))
  }

  ghost predicate ControlInv(s: State) {
    && ChipInv(s) && BoardInv(s) && LockInv(s) && ReleaseInv(s) && GuardInv(s)
    && ResetInv(s) && PostInv(s) && RestrictedInv(s)
  }

  ghost predicate OwnerInv(s: State) { PoolInv(s) && GenerationInv(s) }

  ghost predicate ViewInv(s: State) { RecordInv(s) && ReferenceInv(s) }

  ghost predicate DataInv(s: State) { ConfigInv(s) && SysmemInv(s) && PollInv(s) }

  ghost predicate Inv(s: State) { ControlInv(s) && OwnerInv(s) && ViewInv(s) && DataInv(s) }

  lemma InitInv(s: State)
    requires Init(s)
    ensures Inv(s)
  {
  }
}
