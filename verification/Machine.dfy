// The driver as a transition system: one sequential ioctl queue, the power
// and PnP callbacks, handle opens and cleanups, and the chip, interleaved at
// single-access granularity. A program counter stands before the next access
// of each thread, so another thread may run between any two of them.
module Machine {
  import opened Prelude
  import opened ConfigSpace
  import opened WindowPool
  import opened Iatu

  // ---------------------------------------------------------------- state

  // Constants of the board: its vendor id and which config dwords software can write.
  datatype Board = Board(vendorId: u16, writable: Mask)

  datatype Chip = Chip(onBus: bool, pending: bool, cfg: Image)

  // Whether the queue runs and which hardware the device context has mapped:
  // the kernel's window and the window registers, the iATU in BAR2, the NOC_ID
  // page and the ARC aperture. The last three are best-effort.
  datatype Hardware = Hardware(queue: bool, started: bool, kernelTlb: bool, tlbRegs: bool,
                               bar2: bool, nocId: bool, aperture: bool)

  // SavedConfig, and (history) the live config just before the first arm.
  datatype Save = Save(image: Image, valid: bool, orig: Image)

  datatype Sysmem = Sysmem(live: bool, size: int, phys: int, verified: bool, tileX: int, region: Region)

  // The device's reset generation, the one each handle captured, the handles
  // already cleaned up, and the windows.
  datatype Owners = Owners(gen: nat, files: map<Handle, nat>, closed: set<Handle>, pool: Windows)

  datatype Kind = Mdl | Section

  // One user mapping record. The id is the record's identity (its address).
  datatype Mapping = Mapping(id: nat, file: Handle, proc: nat, kind: Kind, tlb: int)

  // MappingList, the records off the list whose user view is not yet unmapped,
  // and (history) record numbering, process references and destroyed records.
  datatype Records = Records(listed: set<Mapping>, cleaning: set<Mapping>, revoking: set<Mapping>,
                             made: nat, refs: multiset<nat>, gone: set<nat>)

  // History of POST_RESET since the first arm: arms, short reads, answers.
  datatype Polls = Polls(arms: nat, flaky: bool, log: seq<Status>)

  datatype Lock = Free | ByIoctl | ByPower

  datatype State = State(
    board: Board, chip: Chip, hw: Hardware,
    restricted: bool,   // NeedsHwInit
    save: Save, sys: Sysmem, own: Owners, recs: Records, polls: Polls,
    arc: Lock, ioctl: Ioctl, power: Power)

  // -------------------------------------------------------------- threads

  // Work done under ArcLock.
  datatype Job =
    | Exchange(left: nat, arm: bool)   // a mailbox exchange; `left` more may follow, then a sysmem arm
    | ArcReport                        // the ARC_STATUS probe
    | SysmemReport                     // the SYSMEM_STATUS register readback
    | Invalidate                       // suspend: stop advertising sysmem
    | Arm                              // (re)arm sysmem

  datatype Critical =
    | Acquire(job: Job) | Guard(job: Job) | Touch(job: Job, axi: bool) | Dim
    | Darken | ArmGuard | Detect | Program | Loopback | Verify
    | Leave(job: Job)

  datatype ResetPc =
    | RCheck | RLock | RProbe | RSave | RMarkRead | RMarkWrite(command: u16)
    | RBump | RReclaim | RCarry | RRestrict | RDarken | RTarget | RControl | RUnlock

  datatype PostPc =
    | PLock | PGuard | PProbe | PMarker | PRestore(i: nat, ok: bool) | PResave | PGate(j: nat, ok: bool) | PUnrestrict
    | PUnlock(answer: Status, recovered: bool)

  datatype WindowPc =
    | TAllocate | TFree(id: nat) | TCheck(id: nat) | TConfigure(id: nat)
    | MCheck(id: nat, proc: nat) | MAvailable(proc: nat)
    | MMake(proc: nat, kind: Kind, tlb: int) | MInsert(m: Mapping) | MBackout(m: Mapping)
    | UFind | UDestroy(m: Mapping)

  datatype Ioctl =
    | Idle
    | Reset(r: ResetPc, f: Option<Handle>)
    | Post(p: PostPc)
    | Window(w: WindowPc, h: Handle)
    | Sect(sec: Critical)

  datatype Release = XRevoke | XDestroy | XLock | XUnmap | XUnlock | XFree | XRegs | XBus

  datatype Power = PowerIdle | PowerSect(sec: Critical) | Releasing(x: Release)

  // What the outside world decides about one step.
  datatype Env = Env(ok: bool, lands: bool, again: bool, more: bool, prefix: nat,
                     half: u16, tile: Option<int>, pick: Option<Mapping>)

  datatype Request =
    | GetDeviceInfo | QuerySysmem | ResetDevice | PostReset
    | MapBar(proc: nat) | UnmapBar | AllocateTlb | FreeTlb(id: nat) | ConfigureTlb(id: nat)
    | MapTlb(id: nat, proc: nat) | SmcMsg | MapSysmem(proc: nat) | SysmemStatus | ArcStatus

  datatype Callback = Suspend | Resume | ReleaseHardware

  datatype Action =
    | Fire
    | Return(cfg: Image)
    | Open(h: Handle)
    | Cleanup(h: Handle)
    | UnmapView(m: Mapping)
    | Dispatch(f: Option<Handle>, req: Request)
    | Step(e: Env)
    | Begin(cb: Callback)
    | Prepare(bar2: bool, nocId: bool, aperture: bool, bytes: int, at: int)
    | PowerStep(e: Env)

  // ------------------------------------------------------------- dispatch

  // Allow-list of the restricted state.
  predicate AllowedRestricted(req: Request) {
    req.GetDeviceInfo? || req.QuerySysmem? || req.ResetDevice? || req.PostReset?
  }

  function Handler(s: State, f: Option<Handle>, req: Request): Ioctl {
    match req
    case ResetDevice => if s.hw.started then Reset(RCheck, f) else Idle
    case PostReset => if s.hw.started then Post(PLock) else Idle
    case SmcMsg => Sect(Acquire(Exchange(0, false)))
    case ArcStatus => Sect(Acquire(ArcReport))
    case SysmemStatus => Sect(Acquire(SysmemReport))
    case GetDeviceInfo => Idle
    case QuerySysmem => Idle
    case _ => if f == None then Idle else Window(WindowHandler(req), f.value)
  }

  function WindowHandler(req: Request): WindowPc {
    match req
    case MapBar(proc) => MMake(proc, Mdl, -1)
    case UnmapBar => UFind
    case FreeTlb(id) => TFree(id)
    case ConfigureTlb(id) => TCheck(id)
    case MapTlb(id, proc) => MCheck(id, proc)
    case MapSysmem(proc) => MAvailable(proc)
    case _ => TAllocate
  }

  // The generation fence, then the restricted-state allow-list, then the handler.
  function Dispatched(s: State, f: Option<Handle>, req: Request): State
    requires f.Some? ==> f.value in s.own.files
  {
    if f.Some? && s.own.files[f.value] != s.own.gen then s
    else if s.restricted && !AllowedRestricted(req) then s
    else s.(ioctl := Handler(s, f, req))
  }

  // --------------------------------------------------------- config space

  function Vendor(img: Image): u16 { Low(img[0]) }

  // A config read: the live image, or all-1s from the root complex when the
  // device is off the bus.
  function ConfigRead(c: Chip): Image {
    if c.onBus then c.cfg else seq(DWORDS, i => ALL_ONES)
  }

  // A short read may have overwritten only a prefix of the destination.
  function ShortRead(prior: Image, got: Image, k: nat): Image {
    if k <= DWORDS then got[..k] + prior[k..] else got
  }

  predicate Present(s: State, e: Env) { e.ok && Vendor(ConfigRead(s.chip)) == s.board.vendorId }

  // A write reaches the chip when it is on the bus; a short write may or may not.
  predicate Lands(c: Chip, e: Env) { c.onBus && (e.ok || e.lands) }

  function Marked(c: Chip, command: u16, e: Env): Chip {
    if Lands(c, e) then c.(cfg := c.cfg[COMMAND := WithCommand(c.cfg[COMMAND], SetParity(command))]) else c
  }

  function Stored(s: State, i: nat, e: Env): Chip
    requires i < DWORDS
  {
    if Lands(s.chip, e) then
      s.chip.(cfg := Store(s.chip.cfg, i, s.save.image[i], e.half, s.board.writable))
    else s.chip
  }

  // --------------------------------------------------------- RESET_DEVICE

  function To(s: State, r: ResetPc): State {
    s.(ioctl := if s.ioctl.Reset? then Reset(r, s.ioctl.f) else s.ioctl)
  }

  function Probed(s: State): Polls {
    if s.restricted then s.polls.(arms := s.polls.arms + 1) else Polls(1, false, [])
  }

  function Saved(s: State, e: Env): State {
    if s.restricted then To(s, RMarkRead)
    else if e.ok then To(s.(save := Save(ConfigRead(s.chip), true, ConfigRead(s.chip))), RMarkRead)
    else To(s.(save := s.save.(image := ShortRead(s.save.image, ConfigRead(s.chip), e.prefix))), RUnlock)
  }

  function Carried(s: State, f: Option<Handle>): Owners {
    if f.Some? then s.own.(files := s.own.files[f.value := s.own.gen]) else s.own
  }

  function ResetStep(s: State, r: ResetPc, f: Option<Handle>, e: Env): State {
    match r
    case RCheck => if s.recs.listed != {} then s.(ioctl := Idle) else To(s, RLock)
    case RLock => To(s.(arc := ByIoctl), RProbe)
    case RProbe => if Present(s, e) then To(s.(polls := Probed(s)), RSave) else To(s, RUnlock)
    case RSave => Saved(s, e)
    case RMarkRead => To(s, if e.ok then RMarkWrite(Low(ConfigRead(s.chip)[COMMAND])) else RUnlock)
    case RMarkWrite(c) => To(s.(chip := Marked(s.chip, c, e)), if e.ok then RBump else RUnlock)
    case RBump => To(s.(own := s.own.(gen := s.own.gen + 1)), RReclaim)
    case RReclaim => To(s.(own := s.own.(pool := Reclaimed())), RCarry)
    case RCarry => To(s.(own := Carried(s, f)), RRestrict)
    case RRestrict => To(s.(restricted := true), RDarken)
    case RDarken => To(s.(sys := s.sys.(verified := false)), RTarget)
    case RTarget => To(s, RControl)
    case RControl => To(s.(chip := s.chip.(pending := s.chip.pending || (s.chip.onBus && e.lands))), RUnlock)
    case RUnlock => s.(arc := Free, ioctl := Idle)
  }

  // ----------------------------------------------------------- POST_RESET

  function Answer(s: State, a: Status): State { s.(ioctl := Post(PUnlock(a, false))) }

  function RestoreStep(s: State, i: nat, ok: bool, e: Env): State {
    if i == COMMAND then s.(ioctl := Post(PRestore(i + 1, ok)))
    else if i < DWORDS then s.(chip := Stored(s, i, e), ioctl := Post(PRestore(i + 1, ok && e.ok)))
    else if ok && e.ok then s.(chip := Stored(s, COMMAND, e), ioctl := Post(PResave))
    else Answer(s.(chip := Stored(s, COMMAND, e)), DeviceDataError)
  }

  function PostStep(s: State, p: PostPc, e: Env): State {
    match p
    case PLock => s.(arc := ByIoctl, ioctl := Post(PGuard))
    case PGuard =>
      if !s.restricted then Answer(s, Success)
      else if !s.hw.tlbRegs || !s.hw.kernelTlb || !s.save.valid then Answer(s, DeviceNotReady)
      else s.(ioctl := Post(PProbe))
    case PProbe =>
      if Present(s, e) then s.(ioctl := Post(PMarker))
      else Answer(s.(polls := s.polls.(flaky := s.polls.flaky || !e.ok)), DeviceDoesNotExist)
    case PMarker =>
      if !e.ok then Answer(s.(polls := s.polls.(flaky := true)), DeviceDoesNotExist)
      else if Marker(ConfigRead(s.chip)) then Answer(s, DeviceBusy)
      else s.(ioctl := Post(PRestore(0, true)))
    case PRestore(i, ok) => RestoreStep(s, i, ok, e)
    case PResave =>
      s.(ioctl := Post(PGate(0, true)),
         save := s.save.(image := if e.ok then ConfigRead(s.chip)
                                  else ShortRead(s.save.image, ConfigRead(s.chip), e.prefix)))
    // Three register writes, then three reads, compared when all are made.
    case PGate(j, ok) =>
      if j < 3 then s.(ioctl := Post(PGate(j + 1, ok)))
      else if j < 5 then s.(ioctl := Post(PGate(j + 1, ok && e.ok)))
      else if ok && e.ok then s.(ioctl := Post(PUnrestrict))
      else Answer(s, IoDeviceError)
    case PUnrestrict => s.(restricted := false, ioctl := Post(PUnlock(Success, true)))
    case PUnlock(answer, recovered) =>
      s.(arc := Free, polls := s.polls.(log := s.polls.log + [answer]),
         ioctl := if recovered then Sect(Acquire(Exchange(9, true))) else Idle)
  }

  // ------------------------------------------------- windows and mappings

  predicate HasMappings(ms: set<Mapping>, id: int) { exists m :: m in ms && m.tlb == id }

  function Destroyed(r: Records, m: Mapping): Records {
    r.(refs := r.refs - multiset{m.proc}, gone := r.gone + {m.id})
  }

  function Allocated(p: Windows, h: Handle): Windows {
    var id := Choice(p);
    if id.Some? then Taken(p, id.value, h) else p
  }

  function Unlinked(s: State, h: Handle, e: Env): State {
    if e.pick.Some? && e.pick.value in s.recs.listed && e.pick.value.file == h then
      s.(recs := s.recs.(listed := s.recs.listed - {e.pick.value}), ioctl := Window(UDestroy(e.pick.value), h))
    else s.(ioctl := Idle)
  }

  function WindowStep(s: State, w: WindowPc, h: Handle, e: Env): State {
    match w
    case TAllocate => s.(ioctl := Idle, own := s.own.(pool := Allocated(s.own.pool, h)))
    case TFree(id) =>
      if Owns(s.own.pool, h, id) && !HasMappings(s.recs.listed, id) then
        s.(ioctl := Idle, own := s.own.(pool := Freed(s.own.pool, id)))
      else s.(ioctl := Idle)
    case TCheck(id) =>
      s.(ioctl := if Owns(s.own.pool, h, id) && s.hw.tlbRegs then Window(TConfigure(id), h) else Idle)
    case TConfigure(id) => if e.again then s else s.(ioctl := Idle)
    case MCheck(id, proc) =>
      s.(ioctl := if Owns(s.own.pool, h, id) then Window(MMake(proc, Mdl, id), h) else Idle)
    case MAvailable(proc) =>
      s.(ioctl := if s.sys.verified then Window(MMake(proc, Section, -1), h) else Idle)
    case MMake(proc, kind, tlb) =>
      if e.ok then
        s.(recs := s.recs.(made := s.recs.made + 1, refs := s.recs.refs + multiset{proc}),
           ioctl := Window(MInsert(Mapping(s.recs.made, h, proc, kind, tlb)), h))
      else s.(ioctl := Idle)
    case MInsert(m) =>
      if m.tlb >= 0 && !Owns(s.own.pool, m.file, m.tlb) then s.(ioctl := Window(MBackout(m), h))
      else s.(recs := s.recs.(listed := s.recs.listed + {m}), ioctl := Idle)
    case MBackout(m) => s.(recs := Destroyed(s.recs, m), ioctl := Idle)
    case UFind => Unlinked(s, h, e)
    case UDestroy(m) => s.(recs := Destroyed(s.recs, m), ioctl := Idle)
  }

  // ------------------------------------------------------- under ArcLock

  // The guard every ArcLock user but the arm path evaluates under the lock.
  predicate GuardPasses(s: State, job: Job) {
    && !s.restricted
    && if job.SysmemReport? then s.hw.bar2 else s.hw.kernelTlb && s.hw.tlbRegs
  }

  // The guards of an arm, and the tile detection's own before its one access.
  predicate ArmPasses(s: State) {
    !s.restricted && s.sys.live && s.hw.bar2 && s.hw.kernelTlb && s.hw.tlbRegs && s.hw.nocId
  }

  // An access of an exchange or of the ARC report goes through the kernel
  // window or, if that is mapped, straight to the aperture.
  predicate ByAperture(s: State, job: Job, e: Env) { !job.SysmemReport? && s.hw.aperture && e.lands }

  predicate GoodTile(e: Env) { e.tile == Some(2) || e.tile == Some(11) }

  // What one step of a critical section does to the lock ...
  function LockAfter(arc: Lock, sec: Critical, me: Lock): Lock {
    match sec
    case Acquire(_) => me
    case Leave(_) => Free
    case _ => arc
  }

  // ... to the sysmem state ...
  function SysAfter(sys: Sysmem, sec: Critical, e: Env): Sysmem {
    match sec
    case Dim => sys.(verified := false)
    case Darken => sys.(verified := false)
    case Detect => if !e.again && GoodTile(e) then sys.(tileX := e.tile.value) else sys
    case Program =>
      if !e.again && sys.size <= MAX_REGION_SIZE then
        sys.(region := Region(0, sys.size - 1, sys.phys, true))
      else sys
    case Verify => sys.(verified := true)
    case _ => sys
  }

  // ... and where it goes next; None ends the thread's work.
  function After(s: State, sec: Critical, e: Env): Option<Critical> {
    match sec
    case Acquire(job) => Some(if job.Arm? then Darken else if job.Invalidate? then Dim else Guard(job))
    case Guard(job) => Some(if GuardPasses(s, job) then Touch(job, ByAperture(s, job, e)) else Leave(job))
    case Touch(job, _) => Some(if e.again then Touch(job, ByAperture(s, job, e)) else Leave(job))
    case Dim => Some(Leave(Invalidate))
    case Darken => Some(ArmGuard)
    case ArmGuard => Some(if ArmPasses(s) then Detect else Leave(Arm))
    case Detect => Some(if e.again then sec else if GoodTile(e) then Program else Leave(Arm))
    case Program => Some(if e.again then sec else if s.sys.size <= MAX_REGION_SIZE then Loopback else Leave(Arm))
    case Loopback => Some(if e.again then sec else if e.ok then Verify else Leave(Arm))
    case Verify => Some(Leave(Arm))
    case Leave(job) =>
      if job.Exchange? && job.left > 0 && e.more then Some(Acquire(Exchange(job.left - 1, job.arm)))
      else if job.Exchange? && job.arm then Some(Acquire(Arm))
      else if job.Invalidate? then Some(Acquire(Exchange(1, false)))
      else None
  }

  function SectStep(s: State, sec: Critical, e: Env): State {
    var next := After(s, sec, e);
    s.(arc := LockAfter(s.arc, sec, ByIoctl), sys := SysAfter(s.sys, sec, e),
       ioctl := if next.Some? then Sect(next.value) else Idle)
  }

  function PowerSectStep(s: State, sec: Critical, e: Env): State {
    var next := After(s, sec, e);
    s.(arc := LockAfter(s.arc, sec, ByPower), sys := SysAfter(s.sys, sec, e),
       power := if next.Some? then PowerSect(next.value) else PowerIdle)
  }

  // ------------------------------------------- releasing the hardware, handles

  function ReleaseStep(s: State, x: Release, e: Env): State {
    match x
    case XRevoke =>
      s.(recs := s.recs.(revoking := s.recs.listed, listed := {}), own := s.own.(pool := Reclaimed()),
         power := Releasing(XDestroy))
    case XDestroy =>
      if s.recs.revoking == {} then s.(power := Releasing(XLock))
      else if e.pick.Some? && e.pick.value in s.recs.revoking then
        s.(recs := Destroyed(s.recs, e.pick.value).(revoking := s.recs.revoking - {e.pick.value}))
      else s
    case XLock => s.(arc := ByPower, power := Releasing(XUnmap))
    case XUnmap =>
      s.(hw := s.hw.(kernelTlb := false, bar2 := false, nocId := false, aperture := false),
         sys := s.sys.(verified := false), power := Releasing(XUnlock))
    case XUnlock => s.(arc := Free, power := Releasing(XFree))
    case XFree =>
      s.(sys := s.sys.(live := false, size := 0, phys := 0, verified := false, tileX := 0),
         power := Releasing(XRegs))
    case XRegs => s.(hw := s.hw.(tlbRegs := false), power := Releasing(XBus))
    case XBus => s.(hw := s.hw.(started := false), power := PowerIdle)
  }

  function Begun(s: State, cb: Callback): State {
    match cb
    case Suspend => s.(power := PowerSect(Acquire(Invalidate)))
    case Resume => s.(power := PowerSect(Acquire(Exchange(1, true))))
    case ReleaseHardware => s.(hw := s.hw.(queue := false), power := Releasing(XRevoke))
  }

  function Prepared(s: State, bar2: bool, nocId: bool, aperture: bool, bytes: int, at: int): State {
    s.(hw := Hardware(true, true, true, true, bar2, nocId, aperture),
       sys := s.sys.(live := bytes > 0, size := bytes, phys := if bytes > 0 then at else 0))
  }

  function CleanedUp(s: State, h: Handle): State {
    var mine := set m | m in s.recs.listed && m.file == h;
    s.(recs := s.recs.(listed := s.recs.listed - mine, cleaning := s.recs.cleaning + mine),
       own := s.own.(pool := Released(s.own.pool, h), closed := s.own.closed + {h}))
  }

  // ------------------------------------------------------- program points

  // RESET_DEVICE between a successful presence probe and its last arm write.
  predicate PastProbe(pc: Ioctl) {
    pc.Reset? && !pc.r.RCheck? && !pc.r.RLock? && !pc.r.RProbe? && !pc.r.RUnlock?
  }

  predicate IoctlHoldsArc(pc: Ioctl) {
    match pc
    case Reset(r, _) => !r.RCheck? && !r.RLock?
    case Post(p) => !p.PLock?
    case Sect(sec) => !sec.Acquire?
    case _ => false
  }

  predicate PowerHoldsArc(pc: Power) {
    match pc
    case PowerIdle => false
    case PowerSect(sec) => !sec.Acquire?
    case Releasing(x) => x.XUnmap? || x.XUnlock?
  }

  // The next access takes ArcLock.
  predicate IoctlWaits(pc: Ioctl) {
    match pc
    case Reset(r, _) => r.RLock?
    case Post(p) => p.PLock?
    case Sect(sec) => sec.Acquire?
    case Window(w, _) => w.MAvailable?
    case Idle => false
  }

  predicate PowerWaits(pc: Power) { (pc.PowerSect? && pc.sec.Acquire?) || (pc.Releasing? && pc.x.XLock?) }

  // StateLock is held by the ioctl thread across more than one access; every
  // other use of it is a single step.
  predicate StateLockHeld(pc: Ioctl) {
    (pc.Reset? && pc.r.RReclaim?) || (pc.Window? && pc.w.TConfigure?)
  }

  // The next access of the thread is an access to a BAR.
  predicate CriticalTouches(sec: Critical) { sec.Touch? || sec.Detect? || sec.Program? || sec.Loopback? }

  predicate IoctlTouches(pc: Ioctl) {
    match pc
    case Sect(sec) => CriticalTouches(sec)
    case Post(p) => p.PGate?
    case Window(w, _) => w.TConfigure?
    case _ => false
  }

  predicate PowerTouches(pc: Power) { pc.PowerSect? && CriticalTouches(pc.sec) }

  predicate IsMmio(s: State, a: Action) {
    (a.Step? && IoctlTouches(s.ioctl)) || (a.PowerStep? && PowerTouches(s.power))
  }

  // The register block an access of a critical section goes to: the iATU for
  // the sysmem report and the programming, the NOC_ID page for the detection,
  // the aperture or the kernel window and its registers for the rest.
  predicate SectionMapped(hw: Hardware, sec: Critical) {
    match sec
    case Touch(job, axi) =>
      if job.SysmemReport? then hw.bar2 else if axi then hw.aperture else hw.kernelTlb && hw.tlbRegs
    case Detect => hw.nocId
    case Program => hw.bar2
    case Loopback => hw.kernelTlb && hw.tlbRegs
    case _ => true
  }

  // The gate and CONFIGURE_TLB go to the window registers.
  predicate BlockMapped(s: State, a: Action) {
    if a.Step? then (if s.ioctl.Sect? then SectionMapped(s.hw, s.ioctl.sec) else s.hw.tlbRegs)
    else s.power.PowerSect? ==> SectionMapped(s.hw, s.power.sec)
  }

  // -------------------------------------------------------------- the system

  predicate Enabled(s: State, a: Action) {
    match a
    // Only an armed timer drops the link.
    case Fire => s.chip.onBus && s.chip.pending
    // A chip that drops under RESET_DEVICE does not come back before that
    // handler is done with it; it comes back with its marker clear.
    case Return(cfg) =>
      !s.chip.onBus && !PastProbe(s.ioctl) && !Marker(cfg) && Vendor(cfg) == s.board.vendorId
    case Open(h) => h !in s.own.files
    case Cleanup(h) => h in s.own.files && h !in s.own.closed && !StateLockHeld(s.ioctl)
    case UnmapView(m) => m in s.recs.cleaning
    case Dispatch(f, req) =>
      s.ioctl.Idle? && s.hw.queue && (f.Some? ==> f.value in s.own.files)
    case Step(e) => !s.ioctl.Idle? && (IoctlWaits(s.ioctl) ==> s.arc == Free)
    // The framework runs one power callback at a time, and purges the queue
    // before it releases the hardware.
    case Begin(cb) => s.power.PowerIdle? && s.hw.queue && (cb.ReleaseHardware? ==> s.ioctl.Idle?)
    case Prepare(_, _, _, bytes, at) => s.power.PowerIdle? && !s.hw.queue && 0 <= bytes && 0 <= at
    case PowerStep(e) => !s.power.PowerIdle? && (PowerWaits(s.power) ==> s.arc == Free)
  }

  function IoctlStep(s: State, e: Env): State {
    match s.ioctl
    case Idle => s
    case Reset(r, f) => ResetStep(s, r, f, e)
    case Post(p) => PostStep(s, p, e)
    case Window(w, h) => WindowStep(s, w, h, e)
    case Sect(sec) => SectStep(s, sec, e)
  }

  function PowerStepped(s: State, e: Env): State {
    match s.power
    case PowerIdle => s
    case PowerSect(sec) => PowerSectStep(s, sec, e)
    case Releasing(x) => ReleaseStep(s, x, e)
  }

  function Next(s: State, a: Action): State
    requires Enabled(s, a)
  {
    match a
    case Fire => s.(chip := s.chip.(onBus := false, pending := false))
    case Return(cfg) => s.(chip := s.chip.(onBus := true, cfg := cfg))
    case Open(h) => s.(own := s.own.(files := s.own.files[h := s.own.gen]))
    case Cleanup(h) => CleanedUp(s, h)
    case UnmapView(m) => s.(recs := Destroyed(s.recs, m).(cleaning := s.recs.cleaning - {m}))
    case Dispatch(f, req) => Dispatched(s, f, req)
    case Step(e) => IoctlStep(s, e)
    case Begin(cb) => Begun(s, cb)
    case Prepare(bar2, nocId, aperture, bytes, at) => Prepared(s, bar2, nocId, aperture, bytes, at)
    case PowerStep(e) => PowerStepped(s, e)
  }

  // The device context as EvtDeviceAdd leaves it, with the chip on the bus.
  ghost predicate Init(s: State) {
    && s.board.vendorId != 0xFFFF && s.board.writable[COMMAND] && !s.board.writable[0]
    && s.chip.onBus && !s.chip.pending && Vendor(s.chip.cfg) == s.board.vendorId
    && s.hw == Hardware(false, false, false, false, false, false, false)
    && !s.restricted && !s.save.valid
    && !s.sys.live && s.sys.size == 0 && s.sys.phys == 0 && !s.sys.verified
    && s.own == Owners(0, map[], {}, Reclaimed())
    && s.recs == Records({}, {}, {}, 0, multiset{}, {})
    && s.polls == Polls(0, false, [])
    && s.arc == Free && s.ioctl == Idle && s.power == PowerIdle
  }
}
