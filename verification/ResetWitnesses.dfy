// Concrete runs behind the exact conditions of the reset theorems: what goes
// wrong when they are not met.
module ResetWitnesses {
  import opened Prelude
  import opened ConfigSpace
  import opened WindowPool
  import opened Iatu
  import opened Machine
  import opened Invariant
  import opened ResetTheorems

  // Everything succeeds, nothing repeats.
  const YES: Env := Env(true, true, false, false, 0, 0, Some(2), None)

  function Defaults(): Image { seq(DWORDS, i => 0) }

  function Fresh(): State {
    State(Board(0, seq(DWORDS, i => i == COMMAND)), Chip(true, false, Defaults()),
          Hardware(false, false, false, false, false, false, false), false, Save(Defaults(), false, Defaults()),
          Sysmem(false, 0, 0, false, 0, Region(0, 0, 0, false)), Owners(0, map[], {}, Reclaimed()),
          Records({}, {}, {}, 0, multiset{}, {}), Polls(0, false, []), Free, Idle, PowerIdle)
  }

  lemma FreshIsInitial()
    ensures Init(Fresh())
  {
  }

  // A handle whose ioctls reach their handlers, on a started device.
  predicate Ready(s: State, h: Handle) {
    && s.ioctl == Idle && s.arc == Free && s.hw.queue && s.hw.started
    && h in s.own.files && h !in s.own.closed && s.own.files[h] == s.own.gen
  }

  predicate Answers(s: State) { s.chip.onBus && Vendor(s.chip.cfg) == s.board.vendorId }

  // RESET_DEVICE of handle h up to its marker write ...
  lemma MarkRun(o: State, s: State, h: Handle) returns (t: State)
    requires Leads(o, s) && Ready(s, h) && Answers(s) && s.recs.listed == {}
    requires s.restricted ==> s.save.valid
    ensures Leads(o, t) && t.ioctl == Reset(RMarkWrite(Low(s.chip.cfg[COMMAND])), Some(h)) && t.arc == ByIoctl
    ensures t.recs == s.recs && t.own == s.own && t.hw == s.hw && t.chip == s.chip && t.board == s.board
    ensures t.restricted == s.restricted && t.save.valid
    ensures !s.restricted ==> t.save == Save(s.chip.cfg, true, s.chip.cfg) && t.polls == Polls(1, false, [])
    ensures s.restricted ==> t.save == s.save && t.polls.log == s.polls.log
  {
    hide Leads;
    t := Extend(o, s, Dispatch(Some(h), ResetDevice));
    t := Extend(o, t, Step(YES));
    t := Extend(o, t, Step(YES));
    t := Extend(o, t, Step(YES));
    assert t.ioctl == Reset(RSave, Some(h));
    t := Extend(o, t, Step(YES));
    t := Extend(o, t, Step(YES));
  }

  // ... over the generation fence ...
  lemma FenceRun(o: State, s: State, h: Handle) returns (t: State)
    requires Leads(o, s) && s.ioctl == Reset(RBump, Some(h))
    ensures Leads(o, t) && t.ioctl == Reset(RRestrict, Some(h))
    ensures t.recs == s.recs && t.chip == s.chip && t.hw == s.hw && t.board == s.board && t.save == s.save
    ensures t.polls == s.polls
    ensures h in t.own.files && t.own.files[h] == t.own.gen && t.own.closed == s.own.closed
  {
    hide Leads;
    t := Extend(o, s, Step(YES));
    t := Extend(o, t, Step(YES));
    t := Extend(o, t, Step(YES));
  }

  // ... and to its end, the timer armed.
  lemma TriggerRun(o: State, s: State, h: Handle) returns (t: State)
    requires Leads(o, s) && s.ioctl == Reset(RRestrict, Some(h)) && s.chip.onBus
    ensures Leads(o, t) && t.ioctl == Idle && t.arc == Free && t.restricted
    ensures t.chip == s.chip.(pending := true)
    ensures t.recs == s.recs && t.own == s.own && t.hw == s.hw && t.board == s.board && t.save == s.save
    ensures t.polls == s.polls
  {
    hide Leads;
    t := RestrictRun(o, s, h);
    t := Extend(o, t, Step(YES));
    t := Extend(o, t, Step(YES));
    t := Extend(o, t, Step(YES));
  }

  lemma RestrictRun(o: State, s: State, h: Handle) returns (t: State)
    requires Leads(o, s) && s.ioctl == Reset(RRestrict, Some(h))
    ensures Leads(o, t) && t.ioctl == Reset(RTarget, Some(h)) && t.restricted && t.chip == s.chip
    ensures t.recs == s.recs && t.own == s.own && t.hw == s.hw && t.board == s.board && t.save == s.save
    ensures t.polls == s.polls
  {
    hide Leads;
    t := Extend(o, s, Step(YES));
    t := Extend(o, t, Step(YES));
  }

  // A whole RESET_DEVICE with the chip staying on the bus.
  lemma ArmRun(o: State, s: State, h: Handle) returns (t: State)
    requires Leads(o, s) && Ready(s, h) && Answers(s) && s.recs.listed == {}
    requires s.restricted ==> s.save.valid
    ensures Leads(o, t) && Ready(t, h) && Answers(t) && t.restricted && t.save.valid && t.chip.pending
    ensures t.recs == s.recs && t.hw == s.hw && t.board == s.board
    ensures !s.restricted ==> t.save == Save(s.chip.cfg, true, s.chip.cfg) && t.polls == Polls(1, false, [])
  {
    hide Leads;
    t := MarkRun(o, s, h);
    t := Extend(o, t, Step(YES));
    t := FenceRun(o, t, h);
    t := TriggerRun(o, t, h);
  }

  // Started, and a handle open.
  lemma OpenedRun(o: State, h: Handle) returns (s: State)
    requires o == Fresh() || o == ParitySet()
    ensures Leads(o, s) && Ready(s, h) && Answers(s) && !s.restricted
    ensures s.recs == o.recs && s.own.pool == Reclaimed() && s.own.files.Keys == {h} && s.own.closed == {}
    ensures s.power == PowerIdle
    ensures s.chip == o.chip && s.board == o.board && s.hw.tlbRegs && s.hw.kernelTlb
  {
    hide Leads;
    LeadsHere(o);
    s := Extend(o, o, Prepare(true, true, true, 0, 0));
    s := Extend(o, s, Open(h));
  }

  // MAP_BAR of a handle up to the insertion of its record.
  lemma MapRun(o: State, s: State, h: Handle) returns (t: State)
    requires Leads(o, s) && Ready(s, h) && !s.restricted && s.recs == Fresh().recs
    ensures Leads(o, t) && t.ioctl == Window(MInsert(Mapping(0, h, 7, Mdl, -1)), h)
    ensures t == s.(ioctl := t.ioctl, recs := t.recs) && t.recs.listed == {}
  {
    hide Leads;
    t := Extend(o, s, Dispatch(Some(h), MapBar(7)));
    t := Extend(o, t, Step(YES));
  }

  // Handle 1 holds a BAR mapping, handle 2 is open.
  lemma MappedRun() returns (s: State)
    ensures Leads(Fresh(), s) && Ready(s, 1) && Ready(s, 2) && Answers(s)
    ensures s.recs.listed == {Mapping(0, 1, 7, Mdl, -1)} && s.power == PowerIdle && !s.restricted
  {
    hide Leads;
    var o := Fresh();
    s := OpenedRun(o, 1);
    s := Extend(o, s, Open(2));
    s := MapRun(o, s, 1);
    s := Extend(o, s, Step(YES));
  }

  // A user view of BAR space can survive into the window in which the chip may
  // drop off the bus: RESET_DEVICE tests the list, and cleanup has unlinked the
  // record but not yet unmapped its view.
  lemma ViewSurvivesArm() returns (s: State, m: Mapping)
    ensures Reachable(s) && s.chip.pending && m in Views(s) && m.kind == Mdl
  {
    hide Leads;
    s := MappedRun();
    m := Mapping(0, 1, 7, Mdl, -1);
    s := Extend(Fresh(), s, Cleanup(1));
    assert s.recs.listed == {} && m in s.recs.cleaning;
    s := ArmRun(Fresh(), s, 2);
    FreshIsInitial();
  }

  // Handle 1 has the whole sysmem buffer mapped.
  lemma ArmedSysmemRun() returns (s: State)
    ensures Leads(Fresh(), s) && Ready(s, 1) && s.sys.verified && s.power == PowerIdle && s.recs == Fresh().recs
    ensures s.sys.live && !s.restricted
  {
    hide Leads;
    var o := Fresh();
    LeadsHere(o);
    s := Extend(o, o, Prepare(true, true, true, 0x1000_0000, 0));
    s := Extend(o, s, Open(1));
    s := Extend(o, s, Begin(Resume));
    s := Extend(o, s, PowerStep(YES));
    s := Extend(o, s, PowerStep(YES));
    s := Extend(o, s, PowerStep(YES));
    s := Extend(o, s, PowerStep(YES));
    assert s.power == PowerSect(Acquire(Arm)) && Ready(s, 1) && s.sys.size == 0x1000_0000;
    s := ArmSectionRun(o, s);
  }

  lemma ArmSectionRun(o: State, s: State) returns (t: State)
    requires Leads(o, s) && s.power == PowerSect(Acquire(Arm)) && s.arc == Free
    requires ArmPasses(s) && s.sys.size <= MAX_REGION_SIZE
    ensures Leads(o, t) && t.power == PowerIdle && t.arc == Free && t.sys.verified && t.sys.live
    ensures t.recs == s.recs && t.own == s.own && t.ioctl == s.ioctl && t.hw == s.hw && t.restricted == s.restricted
  {
    hide Leads;
    t := Extend(o, s, PowerStep(YES));
    t := Extend(o, t, PowerStep(YES));
    t := Extend(o, t, PowerStep(YES));
    t := Extend(o, t, PowerStep(YES));
    t := Extend(o, t, PowerStep(YES));
    t := Extend(o, t, PowerStep(YES));
    t := Extend(o, t, PowerStep(YES));
    t := Extend(o, t, PowerStep(YES));
  }

  // ReleaseHardware can free the sysmem buffer while a user still has it
  // mapped: cleanup has unlinked the record, revocation finds the list empty,
  // and the view is not yet unmapped.
  lemma ViewSurvivesFree() returns (s: State, m: Mapping)
    ensures Reachable(s) && s.power == Releasing(XFree) && s.sys.live
    ensures m in Views(s) && m.kind == Section
  {
    hide Leads;
    var o := Fresh();
    s := ArmedSysmemRun();
    s := Extend(o, s, Dispatch(Some(1), MapSysmem(7)));
    s := Extend(o, s, Step(YES));
    s := Extend(o, s, Step(YES));
    s := Extend(o, s, Step(YES));
    m := Mapping(0, 1, 7, Section, -1);
    assert s.recs.listed == {m} && s.ioctl == Idle;
    s := Extend(o, s, Cleanup(1));
    assert m in s.recs.cleaning && s.recs.revoking == {} && s.recs.listed == {};
    s := ReleaseRun(o, s);
    FreshIsInitial();
  }

  lemma ReleaseRun(o: State, s: State) returns (t: State)
    requires Leads(o, s) && s.power == PowerIdle && s.ioctl == Idle && s.arc == Free && s.hw.queue
    requires s.recs.listed == s.recs.revoking == {}
    ensures Leads(o, t) && t.power == Releasing(XFree) && t.recs == s.recs && t.sys.live == s.sys.live
  {
    hide Leads;
    t := Extend(o, s, Begin(ReleaseHardware));
    t := Extend(o, t, PowerStep(YES));
    t := Extend(o, t, PowerStep(YES));
    t := Extend(o, t, PowerStep(YES));
    t := Extend(o, t, PowerStep(YES));
    t := Extend(o, t, PowerStep(YES));
  }

  // Why a chip that drops under RESET_DEVICE must not come back before the
  // handler ends. A re-arm reaches its marker write as the earlier timer
  // fires; were the chip back before the arm writes, they would land in a chip
  // whose marker is clear, and POST_RESET would pass its marker test with that
  // timer pending.
  lemma EarlyReturnBreaksMarkerTest() returns (s: State, t: State)
    ensures Reachable(s) && PastMarker(s.ioctl) && !s.chip.onBus
    ensures Leads(s.(chip := Chip(true, false, Defaults())), t)
    ensures Restoring(t.ioctl) && t.chip.pending
  {
    hide Leads;
    var o := Fresh();
    s := OpenedRun(o, 2);
    s := ArmRun(o, s, 2);
    s := MarkRun(o, s, 2);
    s := Extend(o, s, Fire);
    s := Extend(o, s, Step(YES));
    FreshIsInitial();
    var u := s.(chip := Chip(true, false, Defaults()));
    LeadsHere(u);
    t := FenceRun(u, u, 2);
    t := TriggerRun(u, t, 2);
    t := RecoverRun(u, t, 2);
  }

  lemma RecoverRun(o: State, s: State, h: Handle) returns (t: State)
    requires Leads(o, s) && Ready(s, h) && Answers(s) && s.restricted && !Marker(s.chip.cfg)
    requires s.hw.tlbRegs && s.hw.kernelTlb && s.save.valid
    ensures Leads(o, t) && t.ioctl == Post(PRestore(0, true)) && t.chip == s.chip
    ensures t.restricted && t.save == s.save && t.polls == s.polls && t.board == s.board && t.arc == ByIoctl
  {
    hide Leads;
    t := Extend(o, s, Dispatch(Some(h), PostReset));
    t := Extend(o, t, Step(YES));
    t := Extend(o, t, Step(YES));
    t := Extend(o, t, Step(YES));
    t := Extend(o, t, Step(YES));
  }

  // --------------------------------------------------- recoveries that stick

  const NO: Env := Env(false, true, false, false, 0, 0, None, None)

  // The parity bit of COMMAND is set from the start, as a bus driver may have
  // left it.
  function ParitySet(): State {
    Fresh().(chip := Chip(true, false, Defaults()[COMMAND := PARITY]))
  }

  // Armed once, gone, back at its defaults, and past POST_RESET's marker test.
  lemma BackRun() returns (o: State, s: State)
    ensures Init(o) && Leads(o, s) && s.ioctl == Post(PRestore(0, true)) && s.restricted
    ensures s.chip == Chip(true, false, Defaults()) && s.board == Fresh().board && s.polls == Polls(1, false, [])
    ensures s.save.image == s.save.orig == Defaults()[COMMAND := PARITY]
  {
    hide Leads;
    o := ParitySet();
    s := OpenedRun(o, 2);
    s := ArmRun(o, s, 2);
    s := Extend(o, s, Fire);
    s := Extend(o, s, Return(Defaults()));
    s := RecoverRun(o, s, 2);
  }

  // The restore up to COMMAND, all writes full, on a board that lets software
  // write nothing else.
  lemma {:induction false} RestoreRun(o: State, s: State, i: nat) returns (t: State)
    requires Leads(o, s) && s.ioctl == Post(PRestore(0, true)) && i <= DWORDS
    requires s.board == Fresh().board
    ensures Leads(o, t) && t == s.(ioctl := Post(PRestore(i, true)))
  {
    hide Leads;
    if i == 0 {
      t := s;
    } else {
      t := RestoreRun(o, s, i - 1);
      t := RestoreStepRun(o, t, i - 1);
    }
  }

  lemma RestoreStepRun(o: State, s: State, i: nat) returns (t: State)
    requires Leads(o, s) && s.ioctl == Post(PRestore(i, true)) && i < DWORDS && s.board == Fresh().board
    ensures Leads(o, t) && t == s.(ioctl := Post(PRestore(i + 1, true)))
  {
    hide Leads;
    t := Extend(o, s, Step(YES));
  }

  // The write of COMMAND lands but is reported short: DATA_ERROR, and stuck,
  // with no gate ever tried.
  lemma StuckByRestore() returns (s: State)
    ensures Reachable(s) && Stuck(s) && s.ioctl == Idle && s.polls.log == [DeviceDataError]
  {
    hide Leads;
    var o;
    o, s := BackRun();
    s := RestoreRun(o, s, DWORDS);
    s := Extend(o, s, Step(NO));
    s := Extend(o, s, Step(YES));
  }

  // The gate up to its last read.
  lemma GateRun(o: State, s: State) returns (t: State)
    requires Leads(o, s) && s.ioctl == Post(PGate(0, true))
    ensures Leads(o, t) && t == s.(ioctl := Post(PGate(5, true)))
  {
    hide Leads;
    t := Extend(o, s, Step(YES));
    t := Extend(o, t, Step(YES));
    t := Extend(o, t, Step(YES));
    t := Extend(o, t, Step(YES));
    t := Extend(o, t, Step(YES));
  }

  // All is restored, and the gate fails: IO_DEVICE_ERROR, and stuck.
  lemma StuckByGate() returns (s: State)
    ensures Reachable(s) && Stuck(s) && s.ioctl == Idle && s.polls.log == [IoDeviceError]
  {
    hide Leads;
    var o;
    o, s := BackRun();
    s := RestoreRun(o, s, DWORDS);
    s := Extend(o, s, Step(YES));
    s := Extend(o, s, Step(YES));
    s := GateRun(o, s);
    s := Extend(o, s, Step(NO));
    s := Extend(o, s, Step(YES));
  }

  // With the parity bit clear from the start and no POST_RESET ever issued: the
  // chip has reset and come back, and a second RESET_DEVICE is refused by its
  // marker write, which lands but is reported short. Stuck.
  lemma StuckByRearm() returns (s: State)
    ensures Reachable(s) && Stuck(s) && s.ioctl == Idle && s.polls.log == [] && !Marker(s.save.orig)
  {
    hide Leads;
    var o := Fresh();
    s := OpenedRun(o, 2);
    s := ArmRun(o, s, 2);
    s := Extend(o, s, Fire);
    s := Extend(o, s, Return(Defaults()));
    s := RefusedRun(o, s, 2);
    FreshIsInitial();
  }

  // RESET_DEVICE refused by a marker write that lands but is reported short.
  lemma RefusedRun(o: State, s: State, h: Handle) returns (t: State)
    requires Leads(o, s) && Ready(s, h) && Answers(s) && s.recs.listed == {}
    requires s.restricted ==> s.save.valid
    ensures Leads(o, t) && Ready(t, h) && Answers(t) && t.recs.listed == {}
    ensures t.chip == s.chip.(cfg := WithMarker(s.chip.cfg)) && t.restricted == s.restricted
    ensures t.save == (if s.restricted then s.save else Save(s.chip.cfg, true, s.chip.cfg))
    ensures s.restricted ==> t.polls.log == s.polls.log
  {
    hide Leads;
    t := MarkRun(o, s, h);
    t := Extend(o, t, Step(NO));
    t := Extend(o, t, Step(YES));
  }

  // A refused arm can leave the marker set in an unrestricted device; the next
  // arm then saves it as the original, parity having been clear before both.
  lemma MarkerSavedAsOriginal() returns (s: State, t: State)
    ensures Reachable(s) && s.ioctl == Idle && !s.restricted && Marker(s.chip.cfg) && !Marker(s.save.orig)
    ensures Reachable(t) && t.ioctl == Idle && t.restricted && Marker(t.save.orig) && t.polls.log == []
  {
    hide Leads;
    s := OpenedRun(Fresh(), 2);
    assert !Marker(s.chip.cfg);
    FreshIsInitial();
    s, t := RefusedThenArmed(Fresh(), s, 2);
  }

  lemma RefusedThenArmed(o: State, s: State, h: Handle) returns (t: State, u: State)
    requires Init(o) && Leads(o, s) && Ready(s, h) && Answers(s) && s.recs.listed == {}
    requires !s.restricted && !Marker(s.chip.cfg)
    ensures Reachable(t) && t.ioctl == Idle && !t.restricted && Marker(t.chip.cfg) && !Marker(t.save.orig)
    ensures Reachable(u) && u.ioctl == Idle && u.restricted && Marker(u.save.orig) && u.polls.log == []
  {
    hide Leads, Init, Marker, WithMarker;
    t := RefusedRun(o, s, h);
    u := ArmRun(o, t, h);
  }

  // ------------------------------------------ cleanup under the handle's ioctl

  // MAP_BAR inserts its record after the cleanup of its handle: a mapping
  // outlives the handle and keeps every RESET_DEVICE out.
  lemma MappingOutlivesHandle() returns (s: State, m: Mapping)
    ensures Reachable(s) && s.ioctl == Idle && 1 in s.own.closed && m in s.recs.listed && m.file == 1
  {
    hide Leads;
    var o := Fresh();
    s := OpenedRun(o, 1);
    s := MapRun(o, s, 1);
    s := Extend(o, s, Cleanup(1));
    s := Extend(o, s, Step(YES));
    m := Mapping(0, 1, 7, Mdl, -1);
    FreshIsInitial();
  }

  // ALLOCATE_TLB takes its window after the cleanup of its handle.
  lemma WindowOutlivesHandle() returns (s: State)
    ensures Reachable(s) && s.ioctl == Idle && 1 in s.own.closed && Owns(s.own.pool, 1, 0)
  {
    hide Leads;
    var o := Fresh();
    s := OpenedRun(o, 1);
    s := Extend(o, s, Dispatch(Some(1), AllocateTlb));
    s := Extend(o, s, Cleanup(1));
    s := Extend(o, s, Step(YES));
    FreshIsInitial();
  }
}
