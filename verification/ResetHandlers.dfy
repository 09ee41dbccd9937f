// RESET_DEVICE and POST_RESET as the driver runs them, statement by statement
// over the fields of the device context, with everything else free to run
// before each access. What they leave is what the transition system comes to
// with the same activity and the same outcomes, so what holds of its runs holds
// of the handlers.
module ResetHandlers {
  import opened Prelude
  import opened ConfigSpace
  import opened WindowPool
  import opened Machine
  import opened ResetTheorems
  import opened DispatchTheorems
  import opened HandlerRuns

  class Device {
    const board: Board
    var chip: Chip
    var hw: Hardware
    var needsHwInit: bool
    var save: Save
    var sys: Sysmem
    var own: Owners
    var recs: Records
    var polls: Polls
    var arcLock: Lock
    var power: Power
    var at: Ioctl                 // where the handler stands
    ghost var written: seq<nat>   // dwords of config space restored so far, in order

    function Now(): State
      reads this
    {
      State(board, chip, hw, needsHwInit, save, sys, own, recs, polls, arcLock, at, power)
    }

    constructor (s: State)
      ensures Now() == s
    {
      board, chip, hw, needsHwInit, save, sys := s.board, s.chip, s.hw, s.restricted, s.save, s.sys;
      own, recs, polls, arcLock, power, at := s.own, s.recs, s.polls, s.arc, s.power, s.ioctl;
    }

    method Become(s: State)
      requires s.board == board
      modifies this
      ensures Now() == s && written == old(written)
    {
      chip, hw, needsHwInit, save, sys := s.chip, s.hw, s.restricted, s.save, s.sys;
      own, recs, polls, arcLock, power, at := s.own, s.recs, s.polls, s.arc, s.power, s.ioctl;
    }

    method Elapse(acts: seq<Action>)
      requires Reachable(Now())
      modifies this
      ensures Reachable(Now()) && Now() == Elapsed(old(Now()), acts) && OthersOnly(old(Now()), Now())
      ensures written == old(written) && (acts == [] ==> Now() == old(Now()))
    {
      hide Reachable, OthersOnly, Next, Enabled;
      ghost var s := Now();
      ElapsedNone(s, acts);
      for i := 0 to |acts|
        invariant Now() == Elapsed(s, acts[..i]) && written == old(written)
      {
        ElapsedNext(s, acts, i);
        if IsOther(acts[i]) && Enabled(Now(), acts[i]) {
          BoardStays(Now(), acts[i]);
          Become(Next(Now(), acts[i]));
        }
      }
      assert acts[..|acts|] == acts;
      ElapsedKeeps(s, acts);
    }

    // One access of the handler was made, and the rest is what it was.
    twostate predicate Took(w: World)
      reads this
    {
      Handling(old(at)) && Now() == Stepped(old(Now()), w) && OnCourse(w)
    }

    // What the handler comes to is what it came to before.
    twostate predicate OnCourse(w: World)
      reads this
    {
      Served(Now(), w) == Served(old(Now()), w)
    }

    // The chip is there and no timer of it armed.
    ghost predicate Up()
      reads this
    {
      chip.onBus && !chip.pending
    }

    // Nobody else changes the chip: it is up, or nobody else acts.
    ghost predicate Steady(w: World)
      reads this
    {
      Up() || Alone(w)
    }

    twostate predicate ChipStays(w: World)
      reads this
    {
      old(Steady(w)) ==> chip == old(chip)
    }

    // ------------------------------------------------------------ dispatch

    // A request is refused for a stale handle before anything else, then for
    // the restricted state; a refusal touches nothing. An admitted one changes
    // nothing but where the ioctl thread stands: at the beginning of its own
    // work, which while restricted cannot reach hardware.
    method Admit(f: Option<Handle>, req: Request) returns (refused: Option<Status>)
      requires Reachable(Now()) && Enabled(Now(), Dispatch(f, req))
      modifies this
      ensures Reachable(Now()) && Now() == Next(old(Now()), Dispatch(f, req))
      ensures refused == Some(DeviceRemoved) <==> f.Some? && own.files[f.value] < own.gen
      ensures refused == Some(ReinitializationNeeded) <==>
                && refused != Some(DeviceRemoved) && needsHwInit
                && !(req.GetDeviceInfo? || req.QuerySysmem? || req.ResetDevice? || req.PostReset?)
      ensures refused in {None, Some(DeviceRemoved), Some(ReinitializationNeeded)}
      ensures Now() == old(Now()).(ioctl := at) && (if refused.Some? then at == old(at) else At(at, f, req))
      ensures refused == None && hw.started ==>
                && (req.ResetDevice? ==> at == Reset(RCheck, f)) && (req.PostReset? ==> at == Post(PLock))
      ensures refused == None && req.SmcMsg? ==> at == Sect(Critical.Acquire(Exchange(0, false)))
      ensures refused == None && f.Some? && req.ConfigureTlb? ==> at == Window(TCheck(req.id), f.value)
      ensures refused == None && f.Some? && req.FreeTlb? ==> at == Window(TFree(req.id), f.value)
      ensures needsHwInit ==> at.Idle? || at.Reset? || at == Post(PLock)
    {
      hide Reachable, At;
      ghost var b := Now();
      Admissible(b, f);
      AdmittedAt(b, f, req);
      OneMore(b, Dispatch(f, req));
      refused := None;
      if f.Some? && own.files[f.value] != own.gen {
        refused := Some(DeviceRemoved);
      } else if needsHwInit && !req.GetDeviceInfo? && !req.QuerySysmem? && !req.ResetDevice? && !req.PostReset? {
        refused := Some(ReinitializationNeeded);
      } else {
        at := Handler(Now(), f, req);
      }
    }

    // ------------------------------------------------------- RESET_DEVICE

    // One critical section under StateLock.
    method CheckMappings(f: Option<Handle>, w: World) returns (busy: bool)
      requires Reachable(Now()) && at == Reset(RCheck, f)
      modifies this
      ensures Reachable(Now()) && Took(w) && Kept(old(Now()), Now()) && ChipStays(w)
      ensures at == if busy then Idle else Reset(RLock, f)
      ensures busy <==> Elapsed(old(Now()), w.others(0)).recs.listed != {}
      ensures Now() == Elapsed(old(Now()), w.others(0)).(ioctl := at)
    {
      hide Reachable, Served, Stepped, Elapsed;
      ghost var s := Now();
      Elapse(w.others(0));
      ghost var m := Now();
      busy := recs.listed != {};
      at := if busy then Idle else Reset(RLock, f);
      RanReset(s, m, Now(), RCheck, f, w);
    }

    method AcquireArc(f: Option<Handle>, w: World) returns (acquired: bool)
      requires Reachable(Now()) && at == Reset(RLock, f)
      modifies this
      ensures Reachable(Now()) && Kept(old(Now()), Now()) && ChipStays(w)
      ensures acquired <==> Elapsed(old(Now()), w.others(1)).arc == Free
      ensures if acquired then Took(w) && at == Reset(RProbe, f)
              else Now() == Served(old(Now()), w) && at == Reset(RLock, f)
    {
      hide Reachable;
      ghost var s := Now();
      Elapse(w.others(1));
      ghost var m := Now();
      if arcLock != Free {
        return false;
      }
      arcLock, at := ByIoctl, Reset(RProbe, f);
      RanReset(s, m, Now(), RLock, f, w);
      return true;
    }

    // The live vendor ID.
    method Probe(f: Option<Handle>, w: World) returns (present: bool)
      requires Reachable(Now()) && at == Reset(RProbe, f)
      modifies this
      ensures Reachable(Now()) && Took(w) && Kept(old(Now()), Now()) && ChipStays(w)
      ensures at == Reset(if present then RSave else RUnlock, f)
      ensures old(Steady(w)) ==> (present <==> chip.onBus && w.env(2).ok)
    {
      hide Reachable, Served, Stepped, Elapsed;
      ghost var s := Now();
      Elapse(w.others(2));
      ghost var m := Now();
      var e := w.env(2);
      present := e.ok && Vendor(ConfigRead(chip)) == board.vendorId;
      AnswersIff(m);
      if present {
        polls := if needsHwInit then polls.(arms := polls.arms + 1) else Polls(1, false, []);
      }
      at := Reset(if present then RSave else RUnlock, f);
      RanReset(s, m, Now(), RProbe, f, w);
    }

    // The save of config space, skipped on a re-arm.
    method SaveConfig(f: Option<Handle>, w: World) returns (status: Status)
      requires Reachable(Now()) && at == Reset(RSave, f)
      modifies this
      ensures Reachable(Now()) && Took(w) && ChipStays(w)
      ensures needsHwInit == old(needsHwInit) && StandingKept(old(Now()), Now())
      ensures at == Reset(if status == Success then RMarkRead else RUnlock, f)
      ensures status == if needsHwInit || w.env(3).ok then Success else DeviceDataError
      ensures needsHwInit ==> save == old(save)
      ensures !needsHwInit && status == Success && old(Steady(w)) && chip.onBus ==>
                save == Save(chip.cfg, true, chip.cfg)
    {
      hide Reachable, Served, Stepped, Elapsed;
      ghost var s := Now();
      Elapse(w.others(3));
      ghost var m := Now();
      var e := w.env(3);
      status := Success;
      if !needsHwInit {
        var got := ConfigRead(chip);
        if e.ok {
          save := Save(got, true, got);
        } else {
          save := save.(image := ShortRead(save.image, got, e.prefix));
          status := DeviceDataError;
        }
      }
      at := Reset(if status == Success then RMarkRead else RUnlock, f);
      RanReset(s, m, Now(), RSave, f, w);
    }

    // Set the marker on the live COMMAND register.
    method Mark(f: Option<Handle>, w: World) returns (status: Status)
      requires Reachable(Now()) && at == Reset(RMarkRead, f)
      modifies this
      ensures Reachable(Now()) && OnCourse(w) && Kept(old(Now()), Now())
      ensures at == Reset(if status == Success then RBump else RUnlock, f)
      ensures status == if w.env(4).ok && w.env(5).ok then Success else DeviceDataError
      ensures old(Steady(w) && chip.onBus) ==>
                chip == if MarkerLands(w) then old(chip).(cfg := WithMarker(old(chip.cfg))) else old(chip)
    {
      hide Reachable, Served, Stepped, Elapsed;
      var command := ReadCommand(f, w);
      if command.None? {
        return DeviceDataError;
      }
      status := WriteMarker(command.value, f, w);
    }

    method ReadCommand(f: Option<Handle>, w: World) returns (command: Option<u16>)
      requires Reachable(Now()) && at == Reset(RMarkRead, f)
      modifies this
      ensures Reachable(Now()) && Took(w) && Kept(old(Now()), Now()) && ChipStays(w)
      ensures command.Some? <==> w.env(4).ok
      ensures at == Reset(if command.Some? then RMarkWrite(command.value) else RUnlock, f)
      ensures command.Some? && old(Steady(w)) && chip.onBus ==> command.value == Low(chip.cfg[COMMAND])
    {
      hide Reachable, Served, Stepped, Elapsed;
      ghost var s := Now();
      Elapse(w.others(4));
      ghost var m := Now();
      command := if w.env(4).ok then Some(Low(ConfigRead(chip)[COMMAND])) else None;
      at := Reset(if command.Some? then RMarkWrite(command.value) else RUnlock, f);
      RanReset(s, m, Now(), RMarkRead, f, w);
    }

    method WriteMarker(command: u16, f: Option<Handle>, w: World) returns (status: Status)
      requires Reachable(Now()) && at == Reset(RMarkWrite(command), f)
      modifies this
      ensures Reachable(Now()) && Took(w) && Kept(old(Now()), Now())
      ensures at == Reset(if status == Success then RBump else RUnlock, f)
      ensures status == if w.env(5).ok then Success else DeviceDataError
      ensures old(Steady(w) && chip.onBus && command == Low(chip.cfg[COMMAND])) ==>
                chip == if w.env(5).ok || w.env(5).lands then old(chip).(cfg := WithMarker(old(chip.cfg)))
                        else old(chip)
    {
      hide Reachable, Served, Stepped, Elapsed;
      ghost var s := Now();
      Elapse(w.others(5));
      ghost var m := Now();
      var e := w.env(5);
      chip := Marked(chip, command, e);
      at := Reset(if e.ok then RBump else RUnlock, f);
      RanReset(s, m, Now(), RMarkWrite(command), f, w);
      status := if e.ok then Success else DeviceDataError;
    }

    // Make every handle stale ...
    method Bump(f: Option<Handle>, w: World)
      requires Reachable(Now()) && at == Reset(RBump, f)
      modifies this
      ensures Reachable(Now()) && Took(w) && at == Reset(RReclaim, f) && ChipStays(w)
      ensures needsHwInit == old(needsHwInit) && save == old(save)
      ensures own.gen == old(own.gen) + 1 && FilesKept(old(own.files), own.files)
    {
      hide Reachable, Served, Stepped, Elapsed;
      ghost var s := Now();
      Elapse(w.others(6));
      ghost var m := Now();
      own := own.(gen := own.gen + 1);
      at := Reset(RReclaim, f);
      RanReset(s, m, Now(), RBump, f, w);
    }

    // ... take every window back ...
    method Reclaim(f: Option<Handle>, w: World)
      requires Reachable(Now()) && at == Reset(RReclaim, f)
      modifies this
      ensures Reachable(Now()) && Took(w) && Kept(old(Now()), Now()) && at == Reset(RCarry, f) && ChipStays(w)
    {
      hide Reachable, Served, Stepped, Elapsed;
      ghost var s := Now();
      Elapse(w.others(7));
      ghost var m := Now();
      own := own.(pool := Reclaimed());
      at := Reset(RCarry, f);
      RanReset(s, m, Now(), RReclaim, f, w);
    }

    // ... and carry the arming handle over the new generation.
    method Carry(f: Option<Handle>, w: World)
      requires Reachable(Now()) && at == Reset(RCarry, f)
      modifies this
      ensures Reachable(Now()) && Took(w) && at == Reset(RRestrict, f) && ChipStays(w)
      ensures needsHwInit == old(needsHwInit) && save == old(save) && own.gen == old(own.gen)
      ensures f.Some? ==> f.value in own.files && own.files[f.value] == own.gen
      ensures forall h :: h in old(own.files) && Some(h) != f ==>
                h in own.files && own.files[h] == old(own.files)[h]
    {
      hide Reachable, Served, Stepped, Elapsed;
      ghost var s := Now();
      Elapse(w.others(8));
      ghost var m := Now();
      if f.Some? {
        own := own.(files := own.files[f.value := own.gen]);
      }
      at := Reset(RRestrict, f);
      RanReset(s, m, Now(), RCarry, f, w);
    }

    // No MMIO from here on.
    method Restrict(f: Option<Handle>, w: World)
      requires Reachable(Now()) && at == Reset(RRestrict, f)
      modifies this
      ensures Reachable(Now()) && Took(w) && at == Reset(RDarken, f) && ChipStays(w)
      ensures needsHwInit && save == old(save) && StandingKept(old(Now()), Now())
    {
      hide Reachable, Served, Stepped, Elapsed;
      ghost var s := Now();
      Elapse(w.others(9));
      ghost var m := Now();
      needsHwInit := true;
      at := Reset(RDarken, f);
      RanReset(s, m, Now(), RRestrict, f, w);
    }

    method Darken(f: Option<Handle>, w: World)
      requires Reachable(Now()) && at == Reset(RDarken, f)
      modifies this
      ensures Reachable(Now()) && Took(w) && Kept(old(Now()), Now()) && at == Reset(RTarget, f) && ChipStays(w)
    {
      hide Reachable, Served, Stepped, Elapsed;
      ghost var s := Now();
      Elapse(w.others(10));
      ghost var m := Now();
      sys := sys.(verified := false);
      at := Reset(RTarget, f);
      RanReset(s, m, Now(), RDarken, f, w);
    }

    // The timer registers, written blind.
    method WriteTarget(f: Option<Handle>, w: World)
      requires Reachable(Now()) && at == Reset(RTarget, f)
      modifies this
      ensures Reachable(Now()) && Took(w) && Kept(old(Now()), Now()) && at == Reset(RControl, f) && ChipStays(w)
    {
      hide Reachable, Served, Stepped, Elapsed;
      ghost var s := Now();
      Elapse(w.others(11));
      ghost var m := Now();
      at := Reset(RControl, f);
      RanReset(s, m, Now(), RTarget, f, w);
    }

    method WriteControl(f: Option<Handle>, w: World)
      requires Reachable(Now()) && at == Reset(RControl, f)
      modifies this
      ensures Reachable(Now()) && Took(w) && Kept(old(Now()), Now()) && at == Reset(RUnlock, f)
      ensures w.env(12).lands ==> !Unheard(chip)
      ensures old(Steady(w)) && old(chip.onBus) ==>
                chip == old(chip).(pending := old(chip.pending) || w.env(12).lands)
    {
      hide Reachable, Served, Stepped, Elapsed;
      ghost var s := Now();
      Elapse(w.others(12));
      ghost var m := Now();
      chip := chip.(pending := chip.pending || (chip.onBus && w.env(12).lands));
      at := Reset(RUnlock, f);
      RanReset(s, m, Now(), RControl, f, w);
    }

    method ReleaseArc(f: Option<Handle>, w: World)
      requires Reachable(Now()) && at == Reset(RUnlock, f)
      modifies this
      ensures Reachable(Now()) && Took(w) && Kept(old(Now()), Now()) && at == Idle && ChipStays(w)
      ensures old(!Unheard(chip)) ==> !Unheard(chip)
    {
      hide Reachable, Served, Stepped, Elapsed;
      ghost var s := Now();
      Elapse(w.others(13));
      ghost var m := Now();
      arcLock, at := Free, Idle;
      RanReset(s, m, Now(), RUnlock, f, w);
    }

    // Under ArcLock: triage and marker ...
    method Triage(f: Option<Handle>, w: World) returns (status: Status)
      requires Reachable(Now()) && at == Reset(RProbe, f)
      modifies this
      ensures Reachable(Now()) && OnCourse(w) && at == Reset(if status == Success then RBump else RUnlock, f)
      ensures status in {Success, DeviceDoesNotExist, DeviceDataError}
      ensures needsHwInit == old(needsHwInit) && StandingKept(old(Now()), Now())
      ensures status == DeviceDoesNotExist || needsHwInit ==> save == old(save)
      ensures old(Steady(w)) ==>
                && (status == DeviceDoesNotExist <==> !(old(chip.onBus) && w.env(2).ok))
                && (status == Success <==> old(chip.onBus) && LetsArm(needsHwInit, w))
                && chip == (if old(chip.onBus) && Marks(needsHwInit, w) then
                              old(chip).(cfg := WithMarker(old(chip.cfg)))
                            else old(chip))
                && (status == Success && !needsHwInit ==> save == Save(old(chip.cfg), true, old(chip.cfg)))
    {
      hide Reachable, Served, WithMarker, Elapsed;
      var present := Probe(f, w);
      if !present {
        return DeviceDoesNotExist;
      }
      status := SaveConfig(f, w);
      if status == Success {
        status := Mark(f, w);
      }
    }

    // ... then fence, restriction and trigger.
    method Arm(f: Option<Handle>, w: World)
      requires Reachable(Now()) && at == Reset(RBump, f)
      modifies this
      ensures Reachable(Now()) && OnCourse(w) && at == Reset(RUnlock, f)
      ensures needsHwInit && save == old(save) && own.gen == old(own.gen) + 1
      ensures f.Some? ==> f.value in own.files && own.files[f.value] == own.gen
      ensures forall h :: h in old(own.files) && Some(h) != f ==> h in own.files && own.files[h] == old(own.files)[h]
      ensures w.env(12).lands ==> !Unheard(chip)
      ensures old(Steady(w)) && old(chip.onBus) ==>
                chip == old(chip).(pending := old(chip.pending) || w.env(12).lands)
    {
      hide Reachable, Served, Elapsed;
      Bump(f, w);
      Reclaim(f, w);
      Carry(f, w);
      Restrict(f, w);
      Darken(f, w);
      WriteTarget(f, w);
      WriteControl(f, w);
    }

    // Past the lock: each answer has its cause, and leaves its chip.
    method ArmLocked(f: Option<Handle>, w: World) returns (status: Status)
      requires Reachable(Now()) && at == Reset(RProbe, f)
      modifies this
      ensures Reachable(Now()) && OnCourse(w) && at == Idle
      ensures status in {Success, DeviceDoesNotExist, DeviceDataError}
      ensures if status == Success then needsHwInit && Fenced(old(Now()), Now(), f)
              else needsHwInit == old(needsHwInit) && StandingKept(old(Now()), Now())
      ensures status == DeviceDoesNotExist || old(needsHwInit) ==> save == old(save)
      ensures status == Success && w.env(12).lands ==> !Unheard(chip)
      ensures old(Steady(w)) ==> Caused(old(Now()), Now(), status, w)
    {
      hide Reachable, Served, Elapsed, WithMarker, Number, Stepped, ResetStep;
      ghost var s := Now();
      status := Triage(f, w);
      ghost var m := Now();
      if status == Success {
        Arm(f, w);
        FencedOn(s, m, Now(), f);
      }
      ghost var t := Now();
      ReleaseArc(f, w);
      FencedAnd(s, t, Now(), f);
    }

    // None: still waiting for ArcLock. With the chip up and no timer armed at
    // the start, or nobody else acting, each answer has exactly its cause: BUSY a
    // listed mapping, DOES_NOT_EXIST a device that does not answer, DATA_ERROR a
    // short access of the triage or of the marker write, and Success none of
    // them. A refused arm changes neither the restriction nor any handle's
    // standing, and config by the marker exactly if its marker write lands. A
    // successful arm leaves the device restricted and dark, its config saved, no
    // view listed, no window owned and every handle but the arming one stale, and
    // its timer armed exactly if its last write lands.
    method ResetDevice(f: Option<Handle>, w: World) returns (status: Option<Status>)
      requires Reachable(Now()) && at == Reset(RCheck, f)
      modifies this
      ensures Reachable(Now()) && Now() == Served(old(Now()), w)
      ensures at == if status.Some? then Idle else Reset(RLock, f)
      ensures status in {None, Some(DeviceBusy), Some(DeviceDoesNotExist), Some(DeviceDataError), Some(Success)}
      ensures var m := Elapsed(old(Now()), w.others(0));
              && (status == Some(DeviceBusy) <==> m.recs.listed != {})
              && (status == None <==>
                    m.recs.listed == {} && Elapsed(m.(ioctl := Reset(RLock, f)), w.others(1)).arc != Free)
      ensures status != Some(Success) ==> needsHwInit == old(needsHwInit) && StandingKept(old(Now()), Now())
      ensures status in {None, Some(DeviceBusy), Some(DeviceDoesNotExist)} || old(needsHwInit) ==> save == old(save)
      ensures status in {None, Some(DeviceBusy)} && old(Steady(w)) ==> chip == old(chip)
      ensures status == Some(Success) ==>
                && needsHwInit && Fenced(old(Now()), Now(), f) && save.valid && !sys.verified
                && recs.listed == {} && own.pool == Reclaimed() && (w.env(12).lands ==> !Unheard(chip))
      ensures status !in {None, Some(DeviceBusy)} && old(Steady(w)) ==> Caused(old(Now()), Now(), status.value, w)
      ensures status == Some(Success) && Alone(w) ==> Now() == Armed(old(Now()), f, w)
    {
      hide Reachable, Served, Elapsed, WithMarker, Armed, LetsArm, Marks, Number, Stepped, ResetStep;
      ghost var s := Now();
      var busy := CheckMappings(f, w);
      if busy {
        NoneLeft(Now(), w);
        return Some(DeviceBusy);
      }
      ghost var m := Now();
      var acquired := AcquireArc(f, w);
      if !acquired {
        return None;
      }
      ghost var l := Now();
      var outcome := ArmLocked(f, w);
      FencedOn(s, l, Now(), f);
      NoneLeft(Now(), w);
      if outcome == Success {
        Dark(Now());
        Undisturbed(s, w, 0);
        Undisturbed(m, w, 1);
        AlonesArm(s, f, w);
      }
      return Some(outcome);
    }

    // --------------------------------------------------------- POST_RESET

    method AcquirePost(w: World) returns (acquired: bool)
      requires Reachable(Now()) && at == Post(PLock)
      modifies this
      ensures Reachable(Now()) && Kept(old(Now()), Now()) && ChipStays(w) && polls == old(polls)
      ensures acquired <==> Elapsed(old(Now()), w.others(0)).arc == Free
      ensures if acquired then Took(w) && at == Post(PGuard)
              else Now() == Served(old(Now()), w) && at == Post(PLock)
    {
      hide Reachable;
      ghost var s := Now();
      Elapse(w.others(0));
      ghost var m := Now();
      if arcLock != Free {
        return false;
      }
      arcLock, at := ByIoctl, Post(PGuard);
      RanPost(s, m, Now(), PLock, w);
      return true;
    }

    // Nothing to recover? That there is nothing to recover with cannot be.
    method CheckPending(w: World) returns (answer: Option<Status>)
      requires Reachable(Now()) && at == Post(PGuard)
      modifies this
      ensures Reachable(Now()) && Took(w) && Kept(old(Now()), Now()) && ChipStays(w) && polls == old(polls)
      ensures answer == if needsHwInit then None else Some(Success)
      ensures at == Post(if answer.Some? then PUnlock(answer.value, false) else PProbe)
    {
      hide Reachable, Served, Stepped, Elapsed;
      ghost var s := Now();
      Elapse(w.others(1));
      ghost var m := Now();
      Equipped(m);
      answer := if !needsHwInit then Some(Success)
                else if !hw.tlbRegs || !hw.kernelTlb || !save.valid then Some(DeviceNotReady) else None;
      at := Post(if answer.Some? then PUnlock(answer.value, false) else PProbe);
      RanPost(s, m, Now(), PGuard, w);
    }

    // Is the device back on the bus?
    method CheckPresent(w: World) returns (present: bool)
      requires Reachable(Now()) && at == Post(PProbe)
      modifies this
      ensures Reachable(Now()) && Took(w) && Kept(old(Now()), Now()) && ChipStays(w) && polls.log == old(polls.log)
      ensures at == Post(if present then PMarker else PUnlock(DeviceDoesNotExist, false))
      ensures old(Steady(w)) ==> (present <==> chip.onBus && w.env(2).ok)
    {
      hide Reachable, Served, Stepped, Elapsed;
      ghost var s := Now();
      Elapse(w.others(2));
      ghost var m := Now();
      var e := w.env(2);
      present := e.ok && Vendor(ConfigRead(chip)) == board.vendorId;
      AnswersIff(m);
      if present {
        at := Post(PMarker);
      } else {
        polls := polls.(flaky := polls.flaky || !e.ok);
        at := Post(PUnlock(DeviceDoesNotExist, false));
      }
      RanPost(s, m, Now(), PProbe, w);
    }

    // Has its marker been cleared?
    method CheckMarker(w: World) returns (answer: Option<Status>)
      requires Reachable(Now()) && at == Post(PMarker)
      modifies this
      ensures Reachable(Now()) && Took(w) && Kept(old(Now()), Now()) && ChipStays(w) && polls.log == old(polls.log)
      ensures at == Post(if answer.Some? then PUnlock(answer.value, false) else PRestore(0, true))
      ensures answer in {None, Some(DeviceDoesNotExist), Some(DeviceBusy)}
      ensures answer == Some(DeviceDoesNotExist) <==> !w.env(3).ok
      ensures old(Steady(w) && chip.onBus) ==> (answer == Some(DeviceBusy) <==> w.env(3).ok && Marker(chip.cfg))
    {
      hide Reachable, Served, Stepped, Elapsed;
      ghost var s := Now();
      Elapse(w.others(3));
      ghost var m := Now();
      var e := w.env(3);
      if !e.ok {
        polls := polls.(flaky := true);
        answer := Some(DeviceDoesNotExist);
      } else {
        answer := if Marker(ConfigRead(chip)) then Some(DeviceBusy) else None;
      }
      at := Post(if answer.Some? then PUnlock(answer.value, false) else PRestore(0, true));
      RanPost(s, m, Now(), PMarker, w);
    }

    // One config write of the restore; a short one is remembered.
    method RestoreDword(i: nat, ok: bool, w: World) returns (full: bool)
      requires Reachable(Now()) && at == Post(PRestore(i, ok)) && i < DWORDS
      modifies this
      ensures Reachable(Now()) && Took(w) && Kept(old(Now()), Now()) && polls == old(polls)
      ensures at == Post(PRestore(i + 1, full))
      ensures full <==> ok && (i == COMMAND || FullWrite(w, i))
      ensures written == old(written) + if i == COMMAND then [] else [i]
      ensures old(Up()) ==> chip == if i == COMMAND then old(chip) else Put(old(chip), save.image, i, i, board, w)
    {
      hide Reachable, Served, Put, Stepped, Elapsed;
      ghost var s := Now();
      Elapse(w.others(4 + i));
      ghost var m := Now();
      var e := w.env(4 + i);
      StoredIsPut(m, i, i, w);
      full := ok;
      if i != COMMAND {
        chip := Stored(Now(), i, e);
        written := written + [i];
        full := ok && e.ok;
      }
      at := Post(PRestore(i + 1, full));
      RanPost(s, m, Now(), PRestore(i, ok), w);
    }

    method RestoreCommand(ok: bool, w: World) returns (restored: bool)
      requires Reachable(Now()) && at == Post(PRestore(DWORDS, ok))
      modifies this
      ensures Reachable(Now()) && Took(w) && Kept(old(Now()), Now()) && polls == old(polls)
      ensures at == Post(if restored then PResave else PUnlock(DeviceDataError, false))
      ensures restored <==> ok && FullWrite(w, DWORDS)
      ensures written == old(written) + [COMMAND]
      ensures old(Up()) ==> chip == Put(old(chip), save.image, COMMAND, DWORDS, board, w)
    {
      hide Reachable, Served, Put, Stepped, Elapsed, ShortRead, ConfigRead, Marker, Lands, LandsAt;
      ghost var s := Now();
      Elapse(w.others(4 + DWORDS));
      ghost var m := Now();
      StoredIsPut(m, COMMAND, DWORDS, w);
      var e := w.env(4 + DWORDS);
      chip := Stored(Now(), COMMAND, e);
      written := written + [COMMAND];
      restored := ok && e.ok;
      at := Post(if restored then PResave else PUnlock(DeviceDataError, false));
      RanPost(s, m, Now(), PRestore(DWORDS, ok), w);
    }

    // Every dword is written whatever fails on the way, COMMAND after all the
    // others; only if all writes are full does recovery go on. The dwords whose
    // writes land hold their saved values then, and the others what they held.
    method RestoreConfig(w: World) returns (restored: bool)
      requires Reachable(Now()) && at == Post(PRestore(0, true))
      modifies this
      ensures Reachable(Now()) && OnCourse(w) && Kept(old(Now()), Now()) && polls == old(polls)
      ensures at == Post(if restored then PResave else PUnlock(DeviceDataError, false))
      ensures written == old(written) + OthersBelow(DWORDS) + [COMMAND]
      ensures restored <==> AllFull(w)
      ensures Up() && RestoredInto(old(chip.cfg), chip.cfg, save.image, board.writable, w)
    {
      hide Reachable, Served, Stepped, Elapsed, Number, Put, PartlyInto, RestoredInto, OthersBelow;
      UpThere(Now());
      var ok := RestoreOthers(w);
      ghost var c := chip;
      restored := RestoreCommand(ok, w);
      CommandInto(old(chip.cfg), c, save.image, board, w);
    }

    method RestoreOthers(w: World) returns (ok: bool)
      requires Reachable(Now()) && at == Post(PRestore(0, true)) && Up()
      modifies this
      ensures Reachable(Now()) && OnCourse(w) && Kept(old(Now()), Now()) && polls == old(polls)
      ensures at == Post(PRestore(DWORDS, ok)) && written == old(written) + OthersBelow(DWORDS)
      ensures ok <==> FullBelow(w, DWORDS)
      ensures Up() && PartlyInto(old(chip.cfg), chip.cfg, save.image, board.writable, w, DWORDS)
    {
      hide Reachable, Served, Stepped, Elapsed, Number, Put, PartlyInto, StandingKept, FullBelow;
      CourseHere(w);
      NoneInto(chip.cfg, save.image, board.writable, w);
      NoneFull(w);
      ghost var s := Now();
      KeptOn(s, s, s);
      ok := true;
      for i := 0 to DWORDS
        invariant Reachable(Now()) && OnCourse(w) && Kept(old(Now()), Now()) && polls == old(polls)
        invariant at == Post(PRestore(i, ok)) && written == old(written) + OthersBelow(i)
        invariant ok <==> FullBelow(w, i)
        invariant Up() && PartlyInto(old(chip.cfg), chip.cfg, save.image, board.writable, w, i)
      {
        ghost var c, m := chip, Now();
        ok := RestoreDword(i, ok, w);
        KeptOn(s, m, Now());
        OneFull(w, i);
        OneInto(old(chip.cfg), c, save.image, i, board, w);
      }
    }

    lemma CourseHere(w: World)
      ensures OnCourse(w)
    {
    }

    // Save the restored config again, as far as it can be read.
    method Resave(w: World)
      requires Reachable(Now()) && at == Post(PResave)
      modifies this
      ensures Reachable(Now()) && Took(w) && at == Post(PGate(0, true)) && ChipStays(w) && polls == old(polls)
      ensures needsHwInit == old(needsHwInit) && StandingKept(old(Now()), Now())
      ensures old(Up()) ==>
                save == old(save).(image := if w.env(69).ok then chip.cfg
                                            else ShortRead(old(save.image), chip.cfg, w.env(69).prefix))
      ensures save.orig == old(save.orig)
    {
      hide Reachable, Served, Stepped, Elapsed;
      ghost var s := Now();
      Elapse(w.others(69));
      ghost var m := Now();
      var got := ConfigRead(chip);
      save := save.(image := if w.env(69).ok then got else ShortRead(save.image, got, w.env(69).prefix));
      at := Post(PGate(0, true));
      RanPost(s, m, Now(), PResave, w);
    }

    // A register write or read of the sanity check before its last read.
    method GateAccess(j: nat, ok: bool, w: World) returns (echoes: bool)
      requires Reachable(Now()) && at == Post(PGate(j, ok)) && j < 5
      modifies this
      ensures Reachable(Now()) && Took(w) && Kept(old(Now()), Now()) && ChipStays(w) && polls == old(polls)
      ensures at == Post(PGate(j + 1, echoes)) && (echoes <==> ok && (j < 3 || w.env(70 + j).ok))
    {
      hide Reachable, Served, Stepped, Elapsed;
      ghost var s := Now();
      Elapse(w.others(70 + j));
      ghost var m := Now();
      echoes := ok && (j < 3 || w.env(70 + j).ok);
      at := Post(PGate(j + 1, echoes));
      RanPost(s, m, Now(), PGate(j, ok), w);
    }

    method LastGateAccess(ok: bool, w: World) returns (passed: bool)
      requires Reachable(Now()) && at == Post(PGate(5, ok))
      modifies this
      ensures Reachable(Now()) && Took(w) && Kept(old(Now()), Now()) && ChipStays(w) && polls == old(polls)
      ensures at == Post(if passed then PUnrestrict else PUnlock(IoDeviceError, false))
      ensures passed <==> ok && w.env(75).ok
    {
      hide Reachable, Served, Stepped, Elapsed;
      ghost var s := Now();
      Elapse(w.others(75));
      ghost var m := Now();
      passed := ok && w.env(75).ok;
      at := Post(if passed then PUnrestrict else PUnlock(IoDeviceError, false));
      RanPost(s, m, Now(), PGate(5, ok), w);
    }

    // The sanity check: three register writes and three reads, the first MMIO
    // since the arm; all three reads decide.
    method Gate(w: World) returns (passed: bool)
      requires Reachable(Now()) && at == Post(PGate(0, true))
      modifies this
      ensures Reachable(Now()) && OnCourse(w) && Kept(old(Now()), Now()) && ChipStays(w) && polls == old(polls)
      ensures at == Post(if passed then PUnrestrict else PUnlock(IoDeviceError, false))
      ensures passed <==> Echoes(w)
    {
      hide Reachable, Served, Stepped, Elapsed, Number;
      CourseHere(w);
      var ok := true;
      for j := 0 to 5
        invariant Reachable(Now()) && OnCourse(w) && Kept(old(Now()), Now()) && ChipStays(w) && polls == old(polls)
        invariant at == Post(PGate(j, ok)) && (ok <==> EchoesBelow(w, j))
      {
        ok := GateAccess(j, ok, w);
      }
      passed := LastGateAccess(ok, w);
    }

    method Unrestrict(w: World)
      requires Reachable(Now()) && at == Post(PUnrestrict)
      modifies this
      ensures Reachable(Now()) && Took(w) && at == Post(PUnlock(Success, true)) && polls == old(polls) && ChipStays(w)
      ensures !needsHwInit && StandingKept(old(Now()), Now()) && save == old(save) && Recovered()
    {
      hide Reachable, Served, Stepped, Elapsed;
      ghost var s := Now();
      Elapse(w.others(76));
      ghost var m := Now();
      BackAsBefore(m);
      needsHwInit := false;
      at := Post(PUnlock(Success, true));
      RanPost(s, m, Now(), PUnrestrict, w);
    }

    // Up, no timer armed, and every dword software can write as it was just
    // before the first arm.
    ghost predicate Recovered()
      reads this
    {
      Up() && SameWritable(chip.cfg, save.orig, board.writable)
    }

    method Complete(answer: Status, recovered: bool, w: World)
      requires Reachable(Now()) && at == Post(PUnlock(answer, recovered))
      modifies this
      ensures Reachable(Now()) && Took(w) && Kept(old(Now()), Now()) && ChipStays(w)
      ensures at == if recovered then Sect(Critical.Acquire(Exchange(9, true))) else Idle
      ensures polls.log == old(polls.log) + [answer] && (old(Recovered()) ==> Recovered())
    {
      hide Reachable, Served, Stepped, Elapsed;
      ghost var s := Now();
      Elapse(w.others(77));
      ghost var m := Now();
      arcLock := Free;
      polls := polls.(log := polls.log + [answer]);
      at := if recovered then Sect(Critical.Acquire(Exchange(9, true))) else Idle;
      RanPost(s, m, Now(), PUnlock(answer, recovered), w);
    }

    // From the presence test to the unrestriction: each failure has its own
    // status and leaves the device restricted.
    method Recover(w: World) returns (answer: Status)
      requires Reachable(Now()) && at == Post(PProbe) && needsHwInit
      modifies this
      ensures Reachable(Now()) && OnCourse(w) && at == Post(PUnlock(answer, answer == Success))
      ensures answer in {Success, DeviceDoesNotExist, DeviceBusy, DeviceDataError, IoDeviceError}
      ensures needsHwInit <==> answer != Success
      ensures StandingKept(old(Now()), Now()) && save.orig == old(save.orig) && polls.log == old(polls.log)
      ensures answer in {DeviceDoesNotExist, DeviceBusy, DeviceDataError} ==> save == old(save)
      ensures answer == Success ==> Recovered()
      ensures old(Steady(w)) ==> Steady(w) && Diagnosed(old(Now()), Now(), answer, w)
    {
      hide Reachable, Served, Stepped, Elapsed, Number, Recovered, RestoredInto, AllFull, Echoes, ShortRead, Lands;
      hide LandsAt;
      CourseHere(w);
      var present := CheckPresent(w);
      if !present {
        return DeviceDoesNotExist;
      }
      var pending := CheckMarker(w);
      if pending.Some? {
        return pending.value;
      }
      UpThere(Now());
      answer := Reinstate(w);
    }

    // Past the marker test: restore, save again, and the sanity check.
    method Reinstate(w: World) returns (answer: Status)
      requires Reachable(Now()) && at == Post(PRestore(0, true)) && needsHwInit
      modifies this
      ensures Reachable(Now()) && OnCourse(w) && at == Post(PUnlock(answer, answer == Success)) && Up()
      ensures answer == if !AllFull(w) then DeviceDataError else if !Echoes(w) then IoDeviceError else Success
      ensures needsHwInit <==> answer != Success
      ensures StandingKept(old(Now()), Now()) && polls.log == old(polls.log)
      ensures answer == Success ==> Recovered()
      ensures RestoredInto(old(chip.cfg), chip.cfg, old(save.image), board.writable, w)
      ensures save == if answer == DeviceDataError then old(save)
                      else old(save).(image := if w.env(69).ok then chip.cfg
                                               else ShortRead(old(save.image), chip.cfg, w.env(69).prefix))
    {
      hide Reachable, Served, Stepped, Elapsed, Number, RestoredInto, AllFull, Echoes, ShortRead, SameWritable;
      var restored := RestoreConfig(w);
      if !restored {
        return DeviceDataError;
      }
      Resave(w);
      var passed := Gate(w);
      if !passed {
        return IoDeviceError;
      }
      Unrestrict(w);
      return Success;
    }

    // None: still waiting for ArcLock. A device that is not restricted answers
    // Success with nothing done. Of one that is, with the chip up and no timer
    // armed or nobody else acting, each answer has exactly its cause: not there,
    // its marker still set, a short config write, a failed sanity check, or none
    // of these. Success has brought its config back, with the chip up and no
    // timer armed; the firmware power-up and the sysmem arm come next. Any other
    // answer leaves the restriction as it was.
    method PostReset(w: World) returns (answer: Option<Status>)
      requires Reachable(Now()) && at == Post(PLock)
      modifies this
      ensures Reachable(Now()) && Now() == Served(old(Now()), w)
      ensures answer == None <==> Elapsed(old(Now()), w.others(0)).arc != Free
      ensures answer == None ==> at == Post(PLock) && polls == old(polls)
      ensures answer.Some? ==>
                && polls.log == old(polls.log) + [answer.value]
                && at == if old(needsHwInit) && answer == Some(Success) then Sect(Critical.Acquire(Exchange(9, true)))
                         else Idle
      ensures needsHwInit <==> old(needsHwInit) && answer != Some(Success)
      ensures StandingKept(old(Now()), Now()) && save.orig == old(save.orig)
      ensures !old(needsHwInit) ==> answer in {None, Some(Success)} && save == old(save) && ChipStays(w)
      ensures old(needsHwInit) && answer == Some(Success) ==> Recovered()
      ensures old(needsHwInit) && answer.Some? && old(Steady(w)) ==> Diagnosed(old(Now()), Now(), answer.value, w)
    {
      hide Reachable, Served, Recovered, Stepped, Elapsed, Number, Diagnosed;
      ghost var s := Now();
      var acquired := AcquirePost(w);
      if !acquired {
        return None;
      }
      answer := CheckPending(w);
      ghost var m := Now();
      if answer.Some? {
        Complete(answer.value, false, w);
      } else {
        var outcome := Recover(w);
        ghost var t := Now();
        Complete(outcome, outcome == Success, w);
        if s.chip == m.chip { DiagnosedOn(s, m, t, Now(), outcome, w); }
        answer := Some(outcome);
      }
      NoneLeft(Now(), w);
    }
  }

  // What the fence and the steps around it leave as it was.
  predicate Kept(s: State, t: State) {
    t.restricted == s.restricted && t.save == s.save && StandingKept(s, t)
  }

  predicate FilesKept(files: map<Handle, nat>, files': map<Handle, nat>) {
    forall h :: h in files ==> h in files' && files'[h] == files[h]
  }

  // The marker is read, and its write reaches a chip on the bus.
  predicate MarkerLands(w: World) { w.env(4).ok && (w.env(5).ok || w.env(5).lands) }

  // The triage lets the arm come to its marker write, and that lands.
  predicate Marks(restricted: bool, w: World) {
    w.env(2).ok && (restricted || w.env(3).ok) && MarkerLands(w)
  }

  // The generation is one further, and of the handles open before only the
  // arming one is of it.
  predicate Fenced(s: State, t: State, f: Option<Handle>) {
    && t.own.gen == s.own.gen + 1
    && (f.Some? ==> f.value in t.own.files && t.own.files[f.value] == t.own.gen)
    && forall h :: h in s.own.files && Some(h) != f ==> h in t.own.files && t.own.files[h] == s.own.files[h]
  }

  lemma FencedOn(s: State, m: State, t: State, f: Option<Handle>)
    requires StandingKept(s, m)
    ensures Fenced(m, t, f) ==> Fenced(s, t, f)
    ensures StandingKept(m, t) ==> StandingKept(s, t)
  {
  }

  lemma FencedAnd(s: State, m: State, t: State, f: Option<Handle>)
    requires StandingKept(m, t)
    ensures Fenced(s, m, f) ==> Fenced(s, t, f)
    ensures StandingKept(s, m) ==> StandingKept(s, t)
  {
  }

  // The cause of each answer of an arm that got the lock, and the chip it
  // leaves: a refused one changes config by the marker exactly if its marker
  // write lands, and a first arm's save is the config before.
  ghost predicate Caused(s: State, t: State, status: Status, w: World) {
    && (status == DeviceDoesNotExist <==> !(s.chip.onBus && w.env(2).ok))
    && (status == Success <==> s.chip.onBus && LetsArm(s.restricted, w))
    && (status == DeviceDoesNotExist ==> t.chip == s.chip)
    && (status == DeviceDataError ==>
          t.chip == if Marks(s.restricted, w) then s.chip.(cfg := WithMarker(s.chip.cfg)) else s.chip)
    && (status == Success ==>
          && (!s.restricted ==> t.save == Save(s.chip.cfg, true, s.chip.cfg))
          && (Alone(w) || !w.env(12).lands ==>
                t.chip == Chip(true, s.chip.pending || w.env(12).lands, WithMarker(s.chip.cfg))))
  }

  // The bus driver reports the full length for the restore's i-th write;
  // COMMAND's is the last.
  predicate FullWrite(w: World, i: nat) { w.env(4 + i).ok }

  ghost predicate AllFull(w: World) {
    FullBelow(w, DWORDS) && FullWrite(w, DWORDS)
  }

  ghost predicate FullBelow(w: World, n: nat) {
    forall i :: 0 <= i < n && i != COMMAND ==> FullWrite(w, i)
  }

  lemma NoneFull(w: World)
    ensures FullBelow(w, 0)
  {
  }

  lemma OneFull(w: World, i: nat)
    ensures FullBelow(w, i + 1) <==> FullBelow(w, i) && (i == COMMAND || FullWrite(w, i))
  {
  }

  lemma KeptOn(s: State, m: State, t: State)
    ensures Kept(s, s) && (Kept(s, m) && Kept(m, t) ==> Kept(s, t))
  {
  }

  predicate LandsAt(w: World, i: nat) { w.env(4 + i).ok || w.env(4 + i).lands }

  // A chip that is up after its dword d has been restored by write i.
  function Put(c: Chip, image: Image, d: nat, i: nat, board: Board, w: World): Chip
    requires d < DWORDS
  {
    if LandsAt(w, i) then c.(cfg := Store(c.cfg, d, image[d], w.env(4 + i).half, board.writable)) else c
  }

  lemma StoredIsPut(s: State, d: nat, i: nat, w: World)
    requires d < DWORDS
    ensures s.chip.onBus ==> Stored(s, d, w.env(4 + i)) == Put(s.chip, s.save.image, d, i, s.board, w)
  {
  }

  // After the restore: each dword software can write holds its saved value if
  // its write landed; every other is as it was.
  ghost predicate RestoredInto(before: Image, after: Image, image: Image, writable: Mask, w: World) {
    forall d :: 0 <= d < DWORDS ==>
      if writable[d] && LandsAt(w, if d == COMMAND then DWORDS else d) then SameDword(d, after[d], image[d])
      else after[d] == before[d]
  }

  // Likewise of the first i dwords but COMMAND, with the rest untouched.
  ghost predicate PartlyInto(before: Image, after: Image, image: Image, writable: Mask, w: World, i: nat) {
    forall d :: 0 <= d < DWORDS ==>
      if d < i && d != COMMAND && writable[d] && LandsAt(w, d) then SameDword(d, after[d], image[d])
      else after[d] == before[d]
  }

  lemma NoneInto(before: Image, image: Image, writable: Mask, w: World)
    ensures PartlyInto(before, before, image, writable, w, 0)
  {
  }

  lemma OneInto(before: Image, c: Chip, image: Image, i: nat, board: Board, w: World)
    requires i < DWORDS && PartlyInto(before, c.cfg, image, board.writable, w, i)
    ensures var c' := if i == COMMAND then c else Put(c, image, i, i, board, w);
            PartlyInto(before, c'.cfg, image, board.writable, w, i + 1) && c' == c.(cfg := c'.cfg)
  {
  }

  lemma CommandInto(before: Image, c: Chip, image: Image, board: Board, w: World)
    requires PartlyInto(before, c.cfg, image, board.writable, w, DWORDS)
    ensures var c' := Put(c, image, COMMAND, DWORDS, board, w);
            RestoredInto(before, c'.cfg, image, board.writable, w) && c' == c.(cfg := c'.cfg)
  {
  }

  // Every dword but COMMAND, in ascending order.
  function OthersBelow(n: nat): (order: seq<nat>)
    ensures forall d: nat :: d in order <==> d < n && d != COMMAND
    ensures forall i, j :: 0 <= i < j < |order| ==> order[i] < order[j]
  {
    if n == 0 then []
    else
      var o := OthersBelow(n - 1);
      assert forall i :: 0 <= i < |o| ==> o[i] in o;
      if n - 1 == COMMAND then o else o + [n - 1]
  }

  // The device answers, and has reset.
  predicate HasComeBack(c: Chip, w: World) {
    c.onBus && w.env(2).ok && w.env(3).ok && !Marker(c.cfg)
  }

  // The sanity check's three reads give what was written.
  predicate Echoes(w: World) { w.env(73).ok && w.env(74).ok && w.env(75).ok }

  predicate EchoesBelow(w: World, j: nat) { (j > 3 ==> w.env(73).ok) && (j > 4 ==> w.env(74).ok) }

  // The cause of each answer of a recovery, and what it leaves in the chip and
  // the save.
  ghost predicate Diagnosed(s: State, t: State, answer: Status, w: World) {
    && (answer == DeviceDoesNotExist <==> !(s.chip.onBus && w.env(2).ok && w.env(3).ok))
    && (answer == DeviceBusy <==> s.chip.onBus && w.env(2).ok && w.env(3).ok && Marker(s.chip.cfg))
    && (answer == DeviceDataError <==> HasComeBack(s.chip, w) && !AllFull(w))
    && (answer == IoDeviceError <==> HasComeBack(s.chip, w) && AllFull(w) && !Echoes(w))
    && (answer == Success <==> HasComeBack(s.chip, w) && AllFull(w) && Echoes(w))
    && (if HasComeBack(s.chip, w) then
          && t.chip == s.chip.(cfg := t.chip.cfg)
          && RestoredInto(s.chip.cfg, t.chip.cfg, s.save.image, s.board.writable, w)
        else t.chip == s.chip)
    && (answer in {Success, IoDeviceError} ==>
          t.save == s.save.(image := if w.env(69).ok then t.chip.cfg
                                     else ShortRead(s.save.image, t.chip.cfg, w.env(69).prefix)))
  }

  lemma DiagnosedOn(s: State, m: State, t: State, u: State, answer: Status, w: World)
    requires m.chip == s.chip && m.save == s.save && m.board == s.board && u.save == t.save
    ensures Diagnosed(m, t, answer, w) && u.chip == t.chip ==> Diagnosed(s, u, answer, w)
  {
  }

  // While a POST_RESET goes on the register windows are mapped, and a config
  // save exists if the device is restricted.
  lemma Equipped(s: State)
    requires Reachable(s) && s.ioctl.Post?
    ensures s.hw.tlbRegs && s.hw.kernelTlb && (s.restricted ==> s.save.valid)
  {
    ReachableInv(s);
  }

  // Past the marker test the chip is up with no timer armed.
  lemma UpThere(s: State)
    requires Reachable(s) && s.ioctl.Post? && s.ioctl.p.PRestore?
    ensures s.chip.onBus && !s.chip.pending && !Marker(s.chip.cfg)
  {
    ReachableInv(s);
  }

  lemma BackAsBefore(s: State)
    requires Reachable(s) && s.ioctl == Post(PUnrestrict)
    ensures s.chip.onBus && !s.chip.pending && SameWritable(s.chip.cfg, s.save.orig, s.board.writable)
  {
    ReachableInv(s);
  }

  lemma Dark(s: State)
    requires Reachable(s) && s.restricted && s.ioctl.Idle?
    ensures s.save.valid && !s.sys.verified && s.recs.listed == {} && s.own.pool == Reclaimed()
  {
    RestrictedMeansIdle(s);
  }

  lemma AlonesArm(s: State, f: Option<Handle>, w: World)
    requires Reachable(s) && s.ioctl == Reset(RCheck, f)
    ensures Alone(w) && s.recs.listed == {} && s.arc == Free && s.chip.onBus && LetsArm(s.restricted, w) ==>
              Served(s, w) == Armed(s, f, w)
  {
    hide Reachable, Served, Armed;
    AnswersIff(s);
    if Alone(w) && s.recs.listed == {} && s.arc == Free && s.chip.onBus && LetsArm(s.restricted, w) {
      AloneArms(s, f, w);
    }
  }

  // No handle is ahead of the device.
  lemma Admissible(s: State, f: Option<Handle>)
    requires Reachable(s) && (f.Some? ==> f.value in s.own.files)
    ensures f.Some? ==> s.own.files[f.value] <= s.own.gen
  {
    ReachableInv(s);
  }

  // In a reachable state the vendor ID reads as the device's own exactly with
  // the chip on the bus.
  lemma AnswersIff(s: State)
    requires Reachable(s)
    ensures Vendor(ConfigRead(s.chip)) == s.board.vendorId <==> s.chip.onBus
  {
    ReachableInv(s);
  }
}
