// What the reset protocol guarantees on every run, and where it does not.
module ResetTheorems {
  import opened Prelude
  import opened ConfigSpace
  import opened WindowPool
  import opened Iatu
  import opened Machine
  import opened Invariant
  import opened Preservation

  // ------------------------------------------------------------------ runs

  ghost predicate IsPath(states: seq<State>, acts: seq<Action>) {
    && |states| == |acts| + 1
    && forall i :: 0 <= i < |acts| ==> Enabled(states[i], acts[i]) && states[i + 1] == Next(states[i], acts[i])
  }

  ghost predicate IsRun(states: seq<State>, acts: seq<Action>) {
    IsPath(states, acts) && Init(states[0])
  }

  ghost predicate Leads(s: State, t: State) {
    exists states: seq<State>, acts: seq<Action> ::
      IsPath(states, acts) && states[0] == s && states[|acts|] == t
  }

  ghost predicate Reachable(t: State) { exists s :: Init(s) && Leads(s, t) }

  lemma {:induction false} RunKeepsInv(states: seq<State>, acts: seq<Action>, i: nat)
    requires IsRun(states, acts) && i <= |acts|
    ensures Inv(states[i])
  {
    if i == 0 {
      InitInv(states[0]);
    } else {
      RunKeepsInv(states, acts, i - 1);
      NextKeepsInv(states[i - 1], acts[i - 1]);
    }
  }

  lemma ReachableInv(t: State)
    requires Reachable(t)
    ensures Inv(t)
  {
    var s :| Init(s) && Leads(s, t);
    var states: seq<State>, acts: seq<Action> :|
      IsPath(states, acts) && states[0] == s && states[|acts|] == t;
    RunKeepsInv(states, acts, |acts|);
  }

  lemma LeadsHere(s: State)
    ensures Leads(s, s)
  {
    var none: seq<Action> := [];
    assert IsPath([s], none) && [s][|none|] == s;
  }

  lemma Extend(s: State, t: State, a: Action) returns (u: State)
    requires Leads(s, t) && Enabled(t, a)
    ensures u == Next(t, a) && Leads(s, u)
  {
    hide Next, Enabled;
    u := Next(t, a);
    var states: seq<State>, acts: seq<Action> :|
      IsPath(states, acts) && states[0] == s && states[|acts|] == t;
    assert IsPath(states + [u], acts + [a]);
    assert (states + [u])[0] == s && (states + [u])[|acts + [a]|] == u;
  }

  // --------------------------------------------------------- MMIO safety

  // Every BAR access of the driver, in every interleaving, happens with the
  // chip on the bus, no reset timer armed, and the register blocks it goes to
  // mapped; CONFIGURE_TLB only ever programs a window its caller owns.
  lemma NoMmioWhileResetOutstanding(s: State, a: Action)
    requires Reachable(s) && Enabled(s, a) && IsMmio(s, a)
    ensures s.chip.onBus && !s.chip.pending
    ensures BlockMapped(s, a)
    ensures a.Step? && Configuring(s.ioctl) ==>
              s.ioctl.w.id != KERNEL_WINDOW && Owns(s.own.pool, s.ioctl.h, s.ioctl.w.id)
  {
    ReachableInv(s);
  }

  // Of the ioctl and the power thread at most one is between taking ArcLock and
  // releasing it. So whatever a mailbox exchange, an arm of sysmem, an arm of
  // the reset or a recovery finds, no other of them runs beside it.
  lemma OneThreadUnderArcLock(s: State)
    requires Reachable(s)
    ensures !(IoctlHoldsArc(s.ioctl) && PowerHoldsArc(s.power))
    ensures s.arc == Free <==> !IoctlHoldsArc(s.ioctl) && !PowerHoldsArc(s.power)
  {
    ReachableInv(s);
  }

  // The restricted state is left by POST_RESET's last step only, and then no
  // timer is pending and the link is up - whatever the chip did between its
  // two config reads.
  lemma OnlyRecoveryUnrestricts(s: State, a: Action)
    requires Reachable(s) && Enabled(s, a) && s.restricted && !Next(s, a).restricted
    ensures a.Step? && s.ioctl == Post(PUnrestrict)
    ensures s.chip.onBus && !s.chip.pending
  {
    ReachableInv(s);
  }

  // A timer is armed by RESET_DEVICE's last write only, already restricted,
  // with the marker set in the same chip.
  lemma ArmedOnlyWhileRestricted(s: State, a: Action)
    requires Reachable(s) && Enabled(s, a) && !s.chip.pending && Next(s, a).chip.pending
    ensures a.Step? && AtReset(s.ioctl, RControl)
    ensures s.restricted && s.arc == ByIoctl && s.chip.onBus && Marker(s.chip.cfg)
  {
    ReachableInv(s);
    ArmingPoint(s, a);
  }

  lemma ArmingPoint(s: State, a: Action)
    requires Enabled(s, a) && !s.chip.pending && Next(s, a).chip.pending
    ensures a.Step? && AtReset(s.ioctl, RControl) && s.chip.onBus
  {
  }

  // From the arm until recovery: nothing listed, nothing owned, the bitmap
  // exactly the kernel window, a config save to go back to, sysmem dark.
  lemma RestrictedMeansIdle(s: State)
    requires Reachable(s) && s.restricted
    ensures s.recs.listed == {} && s.save.valid
    ensures forall i :: 0 <= i < WINDOWS ==>
              s.own.pool.owner[i] == None && (s.own.pool.bits[i] <==> i == KERNEL_WINDOW)
    ensures s.sys.verified ==> AtReset(s.ioctl, RDarken) && s.arc == ByIoctl
  {
    ReachableInv(s);
  }

  // ----------------------------------------------- windows and generations

  // The allocator state of every reachable state: a bit is set exactly for an
  // owned window or the kernel's, the kernel's has no owner, and a window
  // somebody has mapped is owned by the handle that mapped it - even when
  // cleanup runs between MAP_TLB's check and its insert.
  lemma WindowsBelongToTheirUsers(s: State)
    requires Reachable(s)
    ensures forall i :: 0 <= i < WINDOWS ==>
              (s.own.pool.bits[i] <==> s.own.pool.owner[i].Some? || i == KERNEL_WINDOW)
    ensures s.own.pool.owner[KERNEL_WINDOW] == None
    ensures forall m :: m in s.recs.listed && m.tlb >= 0 ==>
              m.tlb < KERNEL_WINDOW && s.own.pool.owner[m.tlb] == Some(m.file)
  {
    ReachableInv(s);
  }

  // Owners of windows and of listed mappings are handles of the current
  // generation, except for the owners RESET_DEVICE is about to strip.
  lemma OwnersAreCurrent(s: State)
    requires Reachable(s)
    ensures forall h :: h in s.own.files ==> s.own.files[h] <= s.own.gen
    ensures forall m :: m in s.recs.listed ==> m.file in s.own.files && s.own.files[m.file] == s.own.gen
    ensures !AtReset(s.ioctl, RReclaim) ==>
              forall i :: 0 <= i < WINDOWS && s.own.pool.owner[i].Some? ==>
                s.own.pool.owner[i].value in s.own.files && s.own.files[s.own.pool.owner[i].value] == s.own.gen
  {
    ReachableInv(s);
  }

  // ---------------------------------------------------------- closed handles

  predicate OwnsNothing(s: State, h: Handle) {
    forall i :: 0 <= i < WINDOWS ==> s.own.pool.owner[i] != Some(h)
  }

  predicate ListsNothing(s: State, h: Handle) {
    forall m :: m in s.recs.listed ==> m.file != h
  }

  predicate OwnsOnly(s: State, h: Handle, i: nat) {
    i < WINDOWS && forall j :: 0 <= j < WINDOWS && s.own.pool.owner[j] == Some(h) ==> j == i
  }

  predicate ListsOnly(s: State, h: Handle, m: Mapping) {
    forall k :: k in s.recs.listed && k.file == h ==> k == m
  }

  // An ioctl of the handle is in progress.
  predicate Busy(s: State, h: Handle) { s.ioctl.Window? && s.ioctl.h == h }

  // At most one thing: a window, or a mapping of no window.
  ghost predicate HoldsOneThing(s: State, h: Handle) {
    || (ListsNothing(s, h) && exists i :: OwnsOnly(s, h, i))
    || (OwnsNothing(s, h) && exists m :: ListsOnly(s, h, m))
  }

  // What a closed handle may still hold: nothing while its own ioctl goes on,
  // and then what that ioctl added.
  ghost predicate Leftover(s: State, h: Handle) {
    (OwnsNothing(s, h) && ListsNothing(s, h)) || (!Busy(s, h) && HoldsOneThing(s, h))
  }

  lemma CleanupTakesAll(s: State, h: Handle)
    requires Enabled(s, Cleanup(h))
    ensures OwnsNothing(Next(s, Cleanup(h)), h) && ListsNothing(Next(s, Cleanup(h)), h)
  {
  }

  // From s to t the handle gets nothing and no ioctl of it begins.
  ghost predicate GetsNothing(s: State, t: State, h: Handle) {
    && (forall i :: 0 <= i < WINDOWS && t.own.pool.owner[i] == Some(h) ==> s.own.pool.owner[i] == Some(h))
    && (forall m :: m in t.recs.listed && m.file == h ==> m in s.recs.listed)
    && (Busy(t, h) ==> Busy(s, h))
  }

  lemma LessIsLeft(s: State, t: State, h: Handle)
    requires Leftover(s, h) && GetsNothing(s, t, h)
    ensures Leftover(t, h)
  {
    if !Busy(s, h) && ListsNothing(s, h) && exists i :: OwnsOnly(s, h, i) {
      var i :| OwnsOnly(s, h, i);
      assert OwnsOnly(t, h, i);
    } else if !Busy(s, h) && OwnsNothing(s, h) && exists m :: ListsOnly(s, h, m) {
      var m :| ListsOnly(s, h, m);
      assert ListsOnly(t, h, m);
    }
  }

  // The two steps that give a handle something.
  predicate Gives(pc: Ioctl) { pc.Window? && (pc.w.TAllocate? || pc.w.MInsert?) }

  lemma WindowGets(s: State, w: WindowPc, g: Handle, e: Env, h: Handle)
    requires s.ioctl == Window(w, g) && !(Gives(s.ioctl) && g == h) && (w.MInsert? ==> w.m.file == g)
    ensures GetsNothing(s, WindowStep(s, w, g, e), h)
  {
    if !w.TAllocate? && !w.TFree? {
      assert WindowStep(s, w, g, e).own == s.own;
    }
  }

  lemma IoctlGets(s: State, e: Env, h: Handle)
    requires Inv(s) && !s.ioctl.Idle? && !(Gives(s.ioctl) && Busy(s, h))
    ensures GetsNothing(s, IoctlStep(s, e), h)
  {
    if s.ioctl.Window? {
      WindowGets(s, s.ioctl.w, s.ioctl.h, e, h);
    } else if s.ioctl.Reset? {
      ResetGets(s, s.ioctl.r, s.ioctl.f, e, h);
    }
  }

  lemma ResetGets(s: State, r: ResetPc, f: Option<Handle>, e: Env, h: Handle)
    requires s.ioctl == Reset(r, f)
    ensures GetsNothing(s, ResetStep(s, r, f, e), h)
  {
  }

  lemma PowerGets(s: State, e: Env, h: Handle)
    requires !s.power.PowerIdle?
    ensures GetsNothing(s, PowerStepped(s, e), h)
  {
  }

  lemma OtherGets(s: State, a: Action, h: Handle)
    requires Enabled(s, a) && !a.Step? && !a.PowerStep? && !(a.Dispatch? && a.f == Some(h))
    ensures GetsNothing(s, Next(s, a), h)
  {
  }

  // Its ioctl gives a closed handle one thing, and is then over; to one that
  // owns nothing no mapping of a window is given.
  lemma GivenOneThing(s: State, w: WindowPc, h: Handle, e: Env)
    requires Inv(s) && s.ioctl == Window(w, h) && Gives(s.ioctl) && OwnsNothing(s, h) && ListsNothing(s, h)
    ensures Leftover(WindowStep(s, w, h, e), h)
  {
    var t := WindowStep(s, w, h, e);
    if w.TAllocate? {
      if Choice(s.own.pool).Some? {
        assert OwnsOnly(t, h, Choice(s.own.pool).value);
      }
    } else {
      assert ListsOnly(t, h, w.m);
    }
  }

  lemma LeftoverStep(s: State, a: Action, h: Handle)
    requires Inv(s) && Leftover(s, h) && Enabled(s, a) && !(a.Dispatch? && a.f == Some(h))
    ensures Leftover(Next(s, a), h)
  {
    hide Inv, Leftover, GetsNothing;
    if a.Step? && Gives(s.ioctl) && Busy(s, h) {
      BusyHoldsNothing(s, h);
      GivenOneThing(s, s.ioctl.w, h, a.e);
    } else {
      if a.Step? {
        IoctlGets(s, a.e, h);
      } else if a.PowerStep? {
        PowerGets(s, a.e, h);
      } else {
        OtherGets(s, a, h);
      }
      LessIsLeft(s, Next(s, a), h);
    }
  }

  lemma BusyHoldsNothing(s: State, h: Handle)
    requires Leftover(s, h) && Busy(s, h)
    ensures OwnsNothing(s, h) && ListsNothing(s, h)
  {
  }

  // After cleanup a handle of which no further ioctl begins holds nothing but
  // what its ioctl then in progress added: at most one window, or one mapping
  // of no window.
  lemma {:induction false} ClosedHandleHolds(states: seq<State>, acts: seq<Action>, i: nat, j: nat, h: Handle)
    requires IsRun(states, acts) && i < j <= |acts| && acts[i] == Cleanup(h)
    requires forall k :: i < k < j ==> !(acts[k].Dispatch? && acts[k].f == Some(h))
    ensures Leftover(states[j], h)
    ensures OwnsNothing(states[i + 1], h) && ListsNothing(states[i + 1], h)
    decreases j
  {
    hide Next, Enabled, Inv, Leftover;
    RunKeepsInv(states, acts, i);
    CleanupTakesAll(states[i], h);
    if j == i + 1 {
      NothingIsLeftover(states[j], h);
    } else {
      ClosedHandleHolds(states, acts, i, j - 1, h);
      RunKeepsInv(states, acts, j - 1);
      LeftoverStep(states[j - 1], acts[j - 1], h);
    }
  }

  lemma NothingIsLeftover(s: State, h: Handle)
    requires OwnsNothing(s, h) && ListsNothing(s, h)
    ensures Leftover(s, h)
  {
  }

  // Stale, and not the arming handle on its way over the bump.
  predicate Stale(s: State, h: Handle) {
    h in s.own.files && s.own.files[h] < s.own.gen && !(Bumped(s.ioctl) && s.ioctl.f == Some(h))
  }

  lemma StaleStep(s: State, a: Action, h: Handle)
    requires RequestorInv(s) && Enabled(s, a) && Stale(s, h)
    ensures Stale(Next(s, a), h)
  {
    if a.Step? {
      StaleIoctlStep(s, a.e, h);
    } else if a.PowerStep? {
      StalePowerStep(s, a.e, h);
    }
  }

  lemma StaleIoctlStep(s: State, e: Env, h: Handle)
    requires RequestorInv(s) && !s.ioctl.Idle? && Stale(s, h)
    ensures Stale(IoctlStep(s, e), h)
  {
    if s.ioctl.Reset? {
      StaleResetStep(s, s.ioctl.r, s.ioctl.f, e, h);
    } else {
      assert IoctlStep(s, e).own.files == s.own.files && IoctlStep(s, e).own.gen == s.own.gen;
    }
  }

  lemma StaleResetStep(s: State, r: ResetPc, f: Option<Handle>, e: Env, h: Handle)
    requires RequestorInv(s) && s.ioctl == Reset(r, f) && Stale(s, h)
    ensures Stale(ResetStep(s, r, f, e), h)
  {
  }

  lemma StalePowerStep(s: State, e: Env, h: Handle)
    requires Stale(s, h)
    ensures Stale(PowerStepped(s, e), h)
  {
  }

  // A stale handle stays stale on every run, and none of its ioctls does anything.
  lemma {:induction false} StaleForever(states: seq<State>, acts: seq<Action>, i: nat, j: nat, h: Handle)
    requires IsRun(states, acts) && i <= j <= |acts| && Stale(states[i], h)
    ensures Stale(states[j], h)
    ensures forall req :: j < |acts| && acts[j] == Dispatch(Some(h), req) ==> states[j + 1] == states[j]
    decreases j
  {
    hide Next, Enabled, RequestorInv;
    if i < j {
      StaleForever(states, acts, i, j - 1, h);
      RunKeepsInv(states, acts, j - 1);
      InvKnowsRequestor(states[j - 1]);
      hide Inv, Stale;
      StaleStep(states[j - 1], acts[j - 1], h);
    }
    if j < |acts| && acts[j].Dispatch? && acts[j].f == Some(h) {
      StaleIsRefused(states[j], h, acts[j].req);
    }
  }

  lemma InvKnowsRequestor(s: State)
    requires Inv(s)
    ensures RequestorInv(s)
  {
  }

  lemma StaleIsRefused(s: State, h: Handle, req: Request)
    requires Stale(s, h) && Enabled(s, Dispatch(Some(h), req))
    ensures Next(s, Dispatch(Some(h), req)) == s
  {
  }

  // The generation bump makes stale exactly the handles that are not arming,
  // and the arming one is current again when the fence is done.
  lemma OnlyTheArmingHandleIsCarried(s: State, e: Env, h: Handle)
    requires Reachable(s) && h in s.own.files
    ensures AtReset(s.ioctl, RBump) ==>
              (Stale(ResetStep(s, RBump, s.ioctl.f, e), h) <==> s.ioctl.f != Some(h))
    ensures AtReset(s.ioctl, RCarry) ==>
              (ResetStep(s, RCarry, s.ioctl.f, e).own.files[h] == s.own.gen <==>
                 s.ioctl.f == Some(h) || s.own.files[h] == s.own.gen)
  {
    ReachableInv(s);
  }

  // ------------------------------------------------------ config round trip

  // The first arm's save of config space is the access about to happen.
  predicate FirstSave(s: State) { AtReset(s.ioctl, RSave) && !s.restricted }

  lemma OnlyFirstSaveChangesOrig(s: State, a: Action)
    requires Enabled(s, a) && !FirstSave(s)
    ensures Next(s, a).save.orig == s.save.orig
  {
  }

  lemma FirstSaveTakesConfig(s: State, e: Env)
    requires ChipInv(s) && FirstSave(s) && e.ok && Enabled(s, Step(e))
    ensures Next(s, Step(e)).save.orig == s.chip.cfg
  {
  }

  lemma {:induction false} OrigSince(states: seq<State>, acts: seq<Action>, i: nat, j: nat)
    requires IsPath(states, acts) && i < j <= |acts|
    requires ChipInv(states[i]) && FirstSave(states[i]) && acts[i].Step? && acts[i].e.ok
    requires forall k :: i < k < j ==> !FirstSave(states[k])
    ensures states[j].save.orig == states[i].chip.cfg
    decreases j
  {
    hide Next, Enabled, ChipInv, FirstSave;
    if j == i + 1 {
      FirstSaveTakesConfig(states[i], acts[i].e);
    } else {
      OrigSince(states, acts, i, j - 1);
      OnlyFirstSaveChangesOrig(states[j - 1], acts[j - 1]);
    }
  }

  // However many re-arms, fires, returns and failed POST_RESETs lie between a
  // first arm and the POST_RESET that lifts the restriction, every dword
  // software can write is then as it was just before that first arm.
  lemma ConfigRoundTrip(states: seq<State>, acts: seq<Action>, i: nat, j: nat)
    requires IsRun(states, acts) && i < j < |acts|
    requires FirstSave(states[i]) && acts[i].Step? && acts[i].e.ok
    requires forall k :: i < k < j ==> !FirstSave(states[k])
    requires states[j].restricted && !states[j + 1].restricted
    ensures SameWritable(states[j + 1].chip.cfg, states[i].chip.cfg, states[j].board.writable)
  {
    RunKeepsInv(states, acts, i);
    OrigSince(states, acts, i, j);
    RunKeepsInv(states, acts, j);
    RecoveryRestores(states[j], acts[j]);
  }

  lemma RecoveryRestores(s: State, a: Action)
    requires Inv(s) && Enabled(s, a) && s.restricted && !Next(s, a).restricted
    ensures SameWritable(Next(s, a).chip.cfg, s.save.orig, s.board.writable)
  {
  }

  // While the device is not restricted, only a marker write that lands changes
  // its config, by the parity bit, and only if that was clear. So an arm that
  // is refused leaves config as it was unless its marker write landed short.
  lemma OnlyTheMarkerChangesConfig(s: State, a: Action)
    requires Reachable(s) && Enabled(s, a) && !s.restricted
    ensures Next(s, a).chip.cfg != s.chip.cfg <==>
              a.Step? && s.ioctl.Reset? && s.ioctl.r.RMarkWrite? && (a.e.ok || a.e.lands) && !Marker(s.chip.cfg)
    ensures Next(s, a).chip.cfg != s.chip.cfg ==> Next(s, a).chip.cfg == WithMarker(s.chip.cfg)
  {
    hide Next, Enabled;
    ReachableInv(s);
    MarkerStep(s, a);
  }

  lemma MarkerStep(s: State, a: Action)
    requires ChipInv(s) && ResetInv(s) && PostInv(s) && Enabled(s, a) && !s.restricted
    ensures Next(s, a).chip.cfg != s.chip.cfg <==>
              a.Step? && s.ioctl.Reset? && s.ioctl.r.RMarkWrite? && (a.e.ok || a.e.lands) && !Marker(s.chip.cfg)
    ensures Next(s, a).chip.cfg != s.chip.cfg ==> Next(s, a).chip.cfg == WithMarker(s.chip.cfg)
  {
    if a.PowerStep? {
      assert PowerStepped(s, a.e).chip == s.chip;
    } else if a.Step? && !s.ioctl.Reset? {
      assert IoctlStep(s, a.e).chip == s.chip;
    }
  }

  // A failed MMIO gate leaves COMMAND restored, so the next POST_RESET gets
  // past its marker test exactly when parity was clear before the first arm.
  lemma RetryAfterFailedGate(s: State)
    requires Reachable(s) && s.ioctl.Post? && s.ioctl.p.PGate?
    ensures Marker(ConfigRead(s.chip)) <==> Marker(s.save.orig)
  {
    ReachableInv(s);
  }

  // Up, no timer armed, and the marker set all the same.
  predicate Unheard(c: Chip) { c.onBus && !c.pending && Marker(c.cfg) }

  // Restricted with such a chip: POST_RESET
  // gets no further than its marker test.
  predicate Stuck(s: State) {
    && s.restricted && Unheard(s.chip) && !s.ioctl.Reset?
    && (s.ioctl.Post? ==> s.ioctl.p.PLock? || s.ioctl.p.PGuard? || s.ioctl.p.PProbe? || s.ioctl.p.PMarker?
                          || s.ioctl.p.PUnlock?)
  }

  // A failure of POST_RESET after COMMAND has been put back: the gate's, or a
  // restore whose last write landed.
  predicate FailsWithCommandBack(p: PostPc, e: Env) {
    || (p.PGate? && p.j >= 5 && !(p.ok && e.ok))
    || (p.PRestore? && p.i == DWORDS && !(p.ok && e.ok) && (e.ok || e.lands))
  }

  // Of POST_RESET's steps exactly these failures lead there, if parity was set
  // before the first arm.
  lemma RecoverySticksIff(s: State, e: Env)
    requires Reachable(s) && s.ioctl.Post? && !Stuck(s)
    ensures Stuck(PostStep(s, s.ioctl.p, e)) <==> FailsWithCommandBack(s.ioctl.p, e) && Marker(s.save.orig)
  {
    ReachableInv(s);
    if s.ioctl.p.PRestore? {
      RestoreSticksIff(s, s.ioctl.p.i, s.ioctl.p.ok, e);
    } else if s.ioctl.p.PGate? {
      RetryAfterFailedGate(s);
    }
  }

  // Of all steps of all threads the others are the ends of a RESET_DEVICE of a
  // restricted device that leaves its chip up, marked and with no timer armed.
  lemma SticksIff(s: State, a: Action)
    requires Reachable(s) && Enabled(s, a) && !Stuck(s)
    ensures Stuck(Next(s, a)) <==>
              && a.Step?
              && (|| (s.ioctl.Post? && FailsWithCommandBack(s.ioctl.p, a.e) && Marker(s.save.orig))
                  || (AtReset(s.ioctl, RUnlock) && s.restricted && Unheard(s.chip)))
  {
    hide Stuck, ResetStep, WindowStep, SectStep, PowerStepped;
    if a.Step? && s.ioctl.Post? {
      RecoverySticksIff(s, a.e);
    } else {
      ReachableInv(s);
      ElsewhereSticksIff(s, a);
    }
  }

  lemma ElsewhereSticksIff(s: State, a: Action)
    requires RestrictedInv(s) && Enabled(s, a) && !Stuck(s) && !(a.Step? && s.ioctl.Post?)
    ensures Stuck(Next(s, a)) <==> a.Step? && AtReset(s.ioctl, RUnlock) && s.restricted && Unheard(s.chip)
  {
    if a.PowerStep? {
      assert PowerStepped(s, a.e).chip == s.chip && PowerStepped(s, a.e).restricted == s.restricted;
    } else if a.Step? && !s.ioctl.Reset? {
      assert IoctlStep(s, a.e).chip == s.chip;
    }
  }

  // A RESET_DEVICE comes to its end so exactly with the chip up and no timer
  // armed: refused before its marker write with the marker set already, at the
  // marker write with the marker set or a short write that lands, and not
  // refused with its last timer write lost.
  lemma ArmLeavesUnheardIff(s: State, e: Env)
    requires Reachable(s) && Enabled(s, Step(e)) && s.ioctl.Reset? && AtReset(Next(s, Step(e)).ioctl, RUnlock)
    ensures Unheard(Next(s, Step(e)).chip) <==>
              && s.chip.onBus && !s.chip.pending
              && if s.ioctl.r.RControl? then !e.lands
                 else Marker(s.chip.cfg) || (s.ioctl.r.RMarkWrite? && e.lands)
  {
    hide Next, Enabled;
    ReachableInv(s);
    ArmEndsUnheardIff(s, e);
  }

  lemma ArmEndsUnheardIff(s: State, e: Env)
    requires ChipInv(s) && ResetInv(s) && Enabled(s, Step(e)) && s.ioctl.Reset?
    requires AtReset(Next(s, Step(e)).ioctl, RUnlock)
    ensures Unheard(Next(s, Step(e)).chip) <==>
              && s.chip.onBus && !s.chip.pending
              && if s.ioctl.r.RControl? then !e.lands
                 else Marker(s.chip.cfg) || (s.ioctl.r.RMarkWrite? && e.lands)
  {
  }

  lemma RestoreSticksIff(s: State, i: nat, ok: bool, e: Env)
    requires Inv(s) && s.ioctl == Post(PRestore(i, ok))
    ensures Stuck(RestoreStep(s, i, ok, e)) <==> FailsWithCommandBack(PRestore(i, ok), e) && Marker(s.save.orig)
  {
    assert SameDword(COMMAND, s.save.image[COMMAND], s.save.orig[COMMAND]);
  }

  lemma StuckStep(s: State, a: Action)
    requires Stuck(s) && Enabled(s, a) && !(a.Dispatch? && a.req.ResetDevice?)
    ensures Stuck(Next(s, a))
  {
    if a.Step? {
      StuckIoctlStep(s, a.e);
    } else if a.PowerStep? {
      assert PowerStepped(s, a.e).chip == s.chip;
    }
  }

  lemma StuckIoctlStep(s: State, e: Env)
    requires Stuck(s) && !s.ioctl.Idle?
    ensures Stuck(IoctlStep(s, e))
  {
    if !s.ioctl.Post? {
      assert IoctlStep(s, e).chip == s.chip && IoctlStep(s, e).restricted;
    }
  }

  // So it stays for good, whatever runs, until a RESET_DEVICE re-arms.
  lemma {:induction false} StuckUntilRearmed(states: seq<State>, acts: seq<Action>, i: nat, j: nat)
    requires IsPath(states, acts) && i <= j <= |acts| && Stuck(states[i])
    requires forall k :: i <= k < j ==> !(acts[k].Dispatch? && acts[k].req.ResetDevice?)
    ensures Stuck(states[j])
    decreases j
  {
    hide Next, Enabled, Stuck;
    if i < j {
      StuckUntilRearmed(states, acts, i, j - 1);
      StuckStep(states[j - 1], acts[j - 1]);
    }
  }

  // ----------------------------------------------------------------- sysmem

  // Sysmem is advertised only while a live buffer is mapped whole through
  // region 0 at a real PCIe tile and no reset is outstanding.
  lemma VerifiedMeansUsable(s: State)
    requires Reachable(s) && s.sys.verified && !AtReset(s.ioctl, RDarken)
    ensures !s.restricted && s.sys.live && (s.sys.tileX == 2 || s.sys.tileX == 11)
    ensures s.sys.region == Region(0, s.sys.size - 1, s.sys.phys, true)
  {
    ReachableInv(s);
  }

  // ---------------------------------------------------------------- records

  // Every process is referenced once per record of it that still exists, and
  // a record about to be destroyed was never destroyed before.
  lemma ReferencesMatchRecords(s: State, p: nat)
    requires Reachable(s)
    ensures s.recs.refs[p] == |set m | m in Views(s) && m.proc == p|
    ensures forall m :: m in Views(s) ==> m.id !in s.recs.gone
    ensures forall a, b :: a in Views(s) && b in Views(s) && a.id == b.id ==> a == b
  {
    ReachableInv(s);
    assert OfProcess(Views(s), p) == set m | m in Views(s) && m.proc == p;
  }

  // While a reset may be outstanding, and when the sysmem buffer is freed,
  // the only user views left are those a handle cleanup has taken off the
  // list and not yet unmapped. So no view is left exactly when no cleanup is
  // in that phase.
  lemma LeftoverViews(s: State)
    requires Reachable(s) && (s.restricted || s.power == Releasing(XFree))
    ensures Views(s) == s.recs.cleaning
    ensures Views(s) == {} <==> s.recs.cleaning == {}
  {
    ReachableInv(s);
  }

  // Between a release of the hardware and the next preparation nothing of it is
  // mapped, no buffer is there and nothing is listed.
  lemma ReleasedMeansGone(s: State)
    requires Reachable(s) && !s.hw.queue && s.power.PowerIdle?
    ensures s.hw == Hardware(false, false, false, false, false, false, false)
    ensures !s.sys.live && !s.sys.verified && s.recs.listed == {} && s.recs.revoking == {} && s.ioctl.Idle?
    ensures forall i :: 0 <= i < WINDOWS ==> s.own.pool.owner[i] == None
  {
    ReachableInv(s);
  }

  // Suspension darkens sysmem under ArcLock, and comes to the firmware's
  // power-down next; resumption to its power-up, and to an arm of sysmem when
  // that is over.
  lemma PowerCallbacksWork(s: State, e: Env)
    requires Enabled(s, Begin(Suspend)) && s.arc == Free
    ensures var t := PowerStepped(PowerStepped(PowerStepped(Next(s, Begin(Suspend)), e), e), e);
            && t == s.(sys := s.sys.(verified := false), power := t.power)
            && t.power == PowerSect(Acquire(Exchange(1, false)))
    ensures Next(s, Begin(Resume)) == s.(power := PowerSect(Acquire(Exchange(1, true))))
    ensures forall t: State, left: nat ::
              t.power == PowerSect(Leave(Exchange(left, true))) && (left == 0 || !e.more) ==>
                PowerStepped(t, e).power == PowerSect(Acquire(Arm))
  {
  }

  // ------------------------------------------------------------------ polls

  // After a single arm, with full-length reads and parity clear in the saved
  // COMMAND, POST_RESET never answers BUSY once it has answered anything else.
  lemma BusyNeverReturns(s: State, i: nat, j: nat)
    requires Reachable(s) && i < j < |s.polls.log|
    requires s.polls.arms <= 1 && !s.polls.flaky && !Marker(s.save.orig)
    requires s.polls.log[i] != DeviceBusy
    ensures s.polls.log[j] != DeviceBusy
  {
    ReachableInv(s);
  }
}
