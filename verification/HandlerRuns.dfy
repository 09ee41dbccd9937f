// What RESET_DEVICE or POST_RESET comes to from a given state, with given
// other activity before each of its accesses and given outcomes of them.
module HandlerRuns {
  import opened Prelude
  import opened ConfigSpace
  import opened WindowPool
  import opened Machine
  import opened Invariant
  import opened ResetTheorems

  // What runs before a handler's k-th access, and how that access turns out.
  datatype World = World(others: nat -> seq<Action>, env: nat -> Env)

  predicate IsOther(a: Action) { !a.Step? && !a.Dispatch? }

  ghost predicate Alone(w: World) {
    forall k :: w.others(k) == []
  }

  // Power callbacks, handle opens and cleanups, and the chip.
  function Elapsed(s: State, acts: seq<Action>): State {
    if acts == [] then s
    else
      var m, a := Elapsed(s, acts[..|acts| - 1]), acts[|acts| - 1];
      if IsOther(a) && Enabled(m, a) then Next(m, a) else m
  }

  // What no other thread changes under a handler: what the reset handlers alone
  // write, the standing of the handles, a chip that is up with no timer armed,
  // and the mapped hardware while the queue runs.
  predicate OthersOnly(s: State, t: State) {
    && t.ioctl == s.ioctl && t.board == s.board && t.restricted == s.restricted
    && t.save == s.save && t.polls == s.polls && StandingKept(s, t)
    && (s.chip.onBus && !s.chip.pending ==> t.chip == s.chip)
    && (!Unheard(s.chip) ==> !Unheard(t.chip))
    && (s.hw.queue && !s.power.Releasing? && !s.ioctl.Idle? ==>
          t.hw == s.hw && !t.power.Releasing?)
  }

  predicate StandingKept(s: State, t: State) {
    t.own.gen == s.own.gen && forall h :: h in s.own.files ==> h in t.own.files && t.own.files[h] == s.own.files[h]
  }

  lemma OthersKeepTheHandler(s: State, a: Action)
    requires IsOther(a) && Enabled(s, a)
    ensures OthersOnly(s, Next(s, a))
  {
  }

  lemma {:induction false} ElapsedKeeps(s: State, acts: seq<Action>)
    ensures OthersOnly(s, Elapsed(s, acts)) && (Reachable(s) ==> Reachable(Elapsed(s, acts)))
  {
    hide Next, Enabled, Reachable;
    if acts != [] {
      var m, a := Elapsed(s, acts[..|acts| - 1]), acts[|acts| - 1];
      ElapsedKeeps(s, acts[..|acts| - 1]);
      if IsOther(a) && Enabled(m, a) {
        OthersKeepTheHandler(m, a);
        if Reachable(s) { OneMore(m, a); }
      }
    }
  }

  lemma OneMore(s: State, a: Action)
    requires Reachable(s) && Enabled(s, a)
    ensures Reachable(Next(s, a))
  {
    hide Next, Enabled, Leads;
    var o :| Init(o) && Leads(o, s);
    var t := Extend(o, s, a);
  }

  lemma ElapsedNone(s: State, acts: seq<Action>)
    ensures acts[..0] == [] && Elapsed(s, []) == s
  {
  }

  lemma BoardStays(s: State, a: Action)
    requires Enabled(s, a)
    ensures Next(s, a).board == s.board
  {
  }

  lemma ElapsedNext(s: State, acts: seq<Action>, i: nat)
    requires i < |acts|
    ensures var m := Elapsed(s, acts[..i]);
            Elapsed(s, acts[..i + 1]) == if IsOther(acts[i]) && Enabled(m, acts[i]) then Next(m, acts[i]) else m
  {
    assert acts[..i + 1][..i] == acts[..i];
  }

  // ------------------------------------------------------------ the handler

  // The handler stands before one of its accesses.
  predicate Handling(pc: Ioctl) {
    match pc
    case Reset(_, _) => true
    case Post(p) => (p.PRestore? ==> p.i <= DWORDS) && (p.PGate? ==> p.j <= 5)
    case _ => false
  }

  // The number of that access.
  function Number(pc: Ioctl): nat
    requires Handling(pc)
  {
    match pc
    case Reset(r, _) =>
      (match r
       case RCheck => 0
       case RLock => 1
       case RProbe => 2
       case RSave => 3
       case RMarkRead => 4
       case RMarkWrite(_) => 5
       case RBump => 6
       case RReclaim => 7
       case RCarry => 8
       case RRestrict => 9
       case RDarken => 10
       case RTarget => 11
       case RControl => 12
       case RUnlock => 13)
    case Post(p) =>
      (match p
       case PLock => 0
       case PGuard => 1
       case PProbe => 2
       case PMarker => 3
       case PRestore(i, _) => 4 + i
       case PResave => 69
       case PGate(j, _) => 70 + j
       case PUnrestrict => 76
       case PUnlock(_, _) => 77)
  }

  // The state in which the access is made, whether it has to wait, and the
  // state after it.
  function Met(s: State, w: World): State
    requires Handling(s.ioctl)
  {
    Elapsed(s, w.others(Number(s.ioctl)))
  }

  predicate Blocked(s: State, w: World)
    requires Handling(s.ioctl)
  {
    IoctlWaits(s.ioctl) && Met(s, w).arc != Free
  }

  function Stepped(s: State, w: World): State
    requires Handling(s.ioctl)
  {
    IoctlStep(Met(s, w), w.env(Number(s.ioctl)))
  }

  lemma StepAdvances(s: State, w: World)
    requires Handling(s.ioctl)
    ensures Handling(Stepped(s, w).ioctl) ==> Number(s.ioctl) < Number(Stepped(s, w).ioctl) <= 77
  {
    ElapsedKeeps(s, w.others(Number(s.ioctl)));
    AccessAdvances(Met(s, w), w.env(Number(s.ioctl)));
  }

  lemma AccessAdvances(s: State, e: Env)
    requires Handling(s.ioctl)
    ensures Handling(IoctlStep(s, e).ioctl) ==> Number(s.ioctl) < Number(IoctlStep(s, e).ioctl) <= 77
  {
    if s.ioctl.Reset? {
      ResetAdvances(s, s.ioctl.r, s.ioctl.f, e);
    } else {
      PostAdvances(s, s.ioctl.p, e);
    }
  }

  lemma ResetAdvances(s: State, r: ResetPc, f: Option<Handle>, e: Env)
    requires s.ioctl == Reset(r, f)
    ensures Handling(ResetStep(s, r, f, e).ioctl) ==> Number(s.ioctl) < Number(ResetStep(s, r, f, e).ioctl) <= 77
  {
  }

  lemma PostAdvances(s: State, p: PostPc, e: Env)
    requires s.ioctl == Post(p) && Handling(s.ioctl)
    ensures Handling(PostStep(s, p, e).ioctl) ==> Number(s.ioctl) < Number(PostStep(s, p, e).ioctl) <= 77
  {
  }

  // The handler run to its end, or to a lock it has to wait for.
  function Served(s: State, w: World): State
    decreases if Handling(s.ioctl) then 78 - Number(s.ioctl) else 0
  {
    if !Handling(s.ioctl) then s
    else if Blocked(s, w) then Met(s, w)
    else
      StepAdvances(s, w);
      Bounded(s.ioctl);
      Served(Stepped(s, w), w)
  }

  lemma NoneLeft(s: State, w: World)
    requires !Handling(s.ioctl)
    ensures Served(s, w) == s
  {
  }

  lemma Bounded(pc: Ioctl)
    requires Handling(pc)
    ensures Number(pc) <= 77
  {
  }

  lemma StepIsRun(s: State, w: World)
    requires Reachable(s) && Handling(s.ioctl) && !Blocked(s, w)
    ensures Reachable(Stepped(s, w)) && Served(s, w) == Served(Stepped(s, w), w)
  {
    hide Reachable, IoctlStep;
    ElapsedKeeps(s, w.others(Number(s.ioctl)));
    OneMore(Met(s, w), Step(w.env(Number(s.ioctl))));
  }

  // A statement of a handler, made in state m, takes it from s to t.
  lemma RanReset(s: State, m: State, t: State, r: ResetPc, f: Option<Handle>, w: World)
    requires Reachable(s) && s.ioctl == Reset(r, f) && m == Met(s, w) && (r.RLock? ==> m.arc == Free)
    requires t == ResetStep(m, r, f, w.env(Number(s.ioctl)))
    ensures Reachable(t) && t == Stepped(s, w) && Served(t, w) == Served(s, w)
  {
    hide Reachable, ResetStep, Number, Served;
    ElapsedKeeps(s, w.others(Number(s.ioctl)));
    StepIsRun(s, w);
  }

  lemma RanPost(s: State, m: State, t: State, p: PostPc, w: World)
    requires Reachable(s) && s.ioctl == Post(p) && Handling(s.ioctl) && m == Met(s, w) && (p.PLock? ==> m.arc == Free)
    requires t == PostStep(m, p, w.env(Number(s.ioctl)))
    ensures Reachable(t) && t == Stepped(s, w) && Served(t, w) == Served(s, w)
  {
    hide Reachable, PostStep, Number, Served;
    ElapsedKeeps(s, w.others(Number(s.ioctl)));
    StepIsRun(s, w);
  }

  // -------------------------------------------- an arm with nobody else acting

  lemma Undisturbed(s: State, w: World, k: nat)
    ensures Alone(w) ==> Elapsed(s, w.others(k)) == s
  {
  }

  lemma AloneStep(s: State, w: World)
    requires Alone(w) && Handling(s.ioctl) && (IoctlWaits(s.ioctl) ==> s.arc == Free)
    ensures Served(s, w) == Served(IoctlStep(s, w.env(Number(s.ioctl))), w)
  {
    hide IoctlStep, Number;
    assert Met(s, w) == s;
  }

  // The triage and the marker write let the arm through.
  predicate LetsArm(restricted: bool, w: World) {
    w.env(2).ok && (restricted || w.env(3).ok) && w.env(4).ok && w.env(5).ok
  }

  // The state a whole arm leaves: timer armed if its last write lands, marker
  // set, restricted and dark, the first arm's config saved, every window taken
  // back and every handle but the arming one stale.
  function Armed(s: State, f: Option<Handle>, w: World): State {
    var gen := s.own.gen + 1;
    s.(chip := Chip(true, s.chip.pending || w.env(12).lands, WithMarker(s.chip.cfg)),
       restricted := true,
       save := if s.restricted then s.save else Save(s.chip.cfg, true, s.chip.cfg),
       sys := s.sys.(verified := false),
       own := Owners(gen, if f.Some? then s.own.files[f.value := gen] else s.own.files, s.own.closed, Reclaimed()),
       polls := if s.restricted then s.polls.(arms := s.polls.arms + 1) else Polls(1, false, []),
       arc := Free, ioctl := Idle)
  }

  lemma AloneArms(s: State, f: Option<Handle>, w: World)
    requires Alone(w) && s.ioctl == Reset(RCheck, f) && s.recs.listed == {} && s.arc == Free
    requires s.chip.onBus && Vendor(s.chip.cfg) == s.board.vendorId && LetsArm(s.restricted, w)
    ensures Served(s, w) == Armed(s, f, w)
  {
    hide Served;
    var t := Triaged(s, f);
    AloneTriages(s, f, w);
    var m := t.(chip := s.chip.(cfg := WithMarker(s.chip.cfg)), ioctl := Reset(RBump, f));
    AloneMarks(t, f, w);
    AloneFences(m, f, w);
    var gen := s.own.gen + 1;
    var n := m.(own := Owners(gen, if f.Some? then s.own.files[f.value := gen] else s.own.files,
                              s.own.closed, Reclaimed()), ioctl := Reset(RRestrict, f));
    AloneRestricts(n, f, w);
    AloneTriggers(n.(restricted := true, sys := s.sys.(verified := false), ioctl := Reset(RTarget, f)), f, w);
  }

  function Triaged(s: State, f: Option<Handle>): State {
    s.(save := if s.restricted then s.save else Save(s.chip.cfg, true, s.chip.cfg),
       polls := if s.restricted then s.polls.(arms := s.polls.arms + 1) else Polls(1, false, []),
       arc := ByIoctl, ioctl := Reset(RMarkRead, f))
  }

  lemma AloneTriages(s: State, f: Option<Handle>, w: World)
    requires Alone(w) && s.ioctl == Reset(RCheck, f) && s.recs.listed == {} && s.arc == Free
    requires s.chip.onBus && Vendor(s.chip.cfg) == s.board.vendorId && LetsArm(s.restricted, w)
    ensures Served(s, w) == Served(Triaged(s, f), w)
  {
    hide Served, Alone;
    AloneStep(s, w);
    var a := s.(ioctl := Reset(RLock, f));
    AloneStep(a, w);
    var b := a.(arc := ByIoctl, ioctl := Reset(RProbe, f));
    AloneStep(b, w);
    var c := b.(polls := Triaged(s, f).polls, ioctl := Reset(RSave, f));
    AloneStep(c, w);
  }

  lemma AloneMarks(s: State, f: Option<Handle>, w: World)
    requires Alone(w) && s.ioctl == Reset(RMarkRead, f) && s.chip.onBus && w.env(4).ok && w.env(5).ok
    ensures Served(s, w) ==
              Served(s.(chip := s.chip.(cfg := WithMarker(s.chip.cfg)), ioctl := Reset(RBump, f)), w)
  {
    hide Served, Alone;
    AloneStep(s, w);
    AloneStep(s.(ioctl := Reset(RMarkWrite(Low(s.chip.cfg[COMMAND])), f)), w);
  }

  lemma AloneFences(s: State, f: Option<Handle>, w: World)
    requires Alone(w) && s.ioctl == Reset(RBump, f)
    ensures var gen := s.own.gen + 1;
            Served(s, w) ==
              Served(s.(own := Owners(gen, if f.Some? then s.own.files[f.value := gen] else s.own.files,
                                      s.own.closed, Reclaimed()), ioctl := Reset(RRestrict, f)), w)
  {
    hide Served, Alone;
    var gen := s.own.gen + 1;
    AloneStep(s, w);
    var a := s.(own := s.own.(gen := gen), ioctl := Reset(RReclaim, f));
    AloneStep(a, w);
    AloneStep(a.(own := a.own.(pool := Reclaimed()), ioctl := Reset(RCarry, f)), w);
  }

  lemma AloneRestricts(s: State, f: Option<Handle>, w: World)
    requires Alone(w) && s.ioctl == Reset(RRestrict, f)
    ensures Served(s, w) ==
              Served(s.(restricted := true, sys := s.sys.(verified := false), ioctl := Reset(RTarget, f)), w)
  {
    hide Served, Alone;
    AloneStep(s, w);
    AloneStep(s.(restricted := true, ioctl := Reset(RDarken, f)), w);
  }

  lemma AloneTriggers(s: State, f: Option<Handle>, w: World)
    requires Alone(w) && s.ioctl == Reset(RTarget, f) && s.chip.onBus
    ensures Served(s, w) ==
              s.(chip := s.chip.(pending := s.chip.pending || w.env(12).lands), arc := Free, ioctl := Idle)
  {
    hide Served, Alone;
    AloneStep(s, w);
    var a := s.(ioctl := Reset(RControl, f));
    AloneStep(a, w);
    var b := a.(chip := s.chip.(pending := s.chip.pending || w.env(12).lands), ioctl := Reset(RUnlock, f));
    AloneStep(b, w);
    NoneLeft(b.(arc := Free, ioctl := Idle), w);
  }
}
