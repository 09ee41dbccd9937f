// Which request does what: every effect an ioctl has on the shared state comes
// from its own request, and each request has its effect.
module DispatchTheorems {
  import opened Prelude
  import opened ConfigSpace
  import opened WindowPool
  import opened Machine
  import opened Invariant
  import opened ResetTheorems

  // A mapping record of this kind and window for process p is what the request
  // asks for.
  predicate AsksFor(req: Request, p: nat, kind: Kind, tlb: int) {
    || (req == MapBar(p) && kind == Mdl && tlb == -1)
    || (req.MapTlb? && req.proc == p && kind == Mdl && tlb == req.id)
    || (req == MapSysmem(p) && kind == Section && tlb == -1)
  }

  predicate JobOf(req: Request, job: Job) {
    match job
    case Exchange(_, arm) => if arm then req.PostReset? else req.SmcMsg?
    case ArcReport => req.ArcStatus?
    case SysmemReport => req.SysmemStatus?
    case Arm => req.PostReset?
    case Invalidate => false
  }

  predicate SectionOf(req: Request, sec: Critical) {
    match sec
    case Acquire(job) => JobOf(req, job)
    case Guard(job) => JobOf(req, job)
    case Touch(job, _) => JobOf(req, job)
    case Leave(job) => JobOf(req, job)
    case Dim => false
    case _ => req.PostReset?
  }

  predicate WindowOf(req: Request, w: WindowPc, h: Handle) {
    match w
    case TAllocate => req.AllocateTlb?
    case TFree(id) => req == FreeTlb(id)
    case TCheck(id) => req == ConfigureTlb(id)
    case TConfigure(id) => req == ConfigureTlb(id)
    case MCheck(id, proc) => req == MapTlb(id, proc)
    case MAvailable(proc) => req == MapSysmem(proc)
    case MMake(proc, kind, tlb) => AsksFor(req, proc, kind, tlb)
    case MInsert(m) => m.file == h && AsksFor(req, m.proc, m.kind, m.tlb)
    case MBackout(m) => m.file == h && AsksFor(req, m.proc, m.kind, m.tlb)
    case UFind => req.UnmapBar?
    case UDestroy(m) => req.UnmapBar?
  }

  // The ioctl thread stands in the work of this request.
  predicate At(pc: Ioctl, f: Option<Handle>, req: Request) {
    match pc
    case Idle => true
    case Reset(_, g) => req.ResetDevice? && g == f
    case Post(_) => req.PostReset?
    case Window(w, h) => f == Some(h) && WindowOf(req, w, h)
    case Sect(sec) => SectionOf(req, sec)
  }

  lemma AdmittedAt(s: State, f: Option<Handle>, req: Request)
    requires Enabled(s, Dispatch(f, req))
    ensures At(Next(s, Dispatch(f, req)).ioctl, f, req)
  {
  }

  lemma StaysAt(s: State, a: Action, f: Option<Handle>, req: Request)
    requires Enabled(s, a) && !a.Dispatch? && At(s.ioctl, f, req)
    ensures At(Next(s, a).ioctl, f, req)
  {
    hide At;
    if a.Step? {
      IoctlStaysAt(s, a.e, f, req);
    } else {
      OthersStay(s, a);
    }
  }

  lemma OthersStay(s: State, a: Action)
    requires Enabled(s, a) && !a.Dispatch? && !a.Step?
    ensures Next(s, a).ioctl == s.ioctl
  {
    if a.PowerStep? {
      assert PowerStepped(s, a.e).ioctl == s.ioctl;
    }
  }

  lemma IoctlStaysAt(s: State, e: Env, f: Option<Handle>, req: Request)
    requires !s.ioctl.Idle? && At(s.ioctl, f, req)
    ensures At(IoctlStep(s, e).ioctl, f, req)
  {
    if s.ioctl.Window? {
      WindowStaysAt(s, s.ioctl.w, s.ioctl.h, e, f, req);
    } else if s.ioctl.Sect? {
      SectionStaysAt(s, s.ioctl.sec, e, f, req);
    }
  }

  lemma WindowStaysAt(s: State, w: WindowPc, h: Handle, e: Env, f: Option<Handle>, req: Request)
    requires s.ioctl == Window(w, h) && At(s.ioctl, f, req)
    ensures At(WindowStep(s, w, h, e).ioctl, f, req)
  {
  }

  lemma SectionStaysAt(s: State, sec: Critical, e: Env, f: Option<Handle>, req: Request)
    requires s.ioctl == Sect(sec) && At(s.ioctl, f, req)
    ensures At(SectStep(s, sec, e).ioctl, f, req)
  {
  }

  lemma {:induction false} AtSince(states: seq<State>, acts: seq<Action>, i: nat, j: nat,
                                   f: Option<Handle>, req: Request)
    requires IsPath(states, acts) && i < j <= |acts| && acts[i] == Dispatch(f, req)
    requires forall k :: i < k < j ==> !acts[k].Dispatch?
    ensures At(states[j].ioctl, f, req)
    decreases j
  {
    hide Next, Enabled, At;
    if j == i + 1 {
      AdmittedAt(states[i], f, req);
    } else {
      AtSince(states, acts, i, j - 1, f, req);
      StaysAt(states[j - 1], acts[j - 1], f, req);
    }
  }

  // What a step of the ioctl thread from s to t shows of its request.
  predicate EffectsOf(s: State, t: State, f: Option<Handle>, req: Request) {
    // The reset protocol.
    && (t.chip.pending != s.chip.pending || t.own.gen != s.own.gen ==> req.ResetDevice?)
    && (t.chip.cfg != s.chip.cfg || t.save != s.save ==> req.ResetDevice? || req.PostReset?)
    && (!s.restricted && t.restricted ==> req.ResetDevice?)
    && (s.restricted && !t.restricted ==> req.PostReset?)
    && (|t.polls.log| > |s.polls.log| || (!s.sys.verified && t.sys.verified) ==> req.PostReset?)
    // Windows.
    && (forall i :: 0 <= i < WINDOWS && t.own.pool.owner[i] != s.own.pool.owner[i] ==>
          || (req.AllocateTlb? && s.own.pool.owner[i] == None && t.own.pool.owner[i] == f != None)
          || (req == FreeTlb(i) && s.own.pool.owner[i] == f && t.own.pool.owner[i] == None)
          || (req.ResetDevice? && t.own.pool.owner[i] == None))
    && (Configuring(s.ioctl) ==> req == ConfigureTlb(s.ioctl.w.id) && f == Some(s.ioctl.h))
    // Mappings.
    && (forall m :: m in t.recs.listed && m !in s.recs.listed ==>
          f == Some(m.file) && AsksFor(req, m.proc, m.kind, m.tlb))
    && (forall m :: m in s.recs.listed && m !in t.recs.listed ==> f == Some(m.file) && req.UnmapBar?)
    // Register accesses under ArcLock.
    && (s.ioctl.Sect? && s.ioctl.sec.Touch? ==> JobOf(req, s.ioctl.sec.job))
    && (s.ioctl.Sect? && (s.ioctl.sec.Detect? || s.ioctl.sec.Program? || s.ioctl.sec.Loopback?) ==> req.PostReset?)
  }

  // Whatever runs beside it, every effect of an ioctl is its request's.
  lemma EffectsAreTheRequests(states: seq<State>, acts: seq<Action>, i: nat, j: nat, f: Option<Handle>, req: Request)
    requires IsRun(states, acts) && i < j < |acts| && acts[i] == Dispatch(f, req) && acts[j].Step?
    requires forall k :: i < k < j ==> !acts[k].Dispatch?
    ensures EffectsOf(states[j], states[j + 1], f, req)
  {
    hide Next, Enabled, EffectsOf, At, Inv;
    AtSince(states, acts, i, j, f, req);
    RunKeepsInv(states, acts, j);
    StepShows(states[j], acts[j].e, f, req);
  }

  lemma StepShows(s: State, e: Env, f: Option<Handle>, req: Request)
    requires Inv(s) && Enabled(s, Step(e)) && At(s.ioctl, f, req)
    ensures EffectsOf(s, Next(s, Step(e)), f, req)
  {
    if s.ioctl.Window? {
      WindowShows(s, s.ioctl.w, s.ioctl.h, e, f, req);
    } else if s.ioctl.Reset? {
      ResetShows(s, s.ioctl.r, e, f, req);
    } else if s.ioctl.Post? {
      PostShows(s, s.ioctl.p, e, f, req);
    } else {
      SectionShows(s, s.ioctl.sec, e, f, req);
    }
  }

  lemma WindowShows(s: State, w: WindowPc, h: Handle, e: Env, f: Option<Handle>, req: Request)
    requires PoolInv(s) && s.ioctl == Window(w, h) && At(s.ioctl, f, req)
    ensures EffectsOf(s, WindowStep(s, w, h, e), f, req)
  {
  }

  lemma ResetShows(s: State, r: ResetPc, e: Env, f: Option<Handle>, req: Request)
    requires s.ioctl == Reset(r, f) && req.ResetDevice?
    ensures EffectsOf(s, ResetStep(s, r, f, e), f, req)
  {
  }

  lemma PostShows(s: State, p: PostPc, e: Env, f: Option<Handle>, req: Request)
    requires PostInv(s) && s.ioctl == Post(p) && req.PostReset?
    ensures EffectsOf(s, PostStep(s, p, e), f, req)
  {
  }

  lemma SectionShows(s: State, sec: Critical, e: Env, f: Option<Handle>, req: Request)
    requires s.ioctl == Sect(sec) && SectionOf(req, sec)
    ensures EffectsOf(s, SectStep(s, sec, e), f, req)
  {
  }

  // ------------------------------------------------- each request does its own

  // A request of this handle gets past the fence and the allow-list.
  predicate Admits(s: State, f: Option<Handle>) {
    && s.ioctl.Idle? && s.hw.queue && s.hw.started && !s.restricted && s.arc == Free
    && (f.Some? ==> f.value in s.own.files && s.own.files[f.value] == s.own.gen)
  }

  // The request's first accesses, one after another, nothing else running.
  function Does(s: State, f: Option<Handle>, req: Request, es: seq<Env>): State
    requires Enabled(s, Dispatch(f, req))
  {
    if es == [] then Next(s, Dispatch(f, req))
    else IoctlStep(Does(s, f, req, es[..|es| - 1]), es[|es| - 1])
  }

  lemma DoesNext(s: State, f: Option<Handle>, req: Request, e: Env, e': Env, e'': Env)
    requires Enabled(s, Dispatch(f, req))
    ensures var t := Next(s, Dispatch(f, req));
            && Does(s, f, req, []) == t && Does(s, f, req, [e]) == IoctlStep(t, e)
            && Does(s, f, req, [e, e']) == IoctlStep(IoctlStep(t, e), e')
            && Does(s, f, req, [e, e', e'']) == IoctlStep(IoctlStep(IoctlStep(t, e), e'), e'')
  {
    hide Next, Enabled, IoctlStep;
    assert [e, e', e''][..2] == [e, e'] && [e, e'][..1] == [e] && [e][..0] == [];
  }

  lemma Starts(s: State, f: Option<Handle>, req: Request)
    requires Admits(s, f)
    ensures Enabled(s, Dispatch(f, req)) && Next(s, Dispatch(f, req)) == s.(ioctl := Handler(s, f, req))
  {
  }

  lemma AllocateWorks(s: State, h: Handle, e: Env)
    requires Admits(s, Some(h))
    ensures Does(s, Some(h), AllocateTlb, [e]) ==
              if Choice(s.own.pool).Some? then
                s.(own := s.own.(pool := Taken(s.own.pool, Choice(s.own.pool).value, h)))
              else s
  {
    hide Does, Next, Enabled, SectStep, ResetStep, PostStep, Choice, Taken;
    Starts(s, Some(h), AllocateTlb);
    DoesNext(s, Some(h), AllocateTlb, e, e, e);
  }

  lemma FreeWorks(s: State, h: Handle, id: nat, e: Env)
    requires Admits(s, Some(h))
    ensures Does(s, Some(h), FreeTlb(id), [e]) ==
              if Owns(s.own.pool, h, id) && !HasMappings(s.recs.listed, id) then
                s.(own := s.own.(pool := Freed(s.own.pool, id)))
              else s
  {
    hide Does, Next, Enabled, SectStep, ResetStep, PostStep, HasMappings;
    Starts(s, Some(h), FreeTlb(id));
    DoesNext(s, Some(h), FreeTlb(id), e, e, e);
  }

  lemma ConfigureWorks(s: State, h: Handle, id: nat, e: Env)
    requires Admits(s, Some(h))
    ensures Does(s, Some(h), ConfigureTlb(id), [e]) ==
              if Owns(s.own.pool, h, id) && s.hw.tlbRegs then s.(ioctl := Window(TConfigure(id), h)) else s
  {
    hide Does, Next, Enabled, SectStep, ResetStep, PostStep;
    Starts(s, Some(h), ConfigureTlb(id));
    DoesNext(s, Some(h), ConfigureTlb(id), e, e, e);
  }

  function Listing(s: State, m: Mapping): State {
    s.(recs := s.recs.(made := s.recs.made + 1, refs := s.recs.refs + multiset{m.proc},
                       listed := s.recs.listed + {m}), ioctl := Idle)
  }

  // The view is made, and its record listed with its reference held.
  lemma Makes(s: State, h: Handle, p: nat, kind: Kind, tlb: int, e: Env, b: Env)
    requires s.ioctl == Window(MMake(p, kind, tlb), h) && e.ok && (tlb >= 0 ==> Owns(s.own.pool, h, tlb))
    ensures IoctlStep(IoctlStep(s, e), b) == Listing(s, Mapping(s.recs.made, h, p, kind, tlb))
  {
    hide SectStep, ResetStep, PostStep;
    var m := Mapping(s.recs.made, h, p, kind, tlb);
    var t := IoctlStep(s, e);
    assert t == s.(recs := s.recs.(made := s.recs.made + 1, refs := s.recs.refs + multiset{p}),
                   ioctl := Window(MInsert(m), h));
  }

  lemma MapBarWorks(s: State, h: Handle, p: nat, e: Env, b: Env)
    requires Admits(s, Some(h)) && e.ok
    ensures Does(s, Some(h), MapBar(p), [e, b]) == Listing(s, Mapping(s.recs.made, h, p, Mdl, -1))
  {
    hide Does, Next, Enabled, IoctlStep;
    Starts(s, Some(h), MapBar(p));
    DoesNext(s, Some(h), MapBar(p), e, b, b);
    Makes(s.(ioctl := Window(MMake(p, Mdl, -1), h)), h, p, Mdl, -1, e, b);
  }

  lemma Checks(s: State, w: WindowPc, h: Handle, a: Env)
    requires s.ioctl == Window(w, h)
    ensures IoctlStep(s, a) == WindowStep(s, w, h, a)
  {
  }

  lemma MapTlbWorks(s: State, h: Handle, id: nat, p: nat, a: Env, e: Env, b: Env)
    requires Admits(s, Some(h)) && e.ok
    ensures if Owns(s.own.pool, h, id) then
              Does(s, Some(h), MapTlb(id, p), [a, e, b]) == Listing(s, Mapping(s.recs.made, h, p, Mdl, id))
            else Does(s, Some(h), MapTlb(id, p), [a]) == s
  {
    hide Does, Next, Enabled, IoctlStep;
    Starts(s, Some(h), MapTlb(id, p));
    DoesNext(s, Some(h), MapTlb(id, p), a, e, b);
    Checks(s.(ioctl := Window(MCheck(id, p), h)), MCheck(id, p), h, a);
    if Owns(s.own.pool, h, id) {
      Makes(s.(ioctl := Window(MMake(p, Mdl, id), h)), h, p, Mdl, id, e, b);
    }
  }

  lemma MapSysmemWorks(s: State, h: Handle, p: nat, a: Env, e: Env, b: Env)
    requires Admits(s, Some(h)) && e.ok
    ensures if s.sys.verified then
              Does(s, Some(h), MapSysmem(p), [a, e, b]) == Listing(s, Mapping(s.recs.made, h, p, Section, -1))
            else Does(s, Some(h), MapSysmem(p), [a]) == s
  {
    hide Does, Next, Enabled, IoctlStep;
    Starts(s, Some(h), MapSysmem(p));
    DoesNext(s, Some(h), MapSysmem(p), a, e, b);
    Checks(s.(ioctl := Window(MAvailable(p), h)), MAvailable(p), h, a);
    if s.sys.verified {
      Makes(s.(ioctl := Window(MMake(p, Section, -1), h)), h, p, Section, -1, e, b);
    }
  }

  lemma UnmapWorks(s: State, h: Handle, m: Mapping, a: Env, e: Env)
    requires Admits(s, Some(h)) && m in s.recs.listed && m.file == h && a.pick == Some(m)
    ensures Does(s, Some(h), UnmapBar, [a, e]) ==
              s.(recs := s.recs.(listed := s.recs.listed - {m}, refs := s.recs.refs - multiset{m.proc},
                                 gone := s.recs.gone + {m.id}))
  {
    hide Does, Next, Enabled, SectStep, ResetStep, PostStep;
    Starts(s, Some(h), UnmapBar);
    DoesNext(s, Some(h), UnmapBar, a, e, e);
  }

  // The three requests that work under ArcLock come to their own register
  // accesses with the hardware mapped, and otherwise to none.
  lemma SectionWorks(s: State, f: Option<Handle>, req: Request, a: Env, e: Env)
    requires Admits(s, f) && (req.SmcMsg? || req.ArcStatus? || req.SysmemStatus?)
    ensures var t := Does(s, f, req, [a, e]);
            && t == s.(arc := ByIoctl, ioctl := t.ioctl) && t.ioctl.Sect?
            && (t.ioctl.sec.Touch? <==> if req.SysmemStatus? then s.hw.bar2 else s.hw.kernelTlb && s.hw.tlbRegs)
            && (t.ioctl.sec.Touch? ==>
                  t.ioctl.sec.job == if req.SmcMsg? then Exchange(0, false)
                                     else if req.ArcStatus? then ArcReport else SysmemReport)
  {
    hide Does, Next, Enabled, WindowStep, ResetStep, PostStep;
    Starts(s, f, req);
    DoesNext(s, f, req, a, e, e);
  }

  // The two requests of the reset protocol come to their handlers, restricted
  // or not; the two that only report do nothing to the device.
  lemma ResetRequestsStart(s: State, f: Option<Handle>)
    requires Admits(s.(restricted := false), f)
    ensures Next(s, Dispatch(f, ResetDevice)) == s.(ioctl := Reset(RCheck, f))
    ensures Next(s, Dispatch(f, PostReset)) == s.(ioctl := Post(PLock))
    ensures Next(s, Dispatch(f, GetDeviceInfo)) == Next(s, Dispatch(f, QuerySysmem)) == s
  {
  }
}
