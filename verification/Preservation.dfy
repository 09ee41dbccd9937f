// Every step of every thread keeps the invariant, family of steps by family.
module Preservation {
  import opened Prelude
  import opened WindowPool
  import opened Machine
  import opened Invariant

  lemma ResetKeepsChip(s: State, r: ResetPc, f: Option<Handle>, e: Env)
    requires ControlInv(s) && s.ioctl == Reset(r, f) && (r.RLock? ==> s.arc == Free)
    ensures var t := ResetStep(s, r, f, e); ChipInv(t) && BoardInv(t) && ReleaseInv(t)
  {
  }

  lemma ResetKeepsLocks(s: State, r: ResetPc, f: Option<Handle>, e: Env)
    requires ControlInv(s) && s.ioctl == Reset(r, f) && (r.RLock? ==> s.arc == Free)
    ensures var t := ResetStep(s, r, f, e); LockInv(t) && GuardInv(t)
  {
    hide ChipInv, BoardInv, ReleaseInv, ResetInv, PostInv, RestrictedInv;
  }

  lemma ResetKeepsPoints(s: State, r: ResetPc, f: Option<Handle>, e: Env)
    requires ResetInv(s) && RestrictedInv(s) && s.ioctl == Reset(r, f)
    ensures ResetInv(ResetStep(s, r, f, e))
  {
  }

  lemma ResetKeepsRestricted(s: State, r: ResetPc, f: Option<Handle>, e: Env)
    requires ControlInv(s) && s.ioctl == Reset(r, f)
    ensures var t := ResetStep(s, r, f, e); PostInv(t) && RestrictedInv(t)
  {
  }

  lemma ResetKeepsPool(s: State, r: ResetPc, f: Option<Handle>, e: Env)
    requires ControlInv(s) && PoolInv(s) && s.ioctl == Reset(r, f) && (r.RLock? ==> s.arc == Free)
    ensures var t := ResetStep(s, r, f, e); PoolInv(t)
  {
  }

  lemma BumpKeepsGeneration(s: State, r: ResetPc, f: Option<Handle>, e: Env)
    requires PoolInv(s) && GenerationInv(s) && s.ioctl == Reset(r, f) && s.recs.listed == {}
    requires r.RBump? || r.RReclaim? || r.RCarry?
    ensures GenerationInv(ResetStep(s, r, f, e))
  {
    var t := ResetStep(s, r, f, e);
    if r.RBump? {
      assert forall h :: h in t.own.files ==> t.own.files[h] < t.own.gen;
    } else if r.RReclaim? {
      assert forall i :: 0 <= i < WINDOWS ==> t.own.pool.owner[i] == None;
    } else {
      assert forall h :: h in t.own.files ==> f == Some(h) || t.own.files[h] == s.own.files[h];
    }
  }

  lemma ResetKeepsGeneration(s: State, r: ResetPc, f: Option<Handle>, e: Env)
    requires ResetInv(s) && PoolInv(s) && GenerationInv(s) && s.ioctl == Reset(r, f)
    ensures GenerationInv(ResetStep(s, r, f, e))
  {
    if r.RBump? || r.RReclaim? || r.RCarry? {
      BumpKeepsGeneration(s, r, f, e);
    } else {
      hide GenerationInv, PoolInv;
      SameOwnersKeepGeneration(s, ResetStep(s, r, f, e));
    }
  }

  lemma SameOwnersKeepGeneration(s: State, t: State)
    requires GenerationInv(s) && t.own == s.own && t.recs.listed == s.recs.listed
    requires !Bumped(s.ioctl) && !Bumped(t.ioctl) && !t.ioctl.Window?
    requires Requestor(t.ioctl) == None || Requestor(t.ioctl) == Requestor(s.ioctl)
    ensures GenerationInv(t)
  {
  }

  lemma ResetKeepsRecords(s: State, r: ResetPc, f: Option<Handle>, e: Env)
    requires ControlInv(s) && RecordInv(s) && s.ioctl == Reset(r, f) && (r.RLock? ==> s.arc == Free)
    ensures var t := ResetStep(s, r, f, e); RecordInv(t)
  {
  }

  lemma ResetKeepsConfig(s: State, r: ResetPc, f: Option<Handle>, e: Env)
    requires ControlInv(s) && ConfigInv(s) && s.ioctl == Reset(r, f) && (r.RLock? ==> s.arc == Free)
    ensures var t := ResetStep(s, r, f, e); ConfigInv(t)
  {
  }

  lemma ResetKeepsSysmem(s: State, r: ResetPc, f: Option<Handle>, e: Env)
    requires ControlInv(s) && SysmemInv(s) && s.ioctl == Reset(r, f) && (r.RLock? ==> s.arc == Free)
    ensures var t := ResetStep(s, r, f, e); SysmemInv(t)
  {
  }

  lemma ResetKeepsPoll(s: State, r: ResetPc, f: Option<Handle>, e: Env)
    requires ControlInv(s) && ConfigInv(s) && PollInv(s) && s.ioctl == Reset(r, f) && (r.RLock? ==> s.arc == Free)
    ensures var t := ResetStep(s, r, f, e); PollInv(t)
  {
  }

  lemma PostKeepsChip(s: State, p: PostPc, e: Env)
    requires ControlInv(s) && s.ioctl == Post(p) && (p.PLock? ==> s.arc == Free)
    ensures var t := PostStep(s, p, e); ChipInv(t) && BoardInv(t) && ReleaseInv(t)
  {
  }

  lemma PostKeepsLocks(s: State, p: PostPc, e: Env)
    requires ControlInv(s) && s.ioctl == Post(p) && (p.PLock? ==> s.arc == Free)
    ensures var t := PostStep(s, p, e); LockInv(t) && GuardInv(t)
  {
  }

  lemma PostKeepsPoints(s: State, p: PostPc, e: Env)
    requires ControlInv(s) && s.ioctl == Post(p) && (p.PLock? ==> s.arc == Free)
    ensures var t := PostStep(s, p, e); ResetInv(t) && PostInv(t) && RestrictedInv(t)
  {
    PostKeepsPost(s, p, e);
    PostKeepsRestricted(s, p, e);
    hide PostInv, RestrictedInv;
  }

  lemma PostKeepsPost(s: State, p: PostPc, e: Env)
    requires ChipInv(s) && BoardInv(s) && PostInv(s) && s.ioctl == Post(p)
    ensures PostInv(PostStep(s, p, e))
  {
    if p.PRestore? {
      RestoreKeepsPost(s, p.i, p.ok, e);
    }
  }

  lemma RestoreKeepsPost(s: State, i: nat, ok: bool, e: Env)
    requires PostInv(s) && s.ioctl == Post(PRestore(i, ok))
    ensures PostInv(RestoreStep(s, i, ok, e))
  {
  }

  lemma PostKeepsRestricted(s: State, p: PostPc, e: Env)
    requires PostInv(s) && RestrictedInv(s) && s.ioctl == Post(p)
    ensures RestrictedInv(PostStep(s, p, e))
  {
  }

  lemma PostKeepsPool(s: State, p: PostPc, e: Env)
    requires ControlInv(s) && PoolInv(s) && s.ioctl == Post(p) && (p.PLock? ==> s.arc == Free)
    ensures var t := PostStep(s, p, e); PoolInv(t)
  {
  }

  lemma PostKeepsGeneration(s: State, p: PostPc, e: Env)
    requires ControlInv(s) && OwnerInv(s) && s.ioctl == Post(p) && (p.PLock? ==> s.arc == Free)
    ensures var t := PostStep(s, p, e); GenerationInv(t)
  {
  }

  lemma PostKeepsRecords(s: State, p: PostPc, e: Env)
    requires ControlInv(s) && RecordInv(s) && s.ioctl == Post(p) && (p.PLock? ==> s.arc == Free)
    ensures var t := PostStep(s, p, e); RecordInv(t)
  {
  }

  lemma PostKeepsConfig(s: State, p: PostPc, e: Env)
    requires ControlInv(s) && ConfigInv(s) && s.ioctl == Post(p) && (p.PLock? ==> s.arc == Free)
    ensures var t := PostStep(s, p, e); ConfigInv(t)
  {
    if p.PRestore? {
      RestoreKeepsConfig(s, p.i, p.ok, e);
    }
  }

  lemma RestoreKeepsConfig(s: State, i: nat, ok: bool, e: Env)
    requires ChipInv(s) && BoardInv(s) && PostInv(s) && ConfigInv(s) && s.ioctl == Post(PRestore(i, ok))
    ensures ConfigInv(RestoreStep(s, i, ok, e))
  {
  }

  lemma PostKeepsSysmem(s: State, p: PostPc, e: Env)
    requires ControlInv(s) && SysmemInv(s) && s.ioctl == Post(p) && (p.PLock? ==> s.arc == Free)
    ensures var t := PostStep(s, p, e); SysmemInv(t)
  {
  }

  // Recording an answer keeps the shape of the answers given so far.
  lemma AnswerKeepsPoll(s: State, e: Env)
    requires PollInv(s) && PostInv(s) && Answering(s.ioctl)
    ensures PollInv(PostStep(s, s.ioctl.p, e))
  {
    var log, a := s.polls.log, s.ioctl.p.answer;
    assert forall i :: 0 <= i < |log| ==> (log + [a])[i] == log[i];
  }

  lemma PostKeepsPoll(s: State, p: PostPc, e: Env)
    requires ControlInv(s) && ConfigInv(s) && PollInv(s) && s.ioctl == Post(p)
    ensures PollInv(PostStep(s, p, e))
  {
    if p.PUnlock? {
      AnswerKeepsPoll(s, e);
    } else {
      assert PostStep(s, p, e).polls.log == s.polls.log;
    }
  }

  lemma WindowKeepsChip(s: State, w: WindowPc, h: Handle, e: Env)
    requires ControlInv(s) && s.ioctl == Window(w, h)
    ensures var t := WindowStep(s, w, h, e); ChipInv(t) && BoardInv(t) && ReleaseInv(t)
  {
  }

  lemma WindowKeepsLocks(s: State, w: WindowPc, h: Handle, e: Env)
    requires ControlInv(s) && s.ioctl == Window(w, h)
    ensures var t := WindowStep(s, w, h, e); LockInv(t) && GuardInv(t)
  {
  }

  lemma WindowKeepsPoints(s: State, w: WindowPc, h: Handle, e: Env)
    requires ControlInv(s) && s.ioctl == Window(w, h)
    ensures var t := WindowStep(s, w, h, e); ResetInv(t) && PostInv(t) && RestrictedInv(t)
  {
  }

  lemma WindowKeepsPool(s: State, w: WindowPc, h: Handle, e: Env)
    requires ControlInv(s) && PoolInv(s) && s.ioctl == Window(w, h)
    ensures var t := WindowStep(s, w, h, e); PoolInv(t)
  {
  }

  lemma WindowKeepsGeneration(s: State, w: WindowPc, h: Handle, e: Env)
    requires OwnerInv(s) && s.ioctl == Window(w, h)
    ensures GenerationInv(WindowStep(s, w, h, e))
  {
    if w.TAllocate? || w.TFree? {
      PoolStepKeepsGeneration(s, w, h, e);
    } else {
      assert WindowStep(s, w, h, e).own == s.own;
    }
  }

  lemma PoolStepKeepsGeneration(s: State, w: WindowPc, h: Handle, e: Env)
    requires OwnerInv(s) && s.ioctl == Window(w, h) && (w.TAllocate? || w.TFree?)
    ensures GenerationInv(WindowStep(s, w, h, e))
  {
  }

  lemma DestroyKeepsNumbered(r: Records, views: set<Mapping>, m: Mapping)
    requires Numbered(r, views) && m in views
    ensures Numbered(Destroyed(r, m), views - {m})
  {
  }

  lemma WindowKeepsApart(s: State, w: WindowPc, h: Handle, e: Env)
    requires RecordInv(s) && s.ioctl == Window(w, h)
    ensures var t := WindowStep(s, w, h, e); Apart(t.recs, InHand(t.ioctl))
  {
  }

  lemma WindowKeepsNumbered(s: State, w: WindowPc, h: Handle, e: Env)
    requires RecordInv(s) && s.ioctl == Window(w, h)
    ensures var t := WindowStep(s, w, h, e); Numbered(t.recs, Views(t))
  {
    var t := WindowStep(s, w, h, e);
    WindowViews(s, w, h, e);
    match w
    case MBackout(m) => DestroyKeepsNumbered(s.recs, Views(s), m);
    case UDestroy(m) => DestroyKeepsNumbered(s.recs, Views(s), m);
    case MMake(_, _, _) =>
    case _ => assert t.recs.gone == s.recs.gone && t.recs.made == s.recs.made;
  }

  lemma WindowKeepsRecords(s: State, w: WindowPc, h: Handle, e: Env)
    requires RecordInv(s) && s.ioctl == Window(w, h)
    ensures RecordInv(WindowStep(s, w, h, e))
  {
    hide Apart, Numbered;
    WindowKeepsApart(s, w, h, e);
    WindowKeepsNumbered(s, w, h, e);
  }

  // Which user views a window ioctl's step creates or unmaps.
  lemma WindowViews(s: State, w: WindowPc, h: Handle, e: Env)
    requires RecordInv(s) && s.ioctl == Window(w, h)
    ensures var t := WindowStep(s, w, h, e);
            Views(t) == match w
              case MMake(proc, kind, tlb) =>
                Views(s) + (if e.ok then {Mapping(s.recs.made, h, proc, kind, tlb)} else {})
              case MBackout(m) => Views(s) - {m}
              case UDestroy(m) => Views(s) - {m}
              case _ => Views(s)
  {
  }

  lemma WindowKeepsConfig(s: State, w: WindowPc, h: Handle, e: Env)
    requires ControlInv(s) && ConfigInv(s) && s.ioctl == Window(w, h)
    ensures var t := WindowStep(s, w, h, e); ConfigInv(t)
  {
  }

  lemma WindowKeepsSysmem(s: State, w: WindowPc, h: Handle, e: Env)
    requires ControlInv(s) && SysmemInv(s) && s.ioctl == Window(w, h)
    ensures var t := WindowStep(s, w, h, e); SysmemInv(t)
  {
  }

  lemma WindowKeepsPoll(s: State, w: WindowPc, h: Handle, e: Env)
    requires ControlInv(s) && ConfigInv(s) && PollInv(s) && s.ioctl == Window(w, h)
    ensures var t := WindowStep(s, w, h, e); PollInv(t)
  {
  }

  lemma SectKeepsControl(s: State, c: Critical, e: Env)
    requires ControlInv(s) && s.ioctl == Sect(c) && (c.Acquire? ==> s.arc == Free)
    ensures var t := SectStep(s, c, e); ControlInv(t)
  {
  }

  lemma SectKeepsOwners(s: State, c: Critical, e: Env)
    requires ControlInv(s) && OwnerInv(s) && RecordInv(s) && s.ioctl == Sect(c) && (c.Acquire? ==> s.arc == Free)
    ensures var t := SectStep(s, c, e); OwnerInv(t) && RecordInv(t)
  {
  }

  lemma SectKeepsData(s: State, c: Critical, e: Env)
    requires ControlInv(s) && DataInv(s) && s.ioctl == Sect(c) && (c.Acquire? ==> s.arc == Free)
    ensures var t := SectStep(s, c, e); DataInv(t)
  {
  }

  lemma PowerKeepsControl(s: State, c: Critical, e: Env)
    requires ControlInv(s) && s.power == PowerSect(c) && (c.Acquire? ==> s.arc == Free)
    ensures var t := PowerSectStep(s, c, e); ControlInv(t)
  {
  }

  lemma PowerKeepsOwners(s: State, c: Critical, e: Env)
    requires ControlInv(s) && OwnerInv(s) && RecordInv(s) && s.power == PowerSect(c) && (c.Acquire? ==> s.arc == Free)
    ensures var t := PowerSectStep(s, c, e); OwnerInv(t) && RecordInv(t)
  {
  }

  lemma PowerKeepsData(s: State, c: Critical, e: Env)
    requires ControlInv(s) && DataInv(s) && s.power == PowerSect(c) && (c.Acquire? ==> s.arc == Free)
    ensures var t := PowerSectStep(s, c, e); DataInv(t)
  {
  }

  lemma ReleaseKeepsControl(s: State, x: Release, e: Env)
    requires ControlInv(s) && s.power == Releasing(x) && (x.XLock? ==> s.arc == Free)
    ensures var t := ReleaseStep(s, x, e); ControlInv(t)
  {
    hide ReleaseInv, GuardInv, ResetInv, PostInv, RestrictedInv;
    ReleaseKeepsRelease(s, x, e);
    ReleaseKeepsHandlers(s, x, e);
  }

  lemma ReleaseKeepsRelease(s: State, x: Release, e: Env)
    requires LockInv(s) && ReleaseInv(s) && s.power == Releasing(x)
    ensures ReleaseInv(ReleaseStep(s, x, e))
  {
  }

  lemma ReleaseKeepsHandlers(s: State, x: Release, e: Env)
    requires ControlInv(s) && s.power == Releasing(x)
    ensures var t := ReleaseStep(s, x, e); GuardInv(t) && ResetInv(t) && PostInv(t) && RestrictedInv(t)
  {
  }

  lemma ReleaseKeepsOwners(s: State, x: Release, e: Env)
    requires ControlInv(s) && OwnerInv(s) && s.power == Releasing(x) && (x.XLock? ==> s.arc == Free)
    ensures var t := ReleaseStep(s, x, e); OwnerInv(t)
  {
  }

  lemma ReleaseKeepsRecords(s: State, x: Release, e: Env)
    requires ControlInv(s) && RecordInv(s) && s.power == Releasing(x) && (x.XLock? ==> s.arc == Free)
    ensures var t := ReleaseStep(s, x, e); RecordInv(t)
  {
  }

  lemma ReleaseKeepsData(s: State, x: Release, e: Env)
    requires ControlInv(s) && DataInv(s) && s.power == Releasing(x) && (x.XLock? ==> s.arc == Free)
    ensures var t := ReleaseStep(s, x, e); DataInv(t)
  {
  }

  lemma DispatchKeepsControl(s: State, f: Option<Handle>, req: Request)
    requires ControlInv(s) && Enabled(s, Dispatch(f, req))
    ensures var t := Dispatched(s, f, req); ControlInv(t)
  {
  }

  lemma DispatchKeepsOwners(s: State, f: Option<Handle>, req: Request)
    requires ControlInv(s) && OwnerInv(s) && Enabled(s, Dispatch(f, req))
    ensures var t := Dispatched(s, f, req); OwnerInv(t)
  {
  }

  lemma DispatchKeepsRecords(s: State, f: Option<Handle>, req: Request)
    requires ControlInv(s) && RecordInv(s) && Enabled(s, Dispatch(f, req))
    ensures var t := Dispatched(s, f, req); RecordInv(t)
  {
  }

  lemma DispatchKeepsData(s: State, f: Option<Handle>, req: Request)
    requires ControlInv(s) && DataInv(s) && Enabled(s, Dispatch(f, req))
    ensures var t := Dispatched(s, f, req); DataInv(t)
  {
  }

  lemma WorldKeepsControl(s: State, a: Action)
    requires ControlInv(s) && Enabled(s, a) && (a.Fire? || a.Return? || a.Begin? || a.Prepare?)
    ensures var t := Next(s, a); ControlInv(t)
  {
    WorldKeepsLocks(s, a);
    WorldKeepsPoints(s, a);
    hide Next, Enabled, LockInv, GuardInv, ChipInv, ResetInv, PostInv, ReleaseInv, RestrictedInv;
  }

  lemma WorldKeepsLocks(s: State, a: Action)
    requires ControlInv(s) && Enabled(s, a) && (a.Fire? || a.Return? || a.Begin? || a.Prepare?)
    ensures var t := Next(s, a); ChipInv(t) && BoardInv(t) && LockInv(t) && ReleaseInv(t) && GuardInv(t)
  {
    hide PostInv, RestrictedInv;
  }

  lemma WorldKeepsPoints(s: State, a: Action)
    requires ControlInv(s) && Enabled(s, a) && (a.Fire? || a.Return? || a.Begin? || a.Prepare?)
    ensures var t := Next(s, a); ResetInv(t) && PostInv(t) && RestrictedInv(t)
  {
  }

  lemma WorldKeepsOwners(s: State, a: Action)
    requires ControlInv(s) && OwnerInv(s) && Enabled(s, a) && (a.Fire? || a.Return? || a.Begin? || a.Prepare?)
    ensures var t := Next(s, a); OwnerInv(t)
  {
  }

  lemma WorldKeepsRecords(s: State, a: Action)
    requires ControlInv(s) && RecordInv(s) && Enabled(s, a) && (a.Fire? || a.Return? || a.Begin? || a.Prepare?)
    ensures var t := Next(s, a); RecordInv(t)
  {
  }

  lemma WorldKeepsData(s: State, a: Action)
    requires ControlInv(s) && DataInv(s) && Enabled(s, a) && (a.Fire? || a.Return? || a.Begin? || a.Prepare?)
    ensures var t := Next(s, a); DataInv(t)
  {
    hide Next, Enabled, ControlInv, ConfigInv, SysmemInv, PollInv;
    WorldKeepsConfig(s, a);
    WorldKeepsSysmem(s, a);
    WorldKeepsPoll(s, a);
  }

  lemma WorldKeepsConfig(s: State, a: Action)
    requires ControlInv(s) && ConfigInv(s) && Enabled(s, a) && (a.Fire? || a.Return? || a.Begin? || a.Prepare?)
    ensures var t := Next(s, a); ConfigInv(t)
  {
  }

  lemma WorldKeepsSysmem(s: State, a: Action)
    requires ControlInv(s) && SysmemInv(s) && Enabled(s, a) && (a.Fire? || a.Return? || a.Begin? || a.Prepare?)
    ensures var t := Next(s, a); SysmemInv(t)
  {
  }

  lemma WorldKeepsPoll(s: State, a: Action)
    requires ControlInv(s) && PollInv(s) && Enabled(s, a) && (a.Fire? || a.Return? || a.Begin? || a.Prepare?)
    ensures var t := Next(s, a); PollInv(t)
  {
  }

  lemma HandleKeepsControl(s: State, a: Action)
    requires ControlInv(s) && Enabled(s, a) && (a.Open? || a.Cleanup? || a.UnmapView?)
    ensures var t := Next(s, a); ControlInv(t)
  {
  }

  lemma HandleKeepsOwners(s: State, a: Action)
    requires ControlInv(s) && OwnerInv(s) && Enabled(s, a) && (a.Open? || a.Cleanup? || a.UnmapView?)
    ensures var t := Next(s, a); OwnerInv(t)
  {
  }

  lemma HandleKeepsRecords(s: State, a: Action)
    requires ControlInv(s) && RecordInv(s) && Enabled(s, a) && (a.Open? || a.Cleanup? || a.UnmapView?)
    ensures var t := Next(s, a); RecordInv(t)
  {
  }

  lemma HandleKeepsData(s: State, a: Action)
    requires ControlInv(s) && DataInv(s) && Enabled(s, a) && (a.Open? || a.Cleanup? || a.UnmapView?)
    ensures var t := Next(s, a); DataInv(t)
  {
  }

  // ------------------------------------------------- process references

  lemma AddView(refs: multiset<nat>, views: set<Mapping>, m: Mapping)
    requires Referenced(refs, views) && m !in views
    ensures Referenced(refs + multiset{m.proc}, views + {m})
  {
    forall p: nat ensures (refs + multiset{m.proc})[p] == |OfProcess(views + {m}, p)| {
      assert OfProcess(views + {m}, p) == OfProcess(views, p) + if p == m.proc then {m} else {};
    }
  }

  lemma DropView(refs: multiset<nat>, views: set<Mapping>, m: Mapping)
    requires Referenced(refs, views) && m in views
    ensures Referenced(refs - multiset{m.proc}, views - {m})
  {
    forall p: nat ensures (refs - multiset{m.proc})[p] == |OfProcess(views - {m}, p)| {
      assert OfProcess(views, p) == OfProcess(views - {m}, p) + if p == m.proc then {m} else {};
    }
  }

  lemma WindowKeepsReferences(s: State, w: WindowPc, h: Handle, e: Env)
    requires RecordInv(s) && ReferenceInv(s) && s.ioctl == Window(w, h)
    ensures ReferenceInv(WindowStep(s, w, h, e))
  {
    WindowViews(s, w, h, e);
    match w
    case MMake(proc, kind, tlb) =>
      if e.ok {
        AddView(s.recs.refs, Views(s), Mapping(s.recs.made, h, proc, kind, tlb));
      }
    case MBackout(m) => DropView(s.recs.refs, Views(s), m);
    case UDestroy(m) => DropView(s.recs.refs, Views(s), m);
    case _ => assert WindowStep(s, w, h, e).recs.refs == s.recs.refs;
  }

  lemma ReleaseKeepsReferences(s: State, x: Release, e: Env)
    requires ReleaseInv(s) && RecordInv(s) && ReferenceInv(s) && s.power == Releasing(x)
    ensures ReferenceInv(ReleaseStep(s, x, e))
  {
    ReleaseViews(s, x, e);
    hide ReleaseStep, ReleaseInv, RecordInv, Views, Referenced;
    if x.XDestroy? && e.pick.Some? && e.pick.value in s.recs.revoking {
      DropView(s.recs.refs, Views(s), e.pick.value);
    }
  }

  lemma ReleaseViews(s: State, x: Release, e: Env)
    requires ReleaseInv(s) && RecordInv(s) && s.power == Releasing(x)
    ensures var t := ReleaseStep(s, x, e);
            if x.XDestroy? && e.pick.Some? && e.pick.value in s.recs.revoking then
              && e.pick.value in Views(s) && Views(t) == Views(s) - {e.pick.value}
              && t.recs.refs == s.recs.refs - multiset{e.pick.value.proc}
            else Views(t) == Views(s) && t.recs.refs == s.recs.refs
  {
  }

  lemma HandleKeepsReferences(s: State, a: Action)
    requires RecordInv(s) && ReferenceInv(s)
    requires Enabled(s, a) && (a.Open? || a.Cleanup? || a.UnmapView?)
    ensures ReferenceInv(Next(s, a))
  {
    var t := Next(s, a);
    if a.UnmapView? {
      DropView(s.recs.refs, Views(s), a.m);
      assert Views(t) == Views(s) - {a.m};
    } else {
      assert Views(t) == Views(s);
    }
  }

  // Steps that create no view, unmap none and move none.
  lemma ResetKeepsReferences(s: State, r: ResetPc, f: Option<Handle>, e: Env)
    requires ReferenceInv(s) && s.ioctl == Reset(r, f)
    ensures ReferenceInv(ResetStep(s, r, f, e))
  {
    assert Views(ResetStep(s, r, f, e)) == Views(s);
  }

  lemma PostKeepsReferences(s: State, p: PostPc, e: Env)
    requires ReferenceInv(s) && s.ioctl == Post(p)
    ensures ReferenceInv(PostStep(s, p, e))
  {
    PostKeepsViews(s, p, e);
    hide PostStep, Views, Referenced;
  }

  lemma PostKeepsViews(s: State, p: PostPc, e: Env)
    requires s.ioctl == Post(p)
    ensures Views(PostStep(s, p, e)) == Views(s) && PostStep(s, p, e).recs == s.recs
  {
  }

  lemma SectKeepsReferences(s: State, c: Critical, e: Env)
    requires ReferenceInv(s) && s.ioctl == Sect(c)
    ensures ReferenceInv(SectStep(s, c, e))
  {
    assert Views(SectStep(s, c, e)) == Views(s);
  }

  lemma PowerKeepsReferences(s: State, c: Critical, e: Env)
    requires ReferenceInv(s) && s.power == PowerSect(c)
    ensures ReferenceInv(PowerSectStep(s, c, e))
  {
    assert Views(PowerSectStep(s, c, e)) == Views(s);
  }

  lemma DispatchKeepsReferences(s: State, f: Option<Handle>, req: Request)
    requires ReferenceInv(s) && Enabled(s, Dispatch(f, req))
    ensures ReferenceInv(Dispatched(s, f, req))
  {
    assert Views(Dispatched(s, f, req)) == Views(s);
  }

  lemma WorldKeepsReferences(s: State, a: Action)
    requires ReferenceInv(s) && Enabled(s, a) && (a.Fire? || a.Return? || a.Begin? || a.Prepare?)
    ensures ReferenceInv(Next(s, a))
  {
    assert Views(Next(s, a)) == Views(s);
  }

  // ------------------------------------------------------------ every step

  lemma ResetKeeps(s: State, r: ResetPc, f: Option<Handle>, e: Env)
    requires Inv(s) && s.ioctl == Reset(r, f) && (r.RLock? ==> s.arc == Free)
    ensures Inv(ResetStep(s, r, f, e))
  {
    hide ChipInv, BoardInv, LockInv, ReleaseInv, GuardInv, ResetInv, PostInv, RestrictedInv, PoolInv, GenerationInv;
    hide RecordInv, ReferenceInv, ConfigInv, SysmemInv, PollInv;
    ResetKeepsChip(s, r, f, e);
    ResetKeepsLocks(s, r, f, e);
    ResetKeepsPoints(s, r, f, e);
    ResetKeepsPool(s, r, f, e);
    ResetKeepsGeneration(s, r, f, e);
    ResetKeepsRecords(s, r, f, e);
    ResetKeepsReferences(s, r, f, e);
    ResetKeepsConfig(s, r, f, e);
    ResetKeepsSysmem(s, r, f, e);
    ResetKeepsPoll(s, r, f, e);
    ResetKeepsRestricted(s, r, f, e);
  }

  lemma PostKeeps(s: State, p: PostPc, e: Env)
    requires Inv(s) && s.ioctl == Post(p) && (p.PLock? ==> s.arc == Free)
    ensures Inv(PostStep(s, p, e))
  {
    hide ChipInv, BoardInv, LockInv, ReleaseInv, GuardInv, ResetInv, PostInv, RestrictedInv, PoolInv, GenerationInv;
    hide RecordInv, ReferenceInv, ConfigInv, SysmemInv, PollInv;
    PostKeepsChip(s, p, e);
    PostKeepsLocks(s, p, e);
    PostKeepsPoints(s, p, e);
    PostKeepsPool(s, p, e);
    PostKeepsGeneration(s, p, e);
    PostKeepsRecords(s, p, e);
    PostKeepsReferences(s, p, e);
    PostKeepsConfig(s, p, e);
    PostKeepsSysmem(s, p, e);
    PostKeepsPoll(s, p, e);
  }

  lemma WindowKeeps(s: State, w: WindowPc, h: Handle, e: Env)
    requires Inv(s) && s.ioctl == Window(w, h)
    ensures Inv(WindowStep(s, w, h, e))
  {
    hide ChipInv, BoardInv, LockInv, ReleaseInv, GuardInv, ResetInv, PostInv, RestrictedInv, PoolInv, GenerationInv;
    hide RecordInv, ReferenceInv, ConfigInv, SysmemInv, PollInv;
    WindowKeepsChip(s, w, h, e);
    WindowKeepsLocks(s, w, h, e);
    WindowKeepsPoints(s, w, h, e);
    WindowKeepsPool(s, w, h, e);
    WindowKeepsGeneration(s, w, h, e);
    WindowKeepsRecords(s, w, h, e);
    WindowKeepsReferences(s, w, h, e);
    WindowKeepsConfig(s, w, h, e);
    WindowKeepsSysmem(s, w, h, e);
    WindowKeepsPoll(s, w, h, e);
  }

  lemma SectKeeps(s: State, c: Critical, e: Env)
    requires Inv(s) && s.ioctl == Sect(c) && (c.Acquire? ==> s.arc == Free)
    ensures Inv(SectStep(s, c, e))
  {
    hide ChipInv, BoardInv, LockInv, ReleaseInv, GuardInv, ResetInv, PostInv, RestrictedInv, PoolInv, GenerationInv;
    hide RecordInv, ReferenceInv, ConfigInv, SysmemInv, PollInv;
    SectKeepsControl(s, c, e);
    SectKeepsOwners(s, c, e);
    SectKeepsReferences(s, c, e);
    SectKeepsData(s, c, e);
  }

  lemma PowerKeeps(s: State, c: Critical, e: Env)
    requires Inv(s) && s.power == PowerSect(c) && (c.Acquire? ==> s.arc == Free)
    ensures Inv(PowerSectStep(s, c, e))
  {
    hide ChipInv, BoardInv, LockInv, ReleaseInv, GuardInv, ResetInv, PostInv, RestrictedInv, PoolInv, GenerationInv;
    hide RecordInv, ReferenceInv, ConfigInv, SysmemInv, PollInv;
    PowerKeepsControl(s, c, e);
    PowerKeepsOwners(s, c, e);
    PowerKeepsReferences(s, c, e);
    PowerKeepsData(s, c, e);
  }

  lemma ReleaseKeeps(s: State, x: Release, e: Env)
    requires Inv(s) && s.power == Releasing(x) && (x.XLock? ==> s.arc == Free)
    ensures Inv(ReleaseStep(s, x, e))
  {
    hide ChipInv, BoardInv, LockInv, ReleaseInv, GuardInv, ResetInv, PostInv, RestrictedInv, PoolInv, GenerationInv;
    hide RecordInv, ReferenceInv, ConfigInv, SysmemInv, PollInv;
    ReleaseKeepsControl(s, x, e);
    ReleaseKeepsOwners(s, x, e);
    ReleaseKeepsRecords(s, x, e);
    ReleaseKeepsReferences(s, x, e);
    ReleaseKeepsData(s, x, e);
  }

  lemma DispatchKeeps(s: State, f: Option<Handle>, req: Request)
    requires Inv(s) && Enabled(s, Dispatch(f, req))
    ensures Inv(Dispatched(s, f, req))
  {
    hide ChipInv, BoardInv, LockInv, ReleaseInv, GuardInv, ResetInv, PostInv, RestrictedInv, PoolInv, GenerationInv;
    hide RecordInv, ReferenceInv, ConfigInv, SysmemInv, PollInv;
    DispatchKeepsControl(s, f, req);
    DispatchKeepsOwners(s, f, req);
    DispatchKeepsRecords(s, f, req);
    DispatchKeepsReferences(s, f, req);
    DispatchKeepsData(s, f, req);
  }

  lemma WorldKeeps(s: State, a: Action)
    requires Inv(s) && Enabled(s, a) && (a.Fire? || a.Return? || a.Begin? || a.Prepare?)
    ensures Inv(Next(s, a))
  {
    hide ChipInv, BoardInv, LockInv, ReleaseInv, GuardInv, ResetInv, PostInv, RestrictedInv, PoolInv, GenerationInv;
    hide RecordInv, ReferenceInv, ConfigInv, SysmemInv, PollInv;
    WorldKeepsControl(s, a);
    WorldKeepsOwners(s, a);
    WorldKeepsRecords(s, a);
    WorldKeepsReferences(s, a);
    WorldKeepsData(s, a);
  }

  lemma HandleKeeps(s: State, a: Action)
    requires Inv(s) && Enabled(s, a) && (a.Open? || a.Cleanup? || a.UnmapView?)
    ensures Inv(Next(s, a))
  {
    hide ChipInv, BoardInv, LockInv, ReleaseInv, GuardInv, ResetInv, PostInv, RestrictedInv, PoolInv, GenerationInv;
    hide RecordInv, ReferenceInv, ConfigInv, SysmemInv, PollInv;
    HandleKeepsControl(s, a);
    HandleKeepsOwners(s, a);
    HandleKeepsRecords(s, a);
    HandleKeepsReferences(s, a);
    HandleKeepsData(s, a);
  }

  // The invariant is inductive: whatever thread or chip moves next.
  lemma NextKeepsInv(s: State, a: Action)
    requires Inv(s) && Enabled(s, a)
    ensures Inv(Next(s, a))
  {
    hide Inv;
    match a
    case Step(e) =>
      match s.ioctl {
        case Reset(r, f) => ResetKeeps(s, r, f, e);
        case Post(p) => PostKeeps(s, p, e);
        case Window(w, h) => WindowKeeps(s, w, h, e);
        case Sect(c) => SectKeeps(s, c, e);
      }
    case PowerStep(e) =>
      match s.power {
        case PowerSect(c) => PowerKeeps(s, c, e);
        case Releasing(x) => ReleaseKeeps(s, x, e);
      }
    case Dispatch(f, req) => DispatchKeeps(s, f, req);
    case _ =>
      if a.Open? || a.Cleanup? || a.UnmapView? {
        HandleKeeps(s, a);
      } else {
        WorldKeeps(s, a);
      }
  }
}
