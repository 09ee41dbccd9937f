// The allocator of 2 MiB TLB windows: an owner slot and a bitmap bit per
// window, with the topmost window reserved for the kernel.
module WindowPool {
  import opened Prelude

  type Handle = nat

  const WINDOWS: nat := 202
  const KERNEL_WINDOW: nat := 201

  datatype Pool = Pool(owner: seq<Option<Handle>>, bits: seq<bool>)

  type Windows = p: Pool | |p.owner| == WINDOWS && |p.bits| == WINDOWS
    witness Pool(seq(WINDOWS, i => None), seq(WINDOWS, i => false))

  ghost predicate WellFormed(p: Windows) {
    && p.owner[KERNEL_WINDOW] == None
    && forall i :: 0 <= i < WINDOWS ==> (p.bits[i] <==> p.owner[i].Some? || i == KERNEL_WINDOW)
  }

  ghost predicate Unowned(p: Windows) {
    forall i :: 0 <= i < WINDOWS ==> p.owner[i] == None && (p.bits[i] <==> i == KERNEL_WINDOW)
  }

  function Reclaimed(): (p: Windows)
    ensures WellFormed(p) && Unowned(p)
  {
    Pool(seq(WINDOWS, i => None), seq(WINDOWS, i => i == KERNEL_WINDOW))
  }

  function FirstClear(bits: seq<bool>, start: nat): (r: nat)
    requires start <= |bits|
    ensures start <= r <= |bits|
    ensures forall j :: start <= j < r ==> bits[j]
    ensures r < |bits| ==> !bits[r]
    decreases |bits| - start
  {
    if start == |bits| || !bits[start] then start else FirstClear(bits, start + 1)
  }

  // The window an allocation takes, if any window is clear.
  function Choice(p: Windows): (r: Option<nat>) {
    var id := FirstClear(p.bits, 0);
    if id < WINDOWS then Some(id) else None
  }

  function Taken(p: Windows, id: nat, h: Handle): Windows
    requires id < WINDOWS
  {
    Pool(p.owner[id := Some(h)], p.bits[id := true])
  }

  function Freed(p: Windows, id: nat): Windows
    requires id < WINDOWS
  {
    Pool(p.owner[id := None], p.bits[id := false])
  }

  // Every window of handle h given back, all others untouched.
  function Released(p: Windows, h: Handle): (r: Windows)
  {
    Pool(seq(WINDOWS, i requires 0 <= i < WINDOWS => if p.owner[i] == Some(h) then None else p.owner[i]),
         seq(WINDOWS, i requires 0 <= i < WINDOWS => if p.owner[i] == Some(h) then false else p.bits[i]))
  }

  predicate Owns(p: Windows, h: Handle, id: nat) {
    id < WINDOWS && p.owner[id] == Some(h)
  }

  // ------------------------------------------------------ what they mean

  // An allocation fails exactly when every user window is owned; otherwise it
  // takes a window nobody owned, never the kernel's, and disturbs no other.
  lemma AllocationFailsIffAllOwned(p: Windows)
    requires WellFormed(p)
    ensures Choice(p) == None <==> forall i :: 0 <= i < KERNEL_WINDOW ==> p.owner[i].Some?
  {
  }

  lemma AllocationTakesAFreeWindow(p: Windows, h: Handle)
    requires WellFormed(p) && Choice(p).Some?
    ensures var id := Choice(p).value;
            && id < KERNEL_WINDOW && p.owner[id] == None
            && (forall j :: 0 <= j < id ==> p.owner[j].Some?)
            && WellFormed(Taken(p, id, h)) && Owns(Taken(p, id, h), h, id)
            && (forall g: Handle, i :: i != id ==> (Owns(Taken(p, id, h), g, i) <==> Owns(p, g, i)))
            && Freed(Taken(p, id, h), id) == p
  {
  }

  // Cleanup gives back all of a handle's windows and no others.
  lemma ReleaseGivesBackExactly(p: Windows, h: Handle)
    requires WellFormed(p)
    ensures WellFormed(Released(p, h))
    ensures forall g: Handle, i: nat :: Owns(Released(p, h), g, i) <==> g != h && Owns(p, g, i)
  {
  }

  // ---------------------------------------------------- the device context

  // TlbOwner and TlbBitmap of the device context, updated in place. Every
  // method is one critical section under StateLock.
  class Allocator {
    const owner: array<Option<Handle>>
    const bits: array<bool>

    ghost predicate Valid()
      reads this
    {
      owner.Length == WINDOWS && bits.Length == WINDOWS
    }

    ghost function Contents(): Windows
      requires Valid()
      reads this, owner, bits
    {
      Pool(owner[..], bits[..])
    }

    // TtWindMappingInitDevice
    constructor ()
      ensures Valid() && fresh(owner) && fresh(bits) && Contents() == Reclaimed()
    {
      owner := new Option<Handle>[WINDOWS](_ => None);
      bits := new bool[WINDOWS](_ => false);
      new;
      bits[KERNEL_WINDOW] := true;
      assert owner[..] == Reclaimed().owner && bits[..] == Reclaimed().bits;
    }

    method Allocate(h: Handle) returns (id: Option<nat>)
      requires Valid()
      modifies owner, bits
      ensures Valid() && id == Choice(old(Contents()))
      ensures Contents() == if id.Some? then Taken(old(Contents()), id.value, h) else old(Contents())
    {
      var i := 0;
      while i < WINDOWS && bits[i]
        invariant 0 <= i <= WINDOWS
        invariant FirstClear(bits[..], 0) == FirstClear(bits[..], i)
      {
        i := i + 1;
      }
      if i == WINDOWS {
        return None;
      }
      bits[i] := true;
      owner[i] := Some(h);
      return Some(i);
    }

    method CheckOwner(h: Handle, id: u32) returns (status: Status)
      requires Valid()
      ensures status == if id >= WINDOWS then InvalidParameter
                        else if Owns(Contents(), h, id) then Success else AccessDenied
    {
      if id >= WINDOWS {
        return InvalidParameter;
      }
      if owner[id] != Some(h) {
        return AccessDenied;
      }
      return Success;
    }

    method Free(h: Handle, id: u32, mapped: bool) returns (status: Status)
      requires Valid()
      modifies owner, bits
      ensures Valid()
      ensures status == if id >= WINDOWS then InvalidParameter
                        else if !Owns(old(Contents()), h, id) then AccessDenied
                        else if mapped then InvalidDeviceState else Success
      ensures Contents() == if status == Success then Freed(old(Contents()), id) else old(Contents())
    {
      status := CheckOwner(h, id);
      if status == Success {
        if mapped {
          status := InvalidDeviceState;
        } else {
          owner[id] := None;
          bits[id] := false;
        }
      }
    }

    // The window half of TtWindEvtFileCleanup.
    method ReleaseAll(h: Handle)
      requires Valid()
      modifies owner, bits
      ensures Valid() && Contents() == Released(old(Contents()), h)
    {
      ghost var was := Contents();
      for i := 0 to WINDOWS
        invariant forall j :: 0 <= j < i ==>
                    owner[j] == Released(was, h).owner[j] && bits[j] == Released(was, h).bits[j]
        invariant forall j :: i <= j < WINDOWS ==> owner[j] == was.owner[j] && bits[j] == was.bits[j]
      {
        if owner[i] == Some(h) {
          owner[i] := None;
          bits[i] := false;
        }
      }
      assert owner[..] == Released(was, h).owner && bits[..] == Released(was, h).bits;
    }

    // The reclaim of RESET_DEVICE and of the revocation at ReleaseHardware.
    method Reclaim()
      requires Valid()
      modifies owner, bits
      ensures Valid() && Contents() == Reclaimed()
    {
      for i := 0 to WINDOWS
        invariant forall j :: 0 <= j < i ==> owner[j] == None
      {
        owner[i] := None;
      }
      for i := 0 to WINDOWS
        invariant forall j :: 0 <= j < WINDOWS ==> owner[j] == None
        invariant forall j :: 0 <= j < i ==> !bits[j]
      {
        bits[i] := false;
      }
      bits[KERNEL_WINDOW] := true;
      assert owner[..] == Reclaimed().owner && bits[..] == Reclaimed().bits;
    }
  }
}
