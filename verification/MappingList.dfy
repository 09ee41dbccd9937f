// The device's list of user mappings: a circular doubly linked list through
// the records themselves, edited in place.
module MappingList {
  import opened Prelude
  import opened WindowPool

  // A mapping record with its list entry. A list's head is an entry too; its
  // other fields mean nothing.
  class Record {
    const file: Option<Handle>
    const proc: nat
    const va: nat
    const tlb: int            // window, or -1
    var next: Record
    var prev: Record

    constructor (file: Option<Handle>, proc: nat, va: nat, tlb: int)
      ensures this.file == file && this.proc == proc && this.va == va && this.tlb == tlb
      ensures next == this && prev == this
    {
      this.file, this.proc, this.va, this.tlb := file, proc, va, tlb;
      next, prev := this, this;
    }
  }

  ghost predicate Distinct(head: Record, s: seq<Record>) {
    && head !in s
    && forall i, j :: 0 <= i < j < |s| ==> s[i] != s[j]
  }

  // The list at `head` holds exactly `s`, in order, both ways round.
  ghost predicate Linked(head: Record, s: seq<Record>)
    reads head, s
  {
    && Distinct(head, s)
    && head.next == First(head, s) && head.prev == Last(head, s)
    && First(head, s).prev == head && Last(head, s).next == head
    && forall i, j :: 0 <= i < j < |s| && j == i + 1 ==> s[i].next == s[j] && s[j].prev == s[i]
  }

  ghost function First(head: Record, s: seq<Record>): Record {
    if s == [] then head else s[0]
  }

  ghost function Last(head: Record, s: seq<Record>): Record {
    if s == [] then head else s[|s| - 1]
  }

  method InsertTail(head: Record, e: Record, ghost s: seq<Record>)
    requires Linked(head, s) && e != head && e !in s
    modifies head, e, Last(head, s)
    ensures Linked(head, s + [e])
  {
    var last := head.prev;
    e.next, e.prev := head, last;
    last.next := e;
    head.prev := e;
  }

  method RemoveEntry(e: Record, ghost head: Record, ghost before: seq<Record>, ghost after: seq<Record>)
    requires Linked(head, before + [e] + after)
    modifies Last(head, before), First(head, after)
    ensures Linked(head, before + after)
  {
    ghost var s, t, k := before + [e] + after, before + after, |before|;
    assert e == s[k];
    assert before != [] ==> Last(head, before) == s[k - 1];
    assert after != [] ==> First(head, after) == s[k + 1];
    forall i | 0 <= i < |t| ensures t[i] == s[if i < k then i else i + 1] { }
    e.prev.next := e.next;
    e.next.prev := e.prev;
    assert |t| > 0 ==> First(head, t) == s[if k == 0 then 1 else 0];
    assert |t| > 0 ==> Last(head, t) == s[if k < |t| then |t| else |t| - 1];
  }

  method RemoveHead(head: Record, ghost s: seq<Record>) returns (e: Record)
    requires Linked(head, s) && s != []
    modifies head, First(head, s[1..])
    ensures e == s[0] && Linked(head, s[1..])
  {
    e := head.next;
    assert s == [] + [e] + s[1..] && s[1..] == [] + s[1..];
    RemoveEntry(e, head, [], s[1..]);
  }

  // ---------------------------------------------------------- two algorithms

  // The records of a handle, and the others, each in list order.
  function Owned(s: seq<Record>, f: Option<Handle>): (o: seq<Record>)
    ensures forall r <- o :: r in s && r.file == f
  {
    if s == [] then []
    else Owned(s[..|s| - 1], f) + if s[|s| - 1].file == f then [s[|s| - 1]] else []
  }

  function Kept(s: seq<Record>, f: Option<Handle>): (k: seq<Record>)
    ensures forall r <- k :: r in s && r.file != f
  {
    if s == [] then []
    else Kept(s[..|s| - 1], f) + if s[|s| - 1].file == f then [] else [s[|s| - 1]]
  }

  // The partition of a list from that of the list without its last record.
  lemma LastOwned(t: seq<Record>, r: Record, f: Option<Handle>)
    ensures Owned(t + [r], f) == if r.file == f then Owned(t, f) + [r] else Owned(t, f)
    ensures Kept(t + [r], f) == if r.file == f then Kept(t, f) else Kept(t, f) + [r]
  {
    assert (t + [r])[..|t|] == t;
  }

  lemma NoneOwned(f: Option<Handle>)
    ensures Owned([], f) == [] && Kept([], f) == []
  {
  }

  // A record as often as it stands in the list stands in the two halves.
  lemma {:induction false} PartitionIsComplete(s: seq<Record>, f: Option<Handle>)
    ensures multiset(Owned(s, f)) + multiset(Kept(s, f)) == multiset(s)
  {
    hide Owned, Kept;
    if s == [] {
      NoneOwned(f);
    } else {
      var t, r := s[..|s| - 1], s[|s| - 1];
      PartitionIsComplete(t, f);
      LastOwned(t, r, f);
      assert s == t + [r];
    }
  }

  // The records of f, or those of the others.
  function Half(s: seq<Record>, f: Option<Handle>, mine: bool): seq<Record> {
    if mine then Owned(s, f) else Kept(s, f)
  }

  // And no two records of one half change places.
  lemma {:induction false} PartitionIsStable(s: seq<Record>, f: Option<Handle>, mine: bool, i: nat, j: nat)
    requires i < j < |s| && (s[i].file == f <==> mine) && (s[j].file == f <==> mine)
    ensures exists a, b :: 0 <= a < b < |Half(s, f, mine)| && Half(s, f, mine)[a] == s[i] && Half(s, f, mine)[b] == s[j]
  {
    var t, h := s[..|s| - 1], Half(s, f, mine);
    if j < |s| - 1 {
      PartitionIsStable(t, f, mine, i, j);
      var a, b :| 0 <= a < b < |Half(t, f, mine)| && Half(t, f, mine)[a] == t[i] && Half(t, f, mine)[b] == t[j];
      assert h[a] == s[i] && h[b] == s[j];
    } else {
      HalfHas(t, f, mine, i);
      var a :| 0 <= a < |Half(t, f, mine)| && Half(t, f, mine)[a] == t[i];
      assert h[a] == s[i] && h[|h| - 1] == s[j];
    }
  }

  lemma {:induction false} HalfHas(s: seq<Record>, f: Option<Handle>, mine: bool, i: nat)
    requires i < |s| && (s[i].file == f <==> mine)
    ensures s[i] in Half(s, f, mine)
  {
    if i < |s| - 1 {
      HalfHas(s[..|s| - 1], f, mine, i);
    }
  }

  lemma NextOwned(s: seq<Record>, f: Option<Handle>, p: nat)
    requires p < |s|
    ensures Owned(s[..p + 1], f) == if s[p].file == f then Owned(s[..p], f) + [s[p]] else Owned(s[..p], f)
    ensures Kept(s[..p + 1], f) == if s[p].file == f then Kept(s[..p], f) else Kept(s[..p], f) + [s[p]]
  {
    assert s[..p + 1][..p] == s[..p];
  }

  ghost predicate Apart(list: Record, s: seq<Record>, todo: Record, owned: seq<Record>) {
    && list != todo && list !in owned && todo !in s
    && forall r <- s :: r !in owned
  }

  lemma NextEntry(list: Record, kept: seq<Record>, e: Record, rest: seq<Record>)
    requires Linked(list, kept + [e] + rest)
    ensures e.next == First(list, rest) && e != list
  {
    var s := kept + [e] + rest;
    assert s[|kept|] == e;
    assert rest != [] ==> s[|kept| + 1] == rest[0];
  }

  lemma ApartEnds(list: Record, kept: seq<Record>, e: Record, rest: seq<Record>, todo: Record, owned: seq<Record>)
    requires Apart(list, kept + [e] + rest, todo, owned) && Distinct(list, kept + [e] + rest)
    ensures Last(list, kept) != todo && First(list, rest) != todo && e != todo && e !in owned
    ensures Last(list, kept) !in owned && First(list, rest) !in owned
    ensures Last(todo, owned) != list && Last(todo, owned) !in kept + rest && e != list && e !in kept + rest
    ensures todo !in kept + rest
  {
    var s := kept + [e] + rest;
    assert s[|kept|] == e && e in s;
    assert kept != [] ==> s[|kept| - 1] == Last(list, kept) && Last(list, kept) in s;
    assert rest != [] ==> s[|kept| + 1] == First(list, rest) && First(list, rest) in s;
    forall r | r in kept + rest ensures r in s && r != e {
      var i :| 0 <= i < |kept + rest| && (kept + rest)[i] == r;
      assert s[if i < |kept| then i else i + 1] == r;
    }
  }

  method MoveOne(list: Record, todo: Record, e: Record, ghost kept: seq<Record>, ghost rest: seq<Record>,
                 ghost owned: seq<Record>)
    requires Linked(list, kept + [e] + rest) && Linked(todo, owned)
    requires Apart(list, kept + [e] + rest, todo, owned)
    modifies list, todo, e, Last(list, kept), First(list, rest), Last(todo, owned)
    ensures Linked(list, kept + rest) && Linked(todo, owned + [e])
  {
    ApartEnds(list, kept, e, rest, todo, owned);
    RemoveEntry(e, list, kept, rest);
    InsertTail(todo, e, owned);
  }

  // One turn of cleanup's loop.
  method Turn(list: Record, todo: Record, entry: Record, f: Option<Handle>, ghost s: seq<Record>, ghost p: nat)
    returns (next: Record)
    requires p < |s| && entry == s[p] && list != todo && todo !in s && Distinct(list, s)
    requires Linked(list, Kept(s[..p], f) + s[p..]) && Linked(todo, Owned(s[..p], f))
    modifies list, todo, set r | r in s
    ensures Linked(list, Kept(s[..p + 1], f) + s[p + 1..]) && Linked(todo, Owned(s[..p + 1], f))
    ensures next == First(list, s[p + 1..])
  {
    hide Linked, Apart, Owned, Kept;
    ghost var kept, owned, rest := Kept(s[..p], f), Owned(s[..p], f), s[p + 1..];
    assert kept + s[p..] == kept + [entry] + rest;
    NextEntry(list, kept, entry, rest);
    next := entry.next;
    NextOwned(s, f, p);
    Ends(list, todo, f, s, p);
    if entry.file == f {
      StillApart(list, todo, f, s, p);
      MoveOne(list, todo, entry, kept, rest, owned);
    } else {
      assert kept + [entry] + rest == Kept(s[..p + 1], f) + rest;
    }
  }

  // Cleanup's loop: move a handle's records to a list of their own.
  method MoveOwned(list: Record, todo: Record, f: Option<Handle>, ghost s: seq<Record>)
    requires Linked(list, s) && Linked(todo, []) && list != todo && todo !in s
    modifies list, todo, set r | r in s
    ensures Linked(list, Kept(s, f)) && Linked(todo, Owned(s, f))
  {
    hide Linked, Owned, Kept, Distinct, First;
    NoneYet(s, f);
    var entry := FirstEntry(list, s);
    ghost var p := 0;
    while entry != list
      invariant 0 <= p <= |s|
      invariant Linked(list, Kept(s[..p], f) + s[p..]) && Linked(todo, Owned(s[..p], f))
      invariant entry == First(list, s[p..])
      decreases |s| - p
    {
      EntryAt(list, s, p);
      entry := Turn(list, todo, entry, f, s, p);
      p := p + 1;
    }
    AllDone(list, s, f, p);
  }

  method FirstEntry(list: Record, ghost s: seq<Record>) returns (e: Record)
    requires Linked(list, s)
    ensures e == First(list, s) && Distinct(list, s)
  {
    e := list.next;
  }

  lemma Ends(list: Record, todo: Record, f: Option<Handle>, s: seq<Record>, p: nat)
    requires p < |s|
    ensures Last(list, Kept(s[..p], f)) == list || Last(list, Kept(s[..p], f)) in s
    ensures First(list, s[p + 1..]) == list || First(list, s[p + 1..]) in s
    ensures Last(todo, Owned(s[..p], f)) == todo || Last(todo, Owned(s[..p], f)) in s
  {
    var kept, owned := Kept(s[..p], f), Owned(s[..p], f);
    assert kept != [] ==> kept[|kept| - 1] in kept;
    assert owned != [] ==> owned[|owned| - 1] in owned;
  }

  lemma StillApart(list: Record, todo: Record, f: Option<Handle>, s: seq<Record>, p: nat)
    requires Distinct(list, s) && list != todo && todo !in s && p < |s|
    ensures Apart(list, Kept(s[..p], f) + s[p..], todo, Owned(s[..p], f))
  {
  }

  lemma EntryAt(list: Record, s: seq<Record>, p: nat)
    requires p <= |s| && First(list, s[p..]) != list
    ensures p < |s| && First(list, s[p..]) == s[p]
  {
  }

  lemma NoneYet(s: seq<Record>, f: Option<Handle>)
    ensures Owned(s[..0], f) == [] && Kept(s[..0], f) + s[0..] == s && s[0..] == s
  {
  }

  lemma AllDone(list: Record, s: seq<Record>, f: Option<Handle>, p: nat)
    requires Distinct(list, s) && p <= |s| && First(list, s[p..]) == list
    ensures s[..p] == s && Kept(s[..p], f) + s[p..] == Kept(s, f)
  {
  }

  // The splice of the revocation: the whole list moves to a head of its own.
  method MoveAll(list: Record, todo: Record, ghost s: seq<Record>)
    requires Linked(list, s) && list != todo && todo !in s
    modifies list, todo, First(list, s), Last(list, s)
    ensures Linked(list, []) && Linked(todo, s)
  {
    todo.next, todo.prev := todo, todo;
    if list.next != list {
      todo.next, todo.prev := list.next, list.prev;
      todo.next.prev := todo;
      todo.prev.next := todo;
      list.next, list.prev := list, list;
    }
  }

  // ------------------------------------------------------ the device context

  function Processes(s: seq<Record>): (ps: multiset<nat>) {
    if s == [] then multiset{} else Processes(s[..|s| - 1]) + multiset{s[|s| - 1].proc}
  }

  lemma ProcessesNone()
    ensures Processes([]) == multiset{}
  {
  }

  lemma ProcessesPush(s: seq<Record>, r: Record)
    ensures Processes(s + [r]) == Processes(s) + multiset{r.proc}
  {
  }

  lemma {:induction false} ProcessesOf(s: seq<Record>, t: seq<Record>)
    ensures Processes(s + t) == Processes(s) + Processes(t)
  {
    hide Processes;
    if t == [] {
      ProcessesNone();
      assert s + t == s;
    } else {
      var u, r := t[..|t| - 1], t[|t| - 1];
      ProcessesOf(s, u);
      ProcessesPush(s + u, r);
      ProcessesPush(u, r);
      assert u + [r] == t && s + t == s + u + [r];
    }
  }

  lemma {:induction false} ProcessesSplit(s: seq<Record>, f: Option<Handle>)
    ensures Processes(Owned(s, f)) + Processes(Kept(s, f)) == Processes(s)
  {
    hide Owned, Kept, Processes;
    if s == [] {
      NoneOwned(f);
      ProcessesNone();
    } else {
      var t, r := s[..|s| - 1], s[|s| - 1];
      ProcessesSplit(t, f);
      LastOwned(t, r, f);
      assert s == t + [r];
      ProcessesPush(t, r);
      ProcessesPush(Owned(t, f), r);
      ProcessesPush(Kept(t, f), r);
    }
  }

  // Records off the list: each of them once, and none of them listed.
  ghost predicate Off(head: Record, off: seq<Record>, listed: seq<Record>) {
    Distinct(head, off) && forall r <- off :: r !in listed
  }

  // Listed records that go off the list join those off it before.
  lemma OffToo(head: Record, off: seq<Record>, listed: seq<Record>, s: seq<Record>, kept: seq<Record>)
    requires Off(head, off, listed) && head !in listed
    requires forall i, j :: 0 <= i < j < |s| ==> s[i] != s[j]
    requires (forall r <- s :: r in listed && r !in kept) && forall r <- kept :: r in listed
    ensures Off(head, off + s, kept)
  {
    var t := off + s;
    forall i, j | 0 <= i < j < |t| ensures t[i] != t[j] {
      assert i < |off| <= j ==> t[i] in off && t[j] in s;
    }
  }

  lemma OneOff(head: Record, off: seq<Record>, before: seq<Record>, e: Record, after: seq<Record>)
    requires Off(head, off, before + [e] + after) && Distinct(head, before + [e] + after)
    ensures Off(head, off + [e], before + after)
  {
    var s := before + [e] + after;
    assert s[|before|] == e;
    forall r | r in before + after ensures r in s && r != e {
      var i :| 0 <= i < |before + after| && (before + after)[i] == r;
      assert s[if i < |before| then i else i + 1] == r;
    }
    OffToo(head, off, s, [e], before + after);
  }

  // One taken out of the middle and put at the end of those before.
  lemma OffMoved(head: Record, d: seq<Record>, a: seq<Record>, r: Record, b: seq<Record>, listed: seq<Record>)
    requires Off(head, d + (a + [r] + b), listed)
    ensures Off(head, d + [r] + (a + b), listed)
  {
    var s, t := d + (a + [r] + b), d + [r] + (a + b);
    forall i | 0 <= i < |t| ensures t[i] == s[Before(i, |d|, |a|)] && t[i] in s {
    }
    forall i, j | 0 <= i < j < |t| ensures t[i] != t[j] {
      assert Before(i, |d|, |a|) != Before(j, |d|, |a|);
    }
  }

  function Before(i: nat, d: nat, a: nat): nat {
    if i == d then d + a else if d < i <= d + a then i - 1 else i
  }

  // A record never listed joins those destroyed.
  lemma OffNew(head: Record, d: seq<Record>, u: seq<Record>, listed: seq<Record>, r: Record)
    requires Off(head, d + u, listed) && r != head && r !in d && r !in u && r !in listed
    ensures Off(head, d + [r] + u, listed)
  {
    var s, t := d + u, d + [r] + u;
    forall i | 0 <= i < |t| ensures i != |d| ==> t[i] == s[if i < |d| then i else i - 1] && t[i] in s {
    }
  }

  lemma OwnedWithin(s: seq<Record>, f: Option<Handle>)
    ensures forall r <- Owned(s, f) :: r in s && r.file == f
    ensures forall r <- Kept(s, f) :: r in s && r.file != f
  {
  }

  lemma EndOf(todo: Record, gone: seq<Record>, rest: seq<Record>, s: seq<Record>)
    requires s == gone + rest && rest != []
    ensures First(todo, rest[1..]) == todo || First(todo, rest[1..]) in s
  {
  }

  // Taking the first record off one list does not touch another.
  lemma Foreign(list: Record, listed: seq<Record>, todo: Record, s: seq<Record>)
    requires Apart(list, listed, todo, s) && s != []
    ensures todo != list && todo !in listed && Apart(list, listed, todo, s[1..])
    ensures First(todo, s[1..]) != list && First(todo, s[1..]) !in listed
    ensures First(todo, s[1..]) == todo || First(todo, s[1..]) in s
  {
  }

  method IsEmpty(head: Record, ghost s: seq<Record>) returns (empty: bool)
    requires Linked(head, s)
    ensures empty <==> s == []
  {
    empty := head.next == head;
  }

  lemma LinkedDistinct(head: Record, s: seq<Record>)
    requires Linked(head, s)
    ensures Distinct(head, s)
  {
  }

  // The mapping half of the device context. `refs` are the process references
  // the driver holds, `unlinked` the records off the list that still have their
  // user view, `destroyed` those it has freed.
  class MappingTable {
    const head: Record
    var refs: multiset<nat>
    ghost var listed: seq<Record>
    ghost var unlinked: seq<Record>
    ghost var destroyed: seq<Record>

    // One reference is held for every record that has a view, listed or not; no
    // record is destroyed twice, and none off the list is on it.
    ghost predicate Valid()
      reads this, head, listed
    {
      && Linked(head, listed) && refs == Processes(listed) + Processes(unlinked)
      && Off(head, destroyed + unlinked, listed)
    }

    constructor ()
      ensures Valid() && fresh(head) && listed == [] && unlinked == [] && destroyed == []
    {
      head := new Record(None, 0, 0, -1);
      refs := multiset{};
      listed, unlinked, destroyed := [], [], [];
    }

    method HasMappings(id: int) returns (found: bool)
      requires Valid()
      ensures found <==> exists r <- listed :: r.tlb == id
    {
      var entry := head.next;
      ghost var p := 0;
      while entry != head
        invariant 0 <= p <= |listed| && entry == First(head, listed[p..])
        invariant forall i :: 0 <= i < p ==> listed[i].tlb != id
        decreases |listed| - p
      {
        if entry.tlb == id {
          return true;
        }
        assert listed == listed[..p] + [entry] + listed[p + 1..];
        NextEntry(head, listed[..p], entry, listed[p + 1..]);
        entry := entry.next;
        p := p + 1;
      }
      return false;
    }

    // The process is referenced and the view mapped before the ownership of
    // the window is looked at again; a record that may not be listed is
    // destroyed on the spot.
    method Create(pool: Allocator, file: Handle, proc: nat, va: nat, tlb: int, mapped: bool)
      returns (status: Status)
      requires Valid() && pool.Valid() && -1 <= tlb < WINDOWS
      modifies this, head, listed
      ensures Valid() && unlinked == old(unlinked)
      ensures status == if !mapped then InsufficientResources
                        else if tlb >= 0 && !Owns(pool.Contents(), file, tlb) then AccessDenied
                        else Success
      ensures status == InsufficientResources ==> listed == old(listed) && destroyed == old(destroyed)
      ensures status == AccessDenied ==>
                listed == old(listed) && |destroyed| == |old(destroyed)| + 1 && fresh(destroyed[|old(destroyed)|])
      ensures status == Success ==>
                && destroyed == old(destroyed) && |listed| == |old(listed)| + 1
                && listed[..|old(listed)|] == old(listed)
                && var r := listed[|old(listed)|];
                   fresh(r) && r.file == Some(file) && r.proc == proc && r.va == va && r.tlb == tlb
    {
      hide Processes, Linked, Off;
      LinkedDistinct(head, listed);
      refs := refs + multiset{proc};
      if !mapped {
        refs := refs - multiset{proc};
        return InsufficientResources;
      }
      var r := new Record(Some(file), proc, va, tlb);
      if tlb >= 0 && pool.owner[tlb] != Some(file) {
        BackOut(r);
        return AccessDenied;
      }
      Enlist(r);
      return Success;
    }

    method BackOut(r: Record)
      requires Linked(head, listed) && refs == Processes(listed) + Processes(unlinked) + multiset{r.proc}
      requires Off(head, destroyed + unlinked, listed)
      requires r != head && r !in listed && r !in destroyed && r !in unlinked
      modifies this`refs, this`destroyed
      ensures Valid() && destroyed == old(destroyed) + [r]
    {
      hide Processes, Linked, Off;
      OffNew(head, destroyed, unlinked, listed, r);
      refs := refs - multiset{r.proc};
      destroyed := destroyed + [r];
    }

    method Enlist(r: Record)
      requires Linked(head, listed) && refs == Processes(listed) + Processes(unlinked) + multiset{r.proc}
      requires Off(head, destroyed + unlinked, listed)
      requires r != head && r !in listed && r !in destroyed && r !in unlinked
      modifies this`listed, head, r, Last(head, listed)
      ensures Valid() && listed == old(listed) + [r]
    {
      hide Processes;
      InsertTail(head, r, listed);
      ProcessesPush(listed, r);
      listed := listed + [r];
    }

    // Unmap the view of an unlinked record and free it.
    method DestroyRecord(r: Record, ghost a: seq<Record>, ghost b: seq<Record>)
      requires Valid() && unlinked == a + [r] + b
      modifies this`refs, this`unlinked, this`destroyed
      ensures Valid() && unlinked == a + b && destroyed == old(destroyed) + [r]
    {
      hide Processes, Linked, Off, Distinct;
      OffMoved(head, destroyed, a, r, b, listed);
      ProcessesOf(a + [r], b);
      ProcessesPush(a, r);
      ProcessesOf(a, b);
      refs := refs - multiset{r.proc};
      unlinked, destroyed := a + b, destroyed + [r];
    }

    // The first record of a list of unlinked ones.
    method DestroyFirst(todo: Record, ghost s: seq<Record>, ghost a: seq<Record>, ghost b: seq<Record>)
      requires Valid() && Linked(todo, s) && s != [] && Apart(head, listed, todo, s) && unlinked == a + s + b
      modifies this`refs, this`unlinked, this`destroyed, todo, First(todo, s[1..])
      ensures Valid() && Linked(todo, s[1..]) && Apart(head, listed, todo, s[1..])
      ensures unlinked == a + s[1..] + b && destroyed == old(destroyed) + [s[0]]
    {
      hide Processes, Off;
      Foreign(head, listed, todo, s);
      hide Apart, First;
      var r := RemoveHead(todo, s);
      assert a + [r] + (s[1..] + b) == unlinked by {
        assert s == [r] + s[1..];
      }
      DestroyRecord(r, a, s[1..] + b);
      assert a + (s[1..] + b) == a + s[1..] + b;
    }

    // Free the records of such a list, first to last.
    method Destroy(todo: Record, ghost s: seq<Record>, ghost a: seq<Record>, ghost b: seq<Record>)
      requires Valid() && Linked(todo, s) && Apart(head, listed, todo, s) && unlinked == a + s + b
      modifies this`refs, this`unlinked, this`destroyed, todo, set r | r in s
      ensures Valid() && unlinked == a + b && destroyed == old(destroyed) + s
    {
      hide Processes, Linked, Off, Apart, First, Last, Distinct;
      ghost var gone: seq<Record>, rest := [], s;
      var empty := IsEmpty(todo, s);
      while !empty
        invariant s == gone + rest && destroyed == old(destroyed) + gone && unlinked == a + rest + b
        invariant Valid() && Linked(todo, rest) && Apart(head, listed, todo, rest)
        invariant empty <==> rest == []
        decreases |rest|
      {
        EndOf(todo, gone, rest, s);
        DestroyFirst(todo, rest, a, b);
        gone, rest := gone + [rest[0]], rest[1..];
        empty := IsEmpty(todo, rest);
      }
      assert gone == s && a + rest + b == a + b;
    }

    // Under the lock: a handle's records go to a list of their own, in order.
    method Unlink(file: Handle) returns (todo: Record, ghost s: seq<Record>)
      requires Valid()
      modifies this`listed, this`unlinked, head, set r | r in listed
      ensures Valid() && fresh(todo) && Linked(todo, s) && Apart(head, listed, todo, s)
      ensures s == Owned(old(listed), Some(file)) && listed == Kept(old(listed), Some(file))
      ensures unlinked == old(unlinked) + s
    {
      hide Processes, Owned, Kept, Off;
      ghost var l := listed;
      todo := new Record(None, 0, 0, -1);
      s := Owned(l, Some(file));
      MoveOwned(head, todo, Some(file), l);
      OwnedWithin(l, Some(file));
      ProcessesSplit(l, Some(file));
      ProcessesOf(unlinked, s);
      OffToo(head, destroyed + unlinked, l, s, Kept(l, Some(file)));
      assert destroyed + unlinked + s == destroyed + (unlinked + s);
      listed, unlinked := Kept(l, Some(file)), unlinked + s;
    }

    // Likewise all records.
    method UnlinkAll() returns (todo: Record, ghost s: seq<Record>)
      requires Valid()
      modifies this`listed, this`unlinked, head, set r | r in listed
      ensures Valid() && fresh(todo) && Linked(todo, s) && Apart(head, listed, todo, s)
      ensures s == old(listed) && listed == [] && unlinked == old(unlinked) + s
    {
      hide Processes, Off;
      todo := new Record(None, 0, 0, -1);
      s := listed;
      MoveAll(head, todo, s);
      ProcessesNone();
      ProcessesOf(unlinked, s);
      OffToo(head, destroyed + unlinked, s, s, []);
      assert destroyed + unlinked + s == destroyed + (unlinked + s);
      listed, unlinked := [], unlinked + s;
    }

    // Closing a handle destroys its records, in list order, and keeps the
    // others.
    method Cleanup(file: Handle)
      requires Valid()
      modifies this, head, set r | r in listed
      ensures Valid() && unlinked == old(unlinked)
      ensures listed == Kept(old(listed), Some(file)) && destroyed == old(destroyed) + Owned(old(listed), Some(file))
    {
      hide Processes, Owned, Kept, Off, Linked, Apart;
      ghost var u, s := unlinked, [];
      var todo;
      todo, s := Unlink(file);
      assert u + s == u + s + [] && u + [] == u;
      Destroy(todo, s, u, []);
    }

    // Releasing the hardware destroys every listed record.
    method RevokeAll()
      requires Valid()
      modifies this, head, set r | r in listed
      ensures Valid() && listed == [] && unlinked == old(unlinked) && destroyed == old(destroyed) + old(listed)
      ensures refs == Processes(unlinked)
    {
      hide Processes, Off, Linked, Apart;
      ghost var u, s := unlinked, [];
      var todo;
      todo, s := UnlinkAll();
      assert u + s == u + s + [] && u + [] == u;
      Destroy(todo, s, u, []);
      ProcessesNone();
    }

    // Between the two phases of a cleanup the lock is free, and another handle's
    // cleanup or a revocation may run whole. The cleanup still ends with exactly
    // its own records destroyed after the others'; but a revocation is over with
    // their references still held.
    method CleanupBeside(file: Handle, other: Handle, revoke: bool) returns (ghost held: multiset<nat>)
      requires Valid()
      modifies this, head, set r | r in listed
      ensures Valid() && unlinked == old(unlinked)
      ensures var rest := Kept(old(listed), Some(file));
              && listed == (if revoke then [] else Kept(rest, Some(other)))
              && destroyed == old(destroyed) + (if revoke then rest else Owned(rest, Some(other)))
                              + Owned(old(listed), Some(file))
      ensures revoke ==> held == Processes(old(unlinked)) + Processes(Owned(old(listed), Some(file)))
    {
      hide Processes, Owned, Kept, Off, Linked, Distinct;
      ghost var u, s := unlinked, [];
      var todo;
      todo, s := Unlink(file);
      if revoke {
        RevokeAll();
        ProcessesOf(u, s);
      } else {
        OwnedWithin(listed, Some(other));
        Cleanup(other);
      }
      held := refs;
      assert u + s == u + s + [] && u + [] == u;
      Destroy(todo, s, u, []);
    }

    predicate Matches(r: Record, file: Handle, va: nat) {
      r.file == Some(file) && r.va == va
    }

    method Find(file: Handle, va: nat) returns (found: Option<Record>, ghost k: nat)
      requires Valid()
      ensures k <= |listed| && forall i :: 0 <= i < k ==> !Matches(listed[i], file, va)
      ensures if found.Some? then k < |listed| && found.value == listed[k] && Matches(listed[k], file, va)
              else k == |listed|
    {
      hide Processes;
      var entry := head.next;
      k := 0;
      while entry != head
        invariant 0 <= k <= |listed| && entry == First(head, listed[k..])
        invariant forall i :: 0 <= i < k ==> !Matches(listed[i], file, va)
        decreases |listed| - k
      {
        assert listed == listed[..k] + [entry] + listed[k + 1..];
        NextEntry(head, listed[..k], entry, listed[k + 1..]);
        if entry.file == Some(file) && entry.va == va {
          return Some(entry), k;
        }
        entry := entry.next;
        k := k + 1;
      }
      return None, k;
    }

    // Under the lock: take one record off the list.
    method Drop(e: Record, ghost before: seq<Record>, ghost after: seq<Record>)
      requires Valid() && listed == before + [e] + after
      modifies this, Last(head, before), First(head, after)
      ensures Valid() && listed == before + after && unlinked == old(unlinked) + [e] && destroyed == old(destroyed)
    {
      hide Processes;
      OneOff(head, destroyed + unlinked, before, e, after);
      ProcessesOf(before + [e], after);
      ProcessesPush(before, e);
      ProcessesOf(before, after);
      ProcessesPush(unlinked, e);
      RemoveEntry(e, head, before, after);
      assert destroyed + unlinked + [e] == destroyed + (unlinked + [e]);
      listed, unlinked := before + after, unlinked + [e];
    }

    // The first record of the handle at the address goes; nothing else does.
    method Unmap(file: Handle, va: nat) returns (status: Status, ghost k: nat)
      requires Valid()
      modifies this, head, listed
      ensures Valid() && unlinked == old(unlinked) && status in {Success, NotFound}
      ensures k <= |old(listed)| && forall i :: 0 <= i < k ==> !Matches(old(listed)[i], file, va)
      ensures status == NotFound ==> k == |old(listed)| && listed == old(listed) && destroyed == old(destroyed)
      ensures status == Success ==>
                && k < |old(listed)| && Matches(old(listed)[k], file, va)
                && listed == old(listed)[..k] + old(listed)[k + 1..]
                && destroyed == old(destroyed) + [old(listed)[k]]
    {
      hide Linked, Processes, Off;
      var found;
      found, k := Find(file, va);
      if found.None? {
        return NotFound, k;
      }
      ghost var s, before, after := listed, listed[..k], listed[k + 1..];
      assert s == before + [found.value] + after;
      assert before != [] ==> Last(head, before) == s[k - 1];
      assert after != [] ==> First(head, after) == s[k + 1];
      ghost var u := unlinked;
      Drop(found.value, before, after);
      assert unlinked == u + [found.value] + [] && u + [] == u;
      DestroyRecord(found.value, u, []);
      status := Success;
    }
  }
}
