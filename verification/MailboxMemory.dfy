// The mailbox's word memory against the message traffic it stands for, and
// what each single access of the driver or the firmware does to both.
module MailboxMemory {
  import opened Prelude
  import opened RingMath
  import opened Rings

  const CSM_WORDS: int := 0x2_0000

  // Word index of the queue base, and the number of entries of each ring.
  datatype Layout = Layout(q: nat, n: nat)

  ghost predicate Sound(l: Layout) {
    0 < l.n <= 255 && l.q + 8 + 16 * l.n <= CSM_WORDS
  }

  type Memory = m: seq<u32> | |m| == CSM_WORDS witness seq(CSM_WORDS, i => 0)

  // Every request ever pushed, how many of them the firmware has taken and
  // what it received, the words it has read of the next; every response ever
  // posted, the words written of the next, and how many were popped.
  datatype Traffic = Traffic(pushed: seq<Msg>, taken: nat, received: seq<Msg>, fetched: seq<u32>,
                             posted: seq<Msg>, drafted: seq<u32>, popped: nat)

  // Words the firmware may write: its two pointers and the response slots.
  predicate FirmwareWord(l: Layout, w: int) {
    w == l.q + 4 || w == l.q + 5 || l.q + 8 + 8 * l.n <= w < l.q + 8 + 16 * l.n
  }

  // Words of the two rings: their four pointers and their slots.
  predicate RingWord(l: Layout, w: int) {
    w == l.q || w == l.q + 1 || w == l.q + 4 || w == l.q + 5 || l.q + 8 <= w < l.q + 8 + 16 * l.n
  }

  ghost predicate FirmwareOnly(l: Layout, mem: Memory, mem': Memory) {
    forall w :: 0 <= w < CSM_WORDS && !FirmwareWord(l, w) ==> mem'[w] == mem[w]
  }

  ghost predicate RingsOnly(l: Layout, mem: Memory, mem': Memory) {
    forall w :: 0 <= w < CSM_WORDS && !RingWord(l, w) ==> mem'[w] == mem[w]
  }

  lemma RingsOnlyNone(l: Layout, mem: Memory)
    ensures RingsOnly(l, mem, mem)
  {
  }

  lemma RingsOnlyOn(l: Layout, a: Memory, b: Memory, c: Memory)
    requires RingsOnly(l, a, b) && (RingsOnly(l, b, c) || FirmwareOnly(l, b, c))
    ensures RingsOnly(l, a, c)
  {
  }

  lemma FirmwareWrites(l: Layout, mem: Memory, w: nat, v: u32)
    requires w < CSM_WORDS && FirmwareWord(l, w)
    ensures FirmwareOnly(l, mem, mem[w := v]) && FirmwareOnly(l, mem, mem)
  {
  }

  // No request slot changes but the one at pointer p.
  ghost predicate OneSlotOnly(l: Layout, p: u32, mem: Memory, mem': Memory)
    requires Sound(l)
  {
    var at := l.q + 8 + 8 * Slot(p, l.n);
    forall x :: l.q + 8 <= x < l.q + 8 + 8 * l.n && !(at <= x < at + 8) ==> mem'[x] == mem[x]
  }

  lemma OneSlotOnlyOn(l: Layout, p: u32, a: Memory, b: Memory, c: Memory)
    requires Sound(l) && OneSlotOnly(l, p, a, b) && (OneSlotOnly(l, p, b, c) || FirmwareOnly(l, b, c))
    ensures OneSlotOnly(l, p, a, c)
  {
  }

  lemma FirmwareInSlot(l: Layout, p: u32, a: Memory, b: Memory)
    requires Sound(l) && FirmwareOnly(l, a, b)
    ensures OneSlotOnly(l, p, a, b) && b[l.q] == a[l.q] && b[l.q + 1] == a[l.q + 1]
  {
  }

  lemma FirmwareInRings(l: Layout, a: Memory, b: Memory)
    requires FirmwareOnly(l, a, b)
    ensures RingsOnly(l, a, b)
  {
  }

  lemma FirmwareOnlyOn(l: Layout, a: Memory, b: Memory, c: Memory)
    requires FirmwareOnly(l, a, b) && FirmwareOnly(l, b, c)
    ensures FirmwareOnly(l, a, c) && RingsOnly(l, a, c)
  {
  }

  function RequestPlace(l: Layout): (pl: Place)
    ensures l.q + 8 + 16 * l.n <= CSM_WORDS ==> Fits(pl, l.n, CSM_WORDS)
  {
    Place(l.q, l.q + 4, l.q + 8)
  }

  function ResponsePlace(l: Layout): (pl: Place)
    ensures l.q + 8 + 16 * l.n <= CSM_WORDS ==> Fits(pl, l.n, CSM_WORDS)
  {
    Place(l.q + 5, l.q + 1, l.q + 8 + 8 * l.n)
  }

  ghost function Requests(mem: Memory, l: Layout): (ring: Ring)
    requires Sound(l)
    ensures |ring.slots| == l.n
  {
    RingAt(mem, RequestPlace(l), l.n)
  }

  ghost function Responses(mem: Memory, l: Layout): (ring: Ring)
    requires Sound(l)
    ensures |ring.slots| == l.n
  {
    RingAt(mem, ResponsePlace(l), l.n)
  }

  ghost predicate Counted(t: Traffic) {
    t.popped <= |t.posted| <= t.taken <= |t.pushed| && t.received == t.pushed[..t.taken]
  }

  // The memory holds exactly the requests not yet taken and the responses not
  // yet popped, and the firmware's half-done work is sound.
  ghost predicate Consistent(mem: Memory, l: Layout, t: Traffic) {
    && Sound(l) && Counted(t)
    && Holds(Requests(mem, l), l.n, t.pushed[t.taken..])
    && Holds(Responses(mem, l), l.n, t.posted[t.popped..])
    && Fetching(t) && Drafting(mem, l, t)
  }

  ghost predicate Fetching(t: Traffic) {
    && |t.fetched| <= 8
    && (t.fetched != [] ==> t.taken < |t.pushed| && t.fetched == t.pushed[t.taken][..|t.fetched|])
  }

  ghost predicate Drafting(mem: Memory, l: Layout, t: Traffic)
    requires Sound(l)
  {
    && |t.drafted| <= 8
    && (t.drafted != [] ==> |t.posted| < t.taken && |t.posted| - t.popped < l.n)
    && var ring := Responses(mem, l); ring.slots[Slot(ring.w, l.n)][..|t.drafted|] == t.drafted
  }

  // With all pointers at zero nothing is held.
  lemma Idle(mem: Memory, l: Layout)
    requires Sound(l) && forall i :: l.q <= i < l.q + 8 ==> mem[i] == 0
    ensures Consistent(mem, l, Traffic([], 0, [], [], [], [], 0))
  {
    EmptyHolds(Requests(mem, l), l.n);
    EmptyHolds(Responses(mem, l), l.n);
    hide Holds;
  }

  // --------------------------------------------------------------- firmware

  function RequestWord(mem: Memory, l: Layout, i: nat): nat
    requires l.n > 0 && l.q + 8 + 16 * l.n <= CSM_WORDS
  {
    l.q + 8 + 8 * Slot(mem[l.q + 4], l.n) + i
  }

  lemma FetchWord(mem: Memory, l: Layout, t: Traffic)
    requires Consistent(mem, l, t) && |t.fetched| < 8 && mem[l.q] != mem[l.q + 4]
    ensures t.taken < |t.pushed| && mem[RequestWord(mem, l, |t.fetched|)] == t.pushed[t.taken][|t.fetched|]
    ensures Consistent(mem, l, t.(fetched := t.fetched + [mem[RequestWord(mem, l, |t.fetched|)]]))
  {
    var ring := Requests(mem, l);
    HoldsOccupancy(ring, l.n, t.pushed[t.taken..]);
    TakeFirst(ring, l.n, t.pushed[t.taken..]);
    assert ring.slots[Slot(ring.r, l.n)] == MessageAt(mem, l.q + 8 + 8 * Slot(ring.r, l.n));
  }

  lemma AcceptRequest(mem: Memory, l: Layout, t: Traffic)
    requires Consistent(mem, l, t) && |t.fetched| == 8
    ensures Consistent(mem[l.q + 4 := Advance(mem[l.q + 4], 1, l.n)], l,
                       t.(taken := t.taken + 1, received := t.received + [t.fetched], fetched := []))
  {
    var v := Advance(mem[l.q + 4], 1, l.n);
    TakeFirst(Requests(mem, l), l.n, t.pushed[t.taken..]);
    assert t.pushed[t.taken..][1..] == t.pushed[t.taken + 1..];
    assert t.fetched == t.pushed[t.taken];
    assert t.received + [t.fetched] == t.pushed[..t.taken + 1];
    WritePointer(mem, RequestPlace(l), l.n, l.q + 4, v);
    WriteElsewhere(mem, ResponsePlace(l), l.n, l.q + 4, v);
  }

  function ResponseWord(mem: Memory, l: Layout, p: u32, i: nat): nat
    requires l.n > 0
  {
    l.q + 8 + 8 * l.n + 8 * Slot(p, l.n) + i
  }

  lemma DraftWord(mem: Memory, l: Layout, t: Traffic, v: u32)
    requires Consistent(mem, l, t) && |t.drafted| < 8
    requires |t.posted| < t.taken && |t.posted| - t.popped < l.n
    ensures ResponseWord(mem, l, mem[l.q + 5], |t.drafted|) < l.q + 8 + 16 * l.n
    ensures Consistent(mem[ResponseWord(mem, l, mem[l.q + 5], |t.drafted|) := v], l,
                       t.(drafted := t.drafted + [v]))
  {
    var ring, s, i := Responses(mem, l), Slot(mem[l.q + 5], l.n), |t.drafted|;
    var at := ResponseWord(mem, l, mem[l.q + 5], i);
    WriteSlotWord(mem, ResponsePlace(l), l.n, s, i, v);
    FreeSlotIsFree(ring, l.n, t.posted[t.popped..], Responses(mem[at := v], l).slots);
    WriteElsewhere(mem, RequestPlace(l), l.n, at, v);
    assert ring.slots[s][i := v][..i + 1] == ring.slots[s][..i] + [v];
  }

  lemma PublishResponse(mem: Memory, l: Layout, t: Traffic)
    requires Consistent(mem, l, t) && |t.drafted| == 8
    ensures |t.posted| < t.taken
    ensures Consistent(mem[l.q + 5 := Advance(mem[l.q + 5], 1, l.n)], l,
                       t.(posted := t.posted + [t.drafted], drafted := []))
  {
    var ring, v := Responses(mem, l), Advance(mem[l.q + 5], 1, l.n);
    Append(ring, l.n, t.posted[t.popped..]);
    assert ring.slots[Slot(ring.w, l.n)] == t.drafted;
    assert (t.posted + [t.drafted])[t.popped..] == t.posted[t.popped..] + [t.drafted];
    WritePointer(mem, ResponsePlace(l), l.n, l.q + 5, v);
    WriteElsewhere(mem, RequestPlace(l), l.n, l.q + 5, v);
  }

  // ----------------------------------------------------------------- driver

  // The pointers count the requests not yet taken and the responses not yet
  // popped.
  lemma Counts(mem: Memory, l: Layout, t: Traffic)
    requires Consistent(mem, l, t)
    ensures Sound(l)
    ensures mem[l.q] < 2 * l.n && mem[l.q + 1] < 2 * l.n && mem[l.q + 4] < 2 * l.n && mem[l.q + 5] < 2 * l.n
    ensures Occupancy(mem[l.q], mem[l.q + 4], l.n) == |t.pushed| - t.taken
    ensures Occupancy(mem[l.q + 5], mem[l.q + 1], l.n) == |t.posted| - t.popped
    ensures mem[l.q] == mem[l.q + 4] <==> t.taken == |t.pushed|
    ensures |t.pushed| - t.taken <= l.n && |t.posted| - t.popped <= l.n && t.popped <= |t.posted| <= t.taken
  {
    HoldsOccupancy(Requests(mem, l), l.n, t.pushed[t.taken..]);
    HoldsOccupancy(Responses(mem, l), l.n, t.posted[t.popped..]);
  }

  function PushWord(l: Layout, w: u32, i: nat): nat
    requires l.n > 0
  {
    l.q + 8 + 8 * Slot(w, l.n) + i
  }

  // The message being assembled in the slot at the request write pointer.
  ghost function Assembling(mem: Memory, l: Layout): Msg
    requires Sound(l)
  {
    Requests(mem, l).slots[Slot(mem[l.q], l.n)]
  }

  // Nothing the firmware writes touches the message being assembled.
  lemma AssemblingFrame(mem: Memory, mem': Memory, l: Layout)
    requires Sound(l) && FirmwareOnly(l, mem, mem')
    ensures Assembling(mem', l) == Assembling(mem, l)
  {
    var s := Slot(mem[l.q], l.n);
    assert MessageAt(mem', l.q + 8 + 8 * s) == MessageAt(mem, l.q + 8 + 8 * s);
  }

  // What the driver writes for a push stays in its slot and its pointer.
  lemma PushWrites(l: Layout, p: u32, mem: Memory, w: nat, v: u32)
    requires Sound(l) && (w == l.q || exists i :: 0 <= i < 8 && w == PushWord(l, p, i))
    ensures w < CSM_WORDS && RingsOnly(l, mem, mem[w := v]) && OneSlotOnly(l, p, mem, mem[w := v])
    ensures RingsOnly(l, mem, mem) && OneSlotOnly(l, p, mem, mem)
  {
    assert Slot(p, l.n) < l.n;
  }

  // A word of a request goes into the slot at the write pointer.
  lemma AssembleWord(mem: Memory, l: Layout, i: nat, v: u32)
    requires Sound(l) && i < 8
    ensures PushWord(l, mem[l.q], i) < l.q + 8 + 8 * l.n
    ensures Assembling(mem[PushWord(l, mem[l.q], i) := v], l) == Assembling(mem, l)[i := v]
  {
    WriteSlotWord(mem, RequestPlace(l), l.n, Slot(mem[l.q], l.n), i, v);
  }

  // While the ring is not full that slot is free: no message changes.
  lemma PushRequestWord(mem: Memory, l: Layout, t: Traffic, i: nat, v: u32)
    requires Consistent(mem, l, t) && |t.pushed| - t.taken < l.n && i < 8
    ensures PushWord(l, mem[l.q], i) < l.q + 8 + 8 * l.n
    ensures Consistent(mem[PushWord(l, mem[l.q], i) := v], l, t)
  {
    var ring, s := Requests(mem, l), Slot(mem[l.q], l.n);
    var at := PushWord(l, mem[l.q], i);
    WriteSlotWord(mem, RequestPlace(l), l.n, s, i, v);
    FreeSlotIsFree(ring, l.n, t.pushed[t.taken..], Requests(mem[at := v], l).slots);
    WriteElsewhere(mem, ResponsePlace(l), l.n, at, v);
  }

  // Only the pointer, written last, makes the assembled request visible.
  lemma PushPointer(mem: Memory, l: Layout, t: Traffic)
    requires Consistent(mem, l, t) && |t.pushed| - t.taken < l.n
    ensures Consistent(mem[l.q := Advance(mem[l.q], 1, l.n)], l,
                       t.(pushed := t.pushed + [Assembling(mem, l)]))
  {
    var ring, v := Requests(mem, l), Advance(mem[l.q], 1, l.n);
    Append(ring, l.n, t.pushed[t.taken..]);
    var pushed' := t.pushed + [Assembling(mem, l)];
    assert pushed'[t.taken..] == t.pushed[t.taken..] + [Assembling(mem, l)];
    assert pushed'[..t.taken] == t.pushed[..t.taken];
    WritePointer(mem, RequestPlace(l), l.n, l.q, v);
    WriteElsewhere(mem, ResponsePlace(l), l.n, l.q, v);
  }

  // What is read of a message over a path that hangs on the way: its first
  // words, and all-1s for the rest.
  ghost predicate Cut(words: seq<u32>, msg: Msg) {
    |words| <= 8 && exists c :: 0 <= c <= |words| && CutAt(words, msg, c)
  }

  ghost predicate CutAt(words: seq<u32>, msg: Msg, c: nat)
    requires c <= |words| <= 8
  {
    words[..c] == msg[..c] && forall k :: c <= k < |words| ==> words[k] == ALL_ONES
  }

  lemma WholeIsCut(words: seq<u32>, msg: Msg)
    requires |words| <= 8 && words == msg[..|words|]
    ensures Cut(words, msg)
  {
    assert CutAt(words, msg, |words|);
  }

  lemma CutMore(words: seq<u32>, msg: Msg)
    requires Cut(words, msg) && |words| < 8
    ensures Cut(words + [ALL_ONES], msg)
  {
    var c :| 0 <= c <= |words| && CutAt(words, msg, c);
    assert (words + [ALL_ONES])[..c] == words[..c];
    assert CutAt(words + [ALL_ONES], msg, c);
  }

  // The slot at the response read pointer holds the oldest response.
  lemma OldestResponse(mem: Memory, l: Layout, t: Traffic, i: nat)
    requires Consistent(mem, l, t) && t.popped < |t.posted| && i < 8
    ensures ResponseWord(mem, l, mem[l.q + 1], i) < l.q + 8 + 16 * l.n
    ensures mem[ResponseWord(mem, l, mem[l.q + 1], i)] == t.posted[t.popped][i]
  {
    var ring := Responses(mem, l);
    TakeFirst(ring, l.n, t.posted[t.popped..]);
    assert ring.slots[Slot(ring.r, l.n)] == MessageAt(mem, ResponsePlace(l).base + 8 * Slot(ring.r, l.n));
  }

  lemma PopPointer(mem: Memory, l: Layout, t: Traffic)
    requires Consistent(mem, l, t) && t.popped < |t.posted|
    ensures Consistent(mem[l.q + 1 := Advance(mem[l.q + 1], 1, l.n)], l, t.(popped := t.popped + 1))
  {
    var v := Advance(mem[l.q + 1], 1, l.n);
    TakeFirst(Responses(mem, l), l.n, t.posted[t.popped..]);
    assert t.posted[t.popped..][1..] == t.posted[t.popped + 1..];
    WritePointer(mem, ResponsePlace(l), l.n, l.q + 1, v);
    WriteElsewhere(mem, RequestPlace(l), l.n, l.q + 1, v);
  }
}
