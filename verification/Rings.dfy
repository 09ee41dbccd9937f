// One direction of the mailbox as a value: a writer and a reader pointer over
// n message slots, and the message sequence such a ring stands for.
module Rings {
  import opened Prelude
  import opened RingMath

  type Msg = m: seq<u32> | |m| == 8 witness [0, 0, 0, 0, 0, 0, 0, 0]

  datatype Ring = Ring(w: u32, r: u32, slots: seq<Msg>)

  // The ring holds exactly the messages of `queue`, oldest first.
  ghost predicate Holds(ring: Ring, n: nat, queue: seq<Msg>) {
    && 0 < n <= 255 && |ring.slots| == n && |queue| <= n
    && ring.r < 2 * n && ring.w == Advance(ring.r, |queue|, n)
    && forall k :: 0 <= k < |queue| ==> ring.slots[Slot(Advance(ring.r, k, n), n)] == queue[k]
  }

  lemma EmptyHolds(ring: Ring, n: nat)
    requires 0 < n <= 255 && |ring.slots| == n && ring.w == ring.r < 2 * n
    ensures Holds(ring, n, [])
  {
    AdvanceForm(ring.r, 0, n);
  }

  // The pointers of such a ring count its messages.
  lemma HoldsOccupancy(ring: Ring, n: nat, queue: seq<Msg>)
    requires Holds(ring, n, queue)
    ensures ring.w < 2 * n && ring.r < 2 * n
    ensures Occupancy(ring.w, ring.r, n) == |queue|
    ensures ring.w == ring.r <==> queue == []
  {
    OccupancyAdvance(ring.r, |queue|, n);
    AdvanceForm(ring.r, |queue|, n);
  }

  // Whatever is written into the slot at the writer's pointer of a ring that
  // is not full, no queued message changes.
  lemma FreeSlotIsFree(ring: Ring, n: nat, queue: seq<Msg>, slots: seq<Msg>)
    requires Holds(ring, n, queue) && |queue| < n && |slots| == n
    requires forall s :: 0 <= s < n && s != Slot(ring.w, n) ==> slots[s] == ring.slots[s]
    ensures Holds(ring.(slots := slots), n, queue)
  {
    forall k | 0 <= k < |queue| ensures slots[Slot(Advance(ring.r, k, n), n)] == queue[k] {
      SlotsApart(ring.r, k, |queue|, n);
    }
  }

  // Advancing the writer over the slot just filled appends its message.
  lemma Append(ring: Ring, n: nat, queue: seq<Msg>)
    requires Holds(ring, n, queue) && |queue| < n
    ensures Slot(ring.w, n) < n
    ensures Holds(ring.(w := Advance(ring.w, 1, n)), n, queue + [ring.slots[Slot(ring.w, n)]])
  {
    AdvanceTwice(ring.r, |queue|, 1, n);
  }

  // The slot at the reader's pointer is the oldest message; advancing the
  // reader takes it.
  lemma TakeFirst(ring: Ring, n: nat, queue: seq<Msg>)
    requires Holds(ring, n, queue) && queue != []
    ensures ring.slots[Slot(ring.r, n)] == queue[0]
    ensures Holds(ring.(r := Advance(ring.r, 1, n)), n, queue[1..])
  {
    AdvanceForm(ring.r, 0, n);
    AdvanceTwice(ring.r, 1, |queue| - 1, n);
    forall k | 0 <= k < |queue| - 1
      ensures Advance(Advance(ring.r, 1, n), k, n) == Advance(ring.r, k + 1, n)
    {
      AdvanceTwice(ring.r, 1, k, n);
    }
  }

  // ---------------------------------------------------------------- memory

  // A ring in word memory: where its pointers and its first slot are.
  datatype Place = Place(wptr: nat, rptr: nat, base: nat)

  predicate Fits(pl: Place, n: nat, size: nat) {
    && pl.wptr < pl.base && pl.rptr < pl.base && pl.wptr != pl.rptr
    && pl.base + 8 * n <= size
  }

  function MessageAt(mem: seq<u32>, at: nat): Msg
    requires at + 8 <= |mem|
  {
    mem[at..at + 8]
  }

  function RingAt(mem: seq<u32>, pl: Place, n: nat): (ring: Ring)
    requires Fits(pl, n, |mem|)
    ensures |ring.slots| == n
  {
    Ring(mem[pl.wptr], mem[pl.rptr],
         seq(n, s requires 0 <= s < n => MessageAt(mem, pl.base + 8 * s)))
  }

  // A word written outside a ring leaves it as it was.
  lemma WriteElsewhere(mem: seq<u32>, pl: Place, n: nat, at: nat, v: u32)
    requires Fits(pl, n, |mem|) && at < |mem|
    requires at != pl.wptr && at != pl.rptr && !(pl.base <= at < pl.base + 8 * n)
    ensures RingAt(mem[at := v], pl, n) == RingAt(mem, pl, n)
  {
  }

  lemma WritePointer(mem: seq<u32>, pl: Place, n: nat, at: nat, v: u32)
    requires Fits(pl, n, |mem|) && (at == pl.wptr || at == pl.rptr)
    ensures RingAt(mem[at := v], pl, n) ==
              if at == pl.wptr then RingAt(mem, pl, n).(w := v) else RingAt(mem, pl, n).(r := v)
  {
  }

  lemma WriteSlotWord(mem: seq<u32>, pl: Place, n: nat, s: nat, i: nat, v: u32)
    requires Fits(pl, n, |mem|) && s < n && i < 8
    ensures RingAt(mem[pl.base + 8 * s + i := v], pl, n) ==
              RingAt(mem, pl, n).(slots := RingAt(mem, pl, n).slots[s := RingAt(mem, pl, n).slots[s][i := v]])
  {
  }
}
