// Pointer arithmetic of the mailbox rings. Pointers run modulo 2n so that a
// full ring and an empty one differ; the driver subtracts them in 32 bits.
module RingMath {
  import opened Prelude
  import opened Bits

  // What the driver computes: u32 subtraction, then the remainder.
  function Occupancy32(w: u32, r: u32, n: nat): nat
    requires n > 0
  {
    ((w - r) % TWO32) % (2 * n)
  }

  // How many entries the ring holds.
  function Occupancy(w: int, r: int, n: nat): (k: nat)
    requires n > 0
    ensures k < 2 * n
  {
    (w - r) % (2 * n)
  }

  // How far the 32-bit formula strays once the writer has wrapped and the
  // reader has not.
  function Slip(n: nat): (c: nat)
    requires n > 0
    ensures c < 2 * n && c % 2 == 0
  {
    ModEven(n);
    TWO32 % (2 * n)
  }

  lemma ModEven(n: nat)
    requires n > 0
    ensures TWO32 % (2 * n) % 2 == 0
  {
    var q := TWO32 / (2 * n);
    assert TWO32 == q * (2 * n) + TWO32 % (2 * n);
    assert q * (2 * n) == 2 * (q * n);
  }

  // In closed form, for pointers of an n-entry ring.
  lemma OccupancyForms(w: nat, r: nat, n: nat)
    requires 0 < n <= 255 && w < 2 * n && r < 2 * n
    ensures Occupancy(w, r, n) == if w >= r then w - r else w - r + 2 * n
    ensures Occupancy32(w, r, n) ==
              if w >= r then w - r
              else if Occupancy(w, r, n) + Slip(n) < 2 * n then Occupancy(w, r, n) + Slip(n)
              else Occupancy(w, r, n) + Slip(n) - 2 * n
  {
    var m := 2 * n;
    if w >= r {
      DivMod(w - r, 0, m, w - r);
      DivMod(w - r, 0, TWO32, w - r);
    } else {
      var k := w - r + m;
      DivMod(w - r, -1, m, k);
      DivMod(w - r, -1, TWO32, w - r + TWO32);
      var q := TWO32 / m;
      assert TWO32 == q * m + Slip(n);
      assert w - r + TWO32 == (q - 1) * m + (k + Slip(n)) by {
        assert (q - 1) * m == q * m - m;
      }
      if k + Slip(n) < m {
        DivMod(w - r + TWO32, q - 1, m, k + Slip(n));
      } else {
        assert q * m == (q - 1) * m + m;
        DivMod(w - r + TWO32, q, m, k + Slip(n) - m);
      }
    }
  }

  // The 32-bit formula is exact on a pair of pointers if and only if the
  // writer has not wrapped past the reader or 2n divides 2^32.
  lemma OccupancyExactIff(w: nat, r: nat, n: nat)
    requires 0 < n <= 255 && w < 2 * n && r < 2 * n
    ensures Occupancy32(w, r, n) == Occupancy(w, r, n) <==> w >= r || TWO32 % (2 * n) == 0
  {
    OccupancyForms(w, r, n);
  }

  // What the driver decides with it on a ring holding at most n entries: full
  // when it pushes, empty when it pops.
  predicate PushRight(w: u32, r: u32, n: nat)
    requires n > 0
  {
    Occupancy32(w, r, n) >= n <==> Occupancy(w, r, n) == n
  }

  predicate PopRight(w: u32, r: u32, n: nat)
    requires n > 0
  {
    Occupancy32(w, r, n) == 0 <==> Occupancy(w, r, n) == 0
  }

  ghost predicate DecidesRight(w: u32, r: u32, n: nat)
    requires n > 0
  {
    PushRight(w, r, n) && PopRight(w, r, n)
  }

  // A push decides wrongly exactly past a wrap, on a full ring if the slip is at
  // least n, on another if the slip lifts the count to n or more.
  lemma PushDecision(w: nat, r: nat, n: nat)
    requires 0 < n <= 255 && w < 2 * n && r < 2 * n && Occupancy(w, r, n) <= n
    ensures var k, c := Occupancy(w, r, n), Slip(n);
            !PushRight(w, r, n) <==> w < r && (if k == n then c >= n else n <= k + c < 2 * n)
  {
    OccupancyForms(w, r, n);
  }

  lemma PushSafe(w: nat, r: nat, n: nat)
    requires 0 < n <= 255 && w < 2 * n && r < 2 * n && Occupancy(w, r, n) <= n
    ensures w >= r || TWO32 % (2 * n) == 0 ==> PushRight(w, r, n)
    ensures !PushRight(w, r, n) && Occupancy32(w, r, n) < n ==> Occupancy(w, r, n) == n && Slip(n) >= n
  {
    PushDecision(w, r, n);
    OccupancyForms(w, r, n);
  }

  // The number of waiting responses that reads as none once the writer has
  // wrapped: more than the ring holds unless the slip is at least n.
  function Gap(n: nat): (g: nat)
    requires n > 0
    ensures 2 <= g <= 2 * n
    ensures g > n <==> Slip(n) < n
  {
    2 * n - Slip(n)
  }

  lemma GapBounds(n: nat)
    requires n > 0
    ensures 2 <= Gap(n) <= 2 * n && (Gap(n) > n <==> Slip(n) < n)
  {
  }

  lemma GapWide(n: nat)
    requires n > 0 && TWO32 % (2 * n) == 0
    ensures Gap(n) > n && Slip(n) == 0
  {
  }

  // A ring of k responses, from the reader's pointer on, that a pop takes for
  // empty: an empty one, or one of just the gap whose writer has wrapped.
  predicate ReadsEmpty(r: nat, k: nat, n: nat)
    requires n > 0
  {
    k == 0 || (k == Gap(n) && Advance(r, k, n) < Gap(n))
  }

  lemma PopDecision(w: nat, r: nat, n: nat)
    requires 0 < n <= 255 && w < 2 * n && r < 2 * n && Occupancy(w, r, n) <= n
    ensures Occupancy32(w, r, n) == 0 <==> ReadsEmpty(r, Occupancy(w, r, n), n)
    ensures PopRight(w, r, n) <==> (ReadsEmpty(r, Occupancy(w, r, n), n) ==> w == r)
  {
    OccupancyForms(w, r, n);
    AdvanceForm(r, Occupancy(w, r, n), n);
  }

  // A reader that moves towards a writer ahead of it stays behind it.
  lemma StaysBehind(w: nat, r: nat, r': nat, n: nat)
    requires 0 < n <= 255 && w < 2 * n && r <= w && r' < 2 * n
    requires Occupancy(w, r', n) <= Occupancy(w, r, n)
    ensures r' <= w
  {
    OccupancyForms(w, r, n);
    OccupancyForms(w, r', n);
  }

  // Both decisions - ring full, nothing to pop - are right in every state of
  // an n-entry ring if and only if 2n divides 2^32.
  lemma DecisionsRightIff(n: nat)
    requires 0 < n <= 255
    ensures (forall w: nat, r: nat :: w < 2 * n && r < 2 * n && Occupancy(w, r, n) <= n ==> DecidesRight(w, r, n))
              <==> TWO32 % (2 * n) == 0
  {
    var c := Slip(n);
    if c == 0 {
      forall w: nat, r: nat | w < 2 * n && r < 2 * n && Occupancy(w, r, n) <= n
        ensures DecidesRight(w, r, n)
      {
        OccupancyExactIff(w, r, n);
      }
    } else {
      // A reader that has reached slot c and a writer back at 0 look empty; if
      // that is more than the ring may hold, one short of full looks full.
      var r := if c >= n then c else n + 1;
      assert n != 1;
      OccupancyForms(0, r, n);
      assert !DecidesRight(0, r, n);
    }
  }

  // A full ring is pushed into - a live slot overwritten - in some state if
  // and only if the slip is at least n.
  lemma OverwritesIff(n: nat)
    requires 0 < n <= 255
    ensures (exists w: nat, r: nat :: w < 2 * n && r < 2 * n && Occupancy(w, r, n) == n && Occupancy32(w, r, n) < n)
              <==> TWO32 % (2 * n) >= n
  {
    var c := Slip(n);
    if c >= n {
      OccupancyForms(0, n, n);
      assert Occupancy(0, n, n) == n && Occupancy32(0, n, n) < n;
    } else {
      forall w: nat, r: nat | w < 2 * n && r < 2 * n && Occupancy(w, r, n) == n
        ensures Occupancy32(w, r, n) >= n
      {
        OccupancyForms(w, r, n);
      }
    }
  }

  // A three-entry ring: the formula says empty where there are two entries,
  // and says one where the ring is full.
  lemma ThreeEntryRing()
    ensures Occupancy(0, 4, 3) == 2 && Occupancy32(0, 4, 3) == 0
    ensures Occupancy(0, 3, 3) == 3 && Occupancy32(0, 3, 3) == 1
  {
  }

  // ------------------------------------------------------------------ slots

  // Slot of the k-th entry after the reader's, and the pointer after k steps.
  function Slot(p: nat, n: nat): (s: nat)
    requires n > 0
    ensures s < n
  {
    p % n
  }

  function Advance(p: nat, k: nat, n: nat): (q: nat)
    requires n > 0
    ensures q < 2 * n
  {
    (p + k) % (2 * n)
  }

  lemma AdvanceForm(p: nat, k: nat, n: nat)
    requires n > 0 && p < 2 * n && k <= n
    ensures Advance(p, k, n) == if p + k < 2 * n then p + k else p + k - 2 * n
  {
    DivMod(p + k, if p + k < 2 * n then 0 else 1, 2 * n, if p + k < 2 * n then p + k else p + k - 2 * n);
  }

  lemma AdvanceNone(p: nat, n: nat)
    requires n > 0 && p < 2 * n
    ensures Advance(p, 0, n) == p
  {
    AdvanceForm(p, 0, n);
  }

  lemma SlotForm(p: nat, n: nat)
    requires n > 0 && p < 2 * n
    ensures Slot(p, n) == if p < n then p else p - n
  {
  }

  // Entries less than a ring apart sit in different slots.
  lemma SlotsApart(p: nat, j: nat, k: nat, n: nat)
    requires n > 0 && p < 2 * n && j < k <= n
    ensures Slot(Advance(p, j, n), n) == Slot(Advance(p, k, n), n) <==> j == 0 && k == n
  {
    AdvanceForm(p, j, n);
    AdvanceForm(p, k, n);
    SlotForm(Advance(p, j, n), n);
    SlotForm(Advance(p, k, n), n);
  }

  lemma AdvanceTwice(p: nat, j: nat, k: nat, n: nat)
    requires n > 0 && p < 2 * n && j + k <= n
    ensures Advance(Advance(p, j, n), k, n) == Advance(p, j + k, n)
  {
    AdvanceForm(p, j, n);
    AdvanceForm(Advance(p, j, n), k, n);
    AdvanceForm(p, j + k, n);
  }

  lemma OccupancyAdvance(r: nat, k: nat, n: nat)
    requires 0 < n <= 255 && r < 2 * n && k <= n
    ensures Occupancy(Advance(r, k, n), r, n) == k
  {
    AdvanceForm(r, k, n);
    OccupancyForms(Advance(r, k, n), r, n);
  }
}
