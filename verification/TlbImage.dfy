// The 96-bit configuration register of a 2 MiB window: packing field by field
// into two words, and what the device decodes from the three dwords written.
module TlbImage {
  import opened Prelude
  import opened Bits

  type u8 = x: int | 0 <= x < 0x100 witness 0

  // A register image held as its low 64 and high 32 bits.
  function Image(lo: u64, hi: u32): nat {
    lo + hi * TWO64
  }

  // A field at a position below 64, as the two words see it.
  lemma PlacedLow(masked: nat, pos: nat, width: nat)
    requires masked < Pow2(width) && width <= 64 && pos < 64 && pos + width <= 96
    ensures masked * Pow2(pos) == masked * Pow2(pos) % TWO64 + masked / Pow2(64 - pos) * TWO64
    ensures pos + width <= 64 ==> masked / Pow2(64 - pos) == 0
    ensures masked / Pow2(64 - pos) < TWO32
  {
    hide Pow2;
    var p, m := Pow2(pos), Pow2(64 - pos);
    Pow2Values();
    Pow2Add(pos, 64 - pos);
    var q, r := Division(masked, m);
    ProductBelow(r, m, p);
    assert masked * p == q * (p * m) + r * p by { assert (q * m) * p == q * (p * m); }
    DivMod(masked * p, q, TWO64, r * p);
    QuotientBound(masked, width, 64 - pos);
  }

  lemma PlacedHigh(masked: nat, pos: nat, width: nat)
    requires masked < Pow2(width) && 64 <= pos && pos + width <= 96
    ensures masked * Pow2(pos) == masked * Pow2(pos - 64) * TWO64
    ensures masked * Pow2(pos - 64) < TWO32
  {
    hide Pow2;
    var p := Pow2(pos - 64);
    Pow2Values();
    Pow2Add(pos - 64, 64);
    assert masked * (p * TWO64) == masked * p * TWO64;
    Pow2Add(width, pos - 64);
    ProductBelow(masked, Pow2(width), p);
    Pow2Monotone(width + pos - 64, 32);
  }

  lemma {:induction false} Pow2Monotone(j: nat, k: nat)
    requires j <= k
    ensures Pow2(j) <= Pow2(k)
  {
    if j < k {
      Pow2Monotone(j, k - 1);
    }
  }

  lemma ProductMonotone(a: nat, b: nat, m: nat)
    requires a <= b
    ensures a * m <= b * m
  {
    assert b * m == a * m + (b - a) * m;
  }

  // x below 2^width leaves less than 2^32 above bit k, or nothing if it fits.
  lemma QuotientBound(x: nat, width: nat, k: nat)
    requires x < Pow2(width) && width <= k + 32
    ensures x / Pow2(k) < TWO32
    ensures width <= k ==> x / Pow2(k) == 0
  {
    hide Pow2;
    var m := Pow2(k);
    var q, r := Division(x, m);
    Pow2Values();
    Pow2Add(32, k);
    Pow2Monotone(width, k + 32);
    if width <= k {
      Pow2Monotone(width, k);
      DivMod(x, 0, m, x);
    } else if q >= TWO32 {
      ProductMonotone(TWO32, q, m);
      assert false;
    }
  }

  // A field that starts in the low word, and may reach into the high one.
  lemma PutLow(lo: u64, hi: u32, pos: nat, width: nat, masked: u64)
    requires masked < Pow2(width) && width <= 64 && pos < 64 && pos + width <= 96
    ensures Or(lo, Shl64(masked, pos)) < TWO64
    ensures var hi' := if pos + width > 64 then Or(hi, Shr64(masked, 64 - pos) % TWO32) else hi;
            hi' < TWO32 && Image(Or(lo, Shl64(masked, pos)), hi') == Or(Image(lo, hi), masked * Pow2(pos))
  {
    hide Or, Pow2;
    var b := masked / Pow2(64 - pos);
    PlacedLow(masked, pos, width);
    OrImages(lo, hi, Shl64(masked, pos), b);
    DivMod(b, 0, TWO32, b);
    OrNothing(hi);
  }

  // A field in the high word alone.
  lemma PutHigh(lo: u64, hi: u32, pos: nat, width: nat, masked: u64)
    requires masked < Pow2(width) && width <= 64 && 64 <= pos && pos + width <= 96
    ensures var hi' := Or(hi, Shl64(masked, pos - 64) % TWO32);
            hi' < TWO32 && Image(lo, hi') == Or(Image(lo, hi), masked * Pow2(pos))
  {
    hide Or, Pow2;
    PlacedHigh(masked, pos, width);
    var b := masked * Pow2(pos - 64);
    DivMod(b, 0, TWO64, b);
    DivMod(b, 0, TWO32, b);
    OrNothing(lo);
    OrImages(lo, hi, 0, b);
  }

  // Inserting a field ORs the value, cut to the width, in at its position:
  // below, across or above bit 64. No shift amount reaches 64.
  method PutField(lo: u64, hi: u32, pos: nat, width: nat, value: u64) returns (lo': u64, hi': u32)
    requires width <= 64 && pos < 96 && pos + width <= 96
    ensures Image(lo', hi') == Or(Image(lo, hi), Shifted(LowBits(value, width), pos))
  {
    hide Or, And, Pow2, Image, Shl64, Shr64;
    MaskOf(width);
    AndMask(value, width);
    var masked := And(value, if width >= 64 then TWO64 - 1 else Shl64(1, width) - 1);
    MaskedFits(value, width);
    lo', hi' := lo, hi;
    if pos < 64 {
      PutLow(lo, hi, pos, width, masked);
      lo' := Or(lo, Shl64(masked, pos));
      if pos + width > 64 {
        hi' := Or(hi, Shr64(masked, 64 - pos) % TWO32);
      }
    } else {
      PutHigh(lo, hi, pos, width, masked);
      hi' := Or(hi, Shl64(masked, pos - 64) % TWO32);
    }
  }

  lemma MaskOf(width: nat)
    requires width <= 64
    ensures Pow2(width) == if width >= 64 then TWO64 else Shl64(1, width)
  {
    Pow2Values();
    if width < 64 {
      Pow2Monotone(width + 1, 64);
      DivMod(Pow2(width), 0, TWO64, Pow2(width));
    }
  }

  lemma MaskedFits(value: u64, width: nat)
    requires width <= 64
    ensures 0 <= value % Pow2(width) < Pow2(width) && value % Pow2(width) < TWO64
  {
    Pow2Values();
    Pow2Monotone(width, 64);
  }

  // ORing both words is ORing the image.
  lemma OrImages(lo: u64, hi: u32, a: u64, b: u32)
    ensures Or(lo, a) < TWO64 && Or(hi, b) < TWO32
    ensures Or(lo, a) + Or(hi, b) * TWO64 == Or(Image(lo, hi), Image(a, b))
  {
    hide Or, Pow2;
    Pow2Values();
    OrSplit(lo, hi, a, b, 64);
    OrSplit(hi, 0, b, 0, 32);
  }

  lemma OrNothing(a: nat)
    ensures Or(a, 0) == a
  {
  }

  // ------------------------------------------------------------------ layout

  datatype Config = Config(addr: u64, xEnd: u16, yEnd: u16, xStart: u16, yStart: u16,
                           noc: u8, mcast: u8, ordering: u8, linked: u8, staticVc: u8)

  const WINDOW_SIZE: int := 0x20_0000

  // The register's fields, LSB first: where each starts and how wide it is.
  const POSITIONS: seq<nat> := [0, 43, 49, 55, 61, 67, 69, 70, 72, 73, 74]
  const WIDTHS: seq<nat> := [43, 6, 6, 6, 6, 2, 1, 2, 1, 1]

  function Values(cfg: Config): (vs: seq<u64>)
    ensures |vs| == 10
  {
    [cfg.addr / WINDOW_SIZE, cfg.xEnd, cfg.yEnd, cfg.xStart, cfg.yStart,
     cfg.noc, cfg.mcast, cfg.ordering, cfg.linked, cfg.staticVc]
  }

  // The device's reading of a register image.
  function Decoded(image: nat): Config
    requires image < Pow2(96)
  {
    Config(AddressField(image), SmallField(image, 43, 6), SmallField(image, 49, 6), SmallField(image, 55, 6),
           SmallField(image, 61, 6), SmallField(image, 67, 2), SmallField(image, 69, 1), SmallField(image, 70, 2),
           SmallField(image, 72, 1), SmallField(image, 73, 1))
  }

  function AddressField(image: nat): u64 {
    FieldValues();
    Field(image, 0, 43) * WINDOW_SIZE
  }

  function SmallField(image: nat, pos: nat, width: nat): u8
    requires width in {1, 2, 6}
  {
    FieldValues();
    Field(image, pos, width)
  }

  lemma FieldValues()
    ensures Pow2(43) * WINDOW_SIZE == TWO64 && Pow2(6) == 64 && Pow2(2) == 4 && Pow2(1) == 2
  {
    Pow2Values();
  }

  // Every field fits where it goes.
  predicate Representable(cfg: Config) {
    && cfg.addr % WINDOW_SIZE == 0
    && cfg.xEnd < 64 && cfg.yEnd < 64 && cfg.xStart < 64 && cfg.yStart < 64
    && cfg.noc < 4 && cfg.mcast < 2 && cfg.ordering < 4 && cfg.linked < 2 && cfg.staticVc < 2
  }

  // The first i fields in place, each cut to its width.
  ghost function Assembled(vs: seq<u64>, i: nat): nat
    requires |vs| == 10 && i <= 10
  {
    if i == 0 then 0
    else Assembled(vs, i - 1) + Shifted(LowBits(vs[i - 1], WIDTHS[i - 1]), POSITIONS[i - 1])
  }

  lemma Contiguous(i: nat)
    requires i < 10
    ensures POSITIONS[i + 1] == POSITIONS[i] + WIDTHS[i] <= 74
    ensures Pow2(POSITIONS[i + 1]) == Pow2(POSITIONS[i]) * Pow2(WIDTHS[i])
  {
    Pow2Add(POSITIONS[i], WIDTHS[i]);
  }

  lemma {:induction false} AssembledBound(vs: seq<u64>, i: nat)
    requires |vs| == 10 && i <= 10
    ensures Assembled(vs, i) < Pow2(POSITIONS[i])
  {
    hide Pow2;
    if i == 0 {
      Pow2Zero();
    } else {
      AssembledBound(vs, i - 1);
      Contiguous(i - 1);
      var p, w := Pow2(POSITIONS[i - 1]), Pow2(WIDTHS[i - 1]);
      var v := vs[i - 1] % w;
      ProductUpTo(v, w, p);
    }
  }

  lemma Pow2Zero()
    ensures Pow2(0) == 1
  {
  }

  lemma ProductUpTo(v: nat, w: nat, p: nat)
    requires v < w
    ensures v * p + p <= p * w
  {
    ProductMonotone(v + 1, w, p);
    assert (v + 1) * p == v * p + p;
    assert w * p == p * w;
  }

  // One more field of the image.
  lemma NextField(vs: seq<u64>, i: nat)
    requires |vs| == 10 && i < 10
    ensures Or(Assembled(vs, i), Shifted(LowBits(vs[i], WIDTHS[i]), POSITIONS[i])) == Assembled(vs, i + 1)
  {
    hide Pow2, Or;
    AssembledBound(vs, i);
    OrAbove(Assembled(vs, i), vs[i] % Pow2(WIDTHS[i]), POSITIONS[i]);
  }

  method Pack(cfg: Config) returns (lo: u64, hi: u32)
    ensures Image(lo, hi) == Assembled(Values(cfg), 10)
  {
    hide Pow2, Or, Assembled;
    ghost var vs := Values(cfg);
    NothingAssembled(vs);
    lo, hi := 0, 0;
    lo, hi := PutField(lo, hi, 0, 43, cfg.addr / WINDOW_SIZE);
    NextField(vs, 0);
    lo, hi := PutField(lo, hi, 43, 6, cfg.xEnd);
    NextField(vs, 1);
    lo, hi := PutField(lo, hi, 49, 6, cfg.yEnd);
    NextField(vs, 2);
    lo, hi := PutField(lo, hi, 55, 6, cfg.xStart);
    NextField(vs, 3);
    lo, hi := PutField(lo, hi, 61, 6, cfg.yStart);
    NextField(vs, 4);
    lo, hi := PutField(lo, hi, 67, 2, cfg.noc);
    NextField(vs, 5);
    lo, hi := PutField(lo, hi, 69, 1, cfg.mcast);
    NextField(vs, 6);
    lo, hi := PutField(lo, hi, 70, 2, cfg.ordering);
    NextField(vs, 7);
    lo, hi := PutField(lo, hi, 72, 1, cfg.linked);
    NextField(vs, 8);
    lo, hi := PutField(lo, hi, 73, 1, cfg.staticVc);
    NextField(vs, 9);
  }

  lemma NothingAssembled(vs: seq<u64>)
    requires |vs| == 10
    ensures Assembled(vs, 0) == 0
  {
  }

  // The fields from the i-th on, brought down to bit 0.
  ghost function Above(vs: seq<u64>, i: nat): nat
    requires |vs| == 10 && i <= 10
    decreases 10 - i
  {
    if i == 10 then 0 else LowBits(vs[i], WIDTHS[i]) + Shifted(Above(vs, i + 1), WIDTHS[i])
  }

  lemma {:induction false} Split(vs: seq<u64>, i: nat)
    requires |vs| == 10 && i <= 10
    ensures Assembled(vs, 10) == Assembled(vs, i) + Shifted(Above(vs, i), POSITIONS[i])
    decreases 10 - i
  {
    hide Pow2, Shifted, LowBits;
    if i == 10 {
      ShiftedZero(POSITIONS[i]);
    } else {
      Split(vs, i + 1);
      Contiguous(i);
      ShiftedSum(LowBits(vs[i], WIDTHS[i]), Above(vs, i + 1), POSITIONS[i], WIDTHS[i]);
    }
  }

  lemma ShiftedZero(k: nat)
    ensures Shifted(0, k) == 0
  {
  }

  lemma ShiftedSum(v: nat, a: nat, k: nat, j: nat)
    ensures Shifted(v + Shifted(a, j), k) == Shifted(v, k) + Shifted(a, k + j)
  {
    hide Pow2;
    Pow2Add(k, j);
    var p, w := Pow2(k), Pow2(j);
    assert (a * w) * p == a * (p * w);
  }

  // Decoding a field gives back its value, cut to its width.
  lemma FieldRecovered(vs: seq<u64>, i: nat)
    requires |vs| == 10 && i < 10
    ensures Field(Assembled(vs, 10), POSITIONS[i], WIDTHS[i]) == LowBits(vs[i], WIDTHS[i])
  {
    hide Pow2;
    Split(vs, i);
    AssembledBound(vs, i);
    DivMod(Assembled(vs, 10), Above(vs, i), Pow2(POSITIONS[i]), Assembled(vs, i));
    DivMod(Above(vs, i), Above(vs, i + 1), Pow2(WIDTHS[i]), vs[i] % Pow2(WIDTHS[i]));
  }

  // A config comes back from its image exactly if every field fits; the image
  // has nothing above the last field.
  lemma PackRoundTripIff(cfg: Config)
    ensures Assembled(Values(cfg), 10) < Pow2(74) < Pow2(96)
    ensures Decoded(Assembled(Values(cfg), 10)) == cfg <==> Representable(cfg)
  {
    hide Pow2, Assembled, Field;
    var vs := Values(cfg);
    AssembledBound(vs, 10);
    Pow2Monotone(75, 96);
    Doubles(74);
    FieldValues();
    FieldRecovered(vs, 0);
    FieldRecovered(vs, 1);
    FieldRecovered(vs, 2);
    FieldRecovered(vs, 3);
    FieldRecovered(vs, 4);
    FieldRecovered(vs, 5);
    FieldRecovered(vs, 6);
    FieldRecovered(vs, 7);
    FieldRecovered(vs, 8);
    FieldRecovered(vs, 9);
    AddressFits(cfg.addr);
    RemainderIff(cfg.xEnd, 64);
    RemainderIff(cfg.yEnd, 64);
    RemainderIff(cfg.xStart, 64);
    RemainderIff(cfg.yStart, 64);
    RemainderIff(cfg.noc, 4);
    RemainderIff(cfg.mcast, 2);
    RemainderIff(cfg.ordering, 4);
    RemainderIff(cfg.linked, 2);
    RemainderIff(cfg.staticVc, 2);
  }

  lemma Doubles(k: nat)
    ensures Pow2(k + 1) == 2 * Pow2(k)
  {
  }

  lemma RemainderIff(x: nat, m: nat)
    requires m > 0
    ensures x % m == x <==> x < m
  {
  }

  lemma AddressFits(addr: u64)
    ensures addr / WINDOW_SIZE % Pow2(43) == addr / WINDOW_SIZE
    ensures addr / WINDOW_SIZE * WINDOW_SIZE == addr <==> addr % WINDOW_SIZE == 0
  {
    Pow2Values();
  }
}
