/**
 The integer half of the SDOT kernels: four 32-bit lanes, nibble weights against int8
 activations in split order, for the group-64 and the group-256 subfold formats.
 */
module SdotDot {
  import opened Common

  const INT32_MAX := 0x7FFF_FFFF

  /** An int32x4_t. */
  datatype Lanes = Lanes(a: int, b: int, c: int, d: int)

  const ZERO := Lanes(0, 0, 0, 0)

  /** vaddvq_s32 */
  function Across(v: Lanes): int {
    v.a + v.b + v.c + v.d
  }

  function Dot4(w: seq<int>, x: seq<int>, i: nat): int
    requires i + 4 <= |w| && i + 4 <= |x|
  {
    w[i] * x[i] + w[i + 1] * x[i + 1] + w[i + 2] * x[i + 2] + w[i + 3] * x[i + 3]
  }

  /** vdotq_s32: lane i gets the products of bytes 4i to 4i+3. */
  function VDot(acc: Lanes, w: seq<int>, x: seq<int>): Lanes
    requires |w| == 16 && |x| == 16
  {
    Lanes(acc.a + Dot4(w, x, 0), acc.b + Dot4(w, x, 4), acc.c + Dot4(w, x, 8), acc.d + Dot4(w, x, 12))
  }

  /** vmlaq_n_s32 */
  function MulAdd(acc: Lanes, v: Lanes, k: int): Lanes {
    Lanes(acc.a + v.a * k, acc.b + v.b * k, acc.c + v.c * k, acc.d + v.d * k)
  }

  function Sum(f: seq<int>, n: nat): int
    requires n <= |f|
  {
    if n == 0 then 0 else Sum(f, n - 1) + f[n - 1]
  }

  function Products(w: seq<int>, x: seq<int>): seq<int>
    requires |w| == |x|
  {
    seq(|w|, k requires 0 <= k < |w| => w[k] * x[k])
  }

  lemma {:induction false} Sum4(f: seq<int>, n: nat)
    requires n + 4 <= |f|
    ensures Sum(f, n + 4) == Sum(f, n) + f[n] + f[n + 1] + f[n + 2] + f[n + 3]
  {
    assert Sum(f, n + 2) == Sum(f, n) + f[n] + f[n + 1];
  }

  lemma {:induction false} VDotAcross(acc: Lanes, w: seq<int>, x: seq<int>)
    requires |w| == 16 && |x| == 16
    ensures Across(VDot(acc, w, x)) == Across(acc) + Sum(Products(w, x), 16)
  {
    hide Sum;
    var f := Products(w, x);
    assert Sum(f, 0) == 0 by { SumZero(f); }
    Sum4(f, 0);
    Sum4(f, 4);
    Sum4(f, 8);
    Sum4(f, 12);
  }

  lemma {:induction false} SumZero(f: seq<int>)
    ensures Sum(f, 0) == 0
  {
  }

  // ---- weights and activations ----

  /** Weight i of a row: low nibble of byte i / 2 for even i, minus 8. */
  function Weight(pr: Bytes, i: nat): int
    requires i / 2 < |pr|
  {
    (if i % 2 == 0 then pr[i / 2] as int % 16 else pr[i / 2] as int / 16) - 8
  }

  function LowNibbles(pr: Bytes, at: nat): seq<int>
    requires at + 16 <= |pr|
  {
    seq(16, k requires 0 <= k < 16 => pr[at + k] as int % 16 - 8)
  }

  function HighNibbles(pr: Bytes, at: nat): seq<int>
    requires at + 16 <= |pr|
  {
    seq(16, k requires 0 <= k < 16 => pr[at + k] as int / 16 - 8)
  }

  /** q4_split_act: each 32 activations become their even ones, then their odd ones. */
  predicate SplitOf(split: seq<int>, nat_: seq<int>) {
    && |split| == |nat_|
    && forall c, k :: 0 <= c < |split| / 32 && 0 <= k < 16 ==> SplitAt(split, nat_, c, k)
  }

  predicate SplitAt(split: seq<int>, nat_: seq<int>, c: nat, k: nat)
    requires |split| == |nat_| && c < |split| / 32 && k < 16
  {
    split[32 * c + k] == nat_[32 * c + 2 * k] && split[32 * c + 16 + k] == nat_[32 * c + 2 * k + 1]
  }

  method SplitActivation(x: seq<int>) returns (split: array<int>)
    requires |x| % 32 == 0
    ensures fresh(split) && split.Length == |x| && SplitOf(split[..], x)
  {
    split := new int[|x|];
    var c := 0;
    while 32 * c < |x|
      invariant 32 * c <= |x|
      invariant forall d, k :: 0 <= d < c && 0 <= k < 16 ==> SplitAt(split[..], x, d, k)
    {
      ghost var before := split[..];
      for k := 0 to 16
        invariant forall i :: 0 <= i < 32 * c ==> split[i] == before[i]
        invariant forall i :: 0 <= i < k ==> split[32 * c + i] == x[32 * c + 2 * i]
        invariant forall i :: 0 <= i < k ==> split[32 * c + 16 + i] == x[32 * c + 2 * i + 1]
      {
        split[32 * c + k] := x[32 * c + 2 * k];
        split[32 * c + 16 + k] := x[32 * c + 2 * k + 1];
      }
      forall d, k | 0 <= d < c + 1 && 0 <= k < 16 ensures SplitAt(split[..], x, d, k) {
        if d < c {
          assert SplitAt(before, x, d, k);
        }
      }
      c := c + 1;
    }
  }

  // ---- one group of 64 ----

  /** The low nibbles of a 16-byte chunk against the first sixteen of its 32 split activations. */
  function HalfChunk(acc: Lanes, pr: Bytes, col: seq<int>, c: nat): Lanes
    requires 16 * c + 16 <= |pr| && 32 * c + 32 <= |col|
  {
    VDot(acc, LowNibbles(pr, 16 * c), col[32 * c..32 * c + 16])
  }

  /** One 16-byte chunk of weights against 32 split activations. */
  function ChunkDot(acc: Lanes, pr: Bytes, col: seq<int>, c: nat): Lanes
    requires 16 * c + 16 <= |pr| && 32 * c + 32 <= |col|
  {
    VDot(HalfChunk(acc, pr, col, c), HighNibbles(pr, 16 * c), col[32 * c + 16..32 * c + 32])
  }

  function GroupDot(pr: Bytes, col: seq<int>, g: nat): Lanes
    requires 32 * g + 32 <= |pr| && 64 * g + 64 <= |col|
  {
    ChunkDot(ChunkDot(ZERO, pr, col, 2 * g), pr, col, 2 * g + 1)
  }

  /** The same products in natural order. */
  function NaturalProducts(pr: Bytes, x: seq<int>): seq<int>
    requires |x| == 2 * |pr|
  {
    seq(|x|, i requires 0 <= i < |x| => Weight(pr, i) * x[i])
  }

  lemma {:induction false} PairSums(low: seq<int>, high: seq<int>, all: seq<int>, at: nat, k: nat)
    requires k <= |low| == |high| && at + 2 * |low| <= |all|
    requires forall i :: 0 <= i < |low| ==> low[i] == all[at + 2 * i] && high[i] == all[at + 2 * i + 1]
    ensures Sum(low, k) + Sum(high, k) == Sum(all, at + 2 * k) - Sum(all, at)
  {
    if k > 0 {
      PairSums(low, high, all, at, k - 1);
      assert Sum(all, at + 2 * k) == Sum(all, at + 2 * k - 1) + all[at + 2 * (k - 1) + 1];
      assert Sum(all, at + 2 * k - 1) == Sum(all, at + 2 * (k - 1)) + all[at + 2 * (k - 1)];
    }
  }

  lemma {:induction false} ChunkIsNatural(acc: Lanes, pr: Bytes, split: seq<int>, x: seq<int>, c: nat)
    requires SplitOf(split, x) && |x| == 2 * |pr| && 16 * c + 16 <= |pr|
    ensures Across(ChunkDot(acc, pr, split, c))
         == Across(acc) + Sum(NaturalProducts(pr, x), 32 * c + 32) - Sum(NaturalProducts(pr, x), 32 * c)
  {
    hide Sum, VDot, Across;
    var lw, lx := LowNibbles(pr, 16 * c), split[32 * c..32 * c + 16];
    var hw, hx := HighNibbles(pr, 16 * c), split[32 * c + 16..32 * c + 32];
    VDotAcross(acc, lw, lx);
    VDotAcross(VDot(acc, lw, lx), hw, hx);
    var all := NaturalProducts(pr, x);
    forall i | 0 <= i < 16
      ensures Products(lw, lx)[i] == all[32 * c + 2 * i] && Products(hw, hx)[i] == all[32 * c + 2 * i + 1]
    {
      assert SplitAt(split, x, c, i);
    }
    PairSums(Products(lw, lx), Products(hw, hx), all, 32 * c, 16);
  }

  /** On split activations a group's integer sum is the natural-order sum of (nibble - 8) * activation. */
  lemma {:induction false} GroupIsNatural(pr: Bytes, split: seq<int>, x: seq<int>, g: nat)
    requires SplitOf(split, x) && |x| == 2 * |pr| && 32 * g + 32 <= |pr|
    ensures Across(GroupDot(pr, split, g)) == Sum(NaturalProducts(pr, x), 64 * g + 64) - Sum(NaturalProducts(pr, x), 64 * g)
  {
    hide ChunkDot, Sum, NaturalProducts;
    ChunkIsNatural(ZERO, pr, split, x, 2 * g);
    ChunkIsNatural(ChunkDot(ZERO, pr, split, 2 * g), pr, split, x, 2 * g + 1);
  }

  // ---- int32 is enough ----

  predicate Int8s(x: seq<int>) {
    forall i :: 0 <= i < |x| ==> -128 <= x[i] <= 127
  }

  predicate Within(v: Lanes, m: int) {
    -m <= v.a <= m && -m <= v.b <= m && -m <= v.c <= m && -m <= v.d <= m
  }

  lemma {:induction false} ProductBound(w: int, x: int)
    requires -8 <= w <= 7 && -128 <= x <= 127
    ensures -1024 <= w * x <= 1024
  {
  }

  lemma {:induction false} VDotBound(acc: Lanes, w: seq<int>, x: seq<int>, m: int)
    requires |w| == 16 && |x| == 16 && Int8s(x) && forall i :: 0 <= i < 16 ==> -8 <= w[i] <= 7
    requires Within(acc, m)
    ensures Within(VDot(acc, w, x), m + 4096)
  {
    forall i | 0 <= i < 16 ensures -1024 <= w[i] * x[i] <= 1024 {
      ProductBound(w[i], x[i]);
    }
  }

  lemma {:induction false} ChunkBound(acc: Lanes, pr: Bytes, col: seq<int>, c: nat, m: int)
    requires 16 * c + 16 <= |pr| && 32 * c + 32 <= |col| && Int8s(col) && Within(acc, m)
    ensures Within(HalfChunk(acc, pr, col, c), m + 4096) && Within(ChunkDot(acc, pr, col, c), m + 8192)
  {
    hide VDot, Within;
    VDotBound(acc, LowNibbles(pr, 16 * c), col[32 * c..32 * c + 16], m);
    VDotBound(HalfChunk(acc, pr, col, c), HighNibbles(pr, 16 * c), col[32 * c + 16..32 * c + 32], m + 4096);
  }

  /** A lane of a group of 64 adds 16 products of at most 8 * 128, a quarter of them per vector instruction. */
  lemma {:induction false} GroupBound(pr: Bytes, col: seq<int>, g: nat)
    requires 32 * g + 32 <= |pr| && 64 * g + 64 <= |col| && Int8s(col)
    ensures var first := ChunkDot(ZERO, pr, col, 2 * g);
            && Within(HalfChunk(ZERO, pr, col, 2 * g), 4 * 8 * 128) && Within(first, 8 * 8 * 128)
            && Within(HalfChunk(first, pr, col, 2 * g + 1), 12 * 8 * 128)
    ensures Within(GroupDot(pr, col, g), 16 * 8 * 128)
  {
    hide HalfChunk, ChunkDot;
    ChunkBound(ZERO, pr, col, 2 * g, 0);
    ChunkBound(ChunkDot(ZERO, pr, col, 2 * g), pr, col, 2 * g + 1, 8192);
  }

  // ---- group-256 subfold: two ways to finish four groups of 64 ----

  /** V: scale the lanes by the sub-code, add, reduce once. */
  function FoldedLanes(pr: Bytes, subcode: Bytes, col: seq<int>, gs: nat, n: nat): Lanes
    requires n <= 4 && 128 * gs + 128 <= |pr| && 256 * gs + 256 <= |col| && 4 * gs + 4 <= |subcode|
  {
    if n == 0 then ZERO
    else MulAdd(FoldedLanes(pr, subcode, col, gs, n - 1), GroupDot(pr, col, 4 * gs + n - 1), subcode[4 * gs + n - 1])
  }

  /** S: reduce every group, scale the scalar, add. */
  function FoldedScalar(pr: Bytes, subcode: Bytes, col: seq<int>, gs: nat, n: nat): int
    requires n <= 4 && 128 * gs + 128 <= |pr| && 256 * gs + 256 <= |col| && 4 * gs + 4 <= |subcode|
  {
    if n == 0 then 0
    else FoldedScalar(pr, subcode, col, gs, n - 1) + Across(GroupDot(pr, col, 4 * gs + n - 1)) * subcode[4 * gs + n - 1]
  }

  lemma {:induction false} MulAddAcross(acc: Lanes, v: Lanes, k: int)
    ensures Across(MulAdd(acc, v, k)) == Across(acc) + Across(v) * k
  {
  }

  /** Both forms compute the same integer, for every input. */
  lemma {:induction false} FoldsAgree(pr: Bytes, subcode: Bytes, col: seq<int>, gs: nat, n: nat)
    requires n <= 4 && 128 * gs + 128 <= |pr| && 256 * gs + 256 <= |col| && 4 * gs + 4 <= |subcode|
    ensures Across(FoldedLanes(pr, subcode, col, gs, n)) == FoldedScalar(pr, subcode, col, gs, n)
  {
    hide GroupDot, Across, MulAdd;
    if n == 0 {
      ZeroAcross();
    } else {
      FoldsAgree(pr, subcode, col, gs, n - 1);
      MulAddAcross(FoldedLanes(pr, subcode, col, gs, n - 1), GroupDot(pr, col, 4 * gs + n - 1), subcode[4 * gs + n - 1]);
    }
  }

  lemma {:induction false} ZeroAcross()
    ensures Across(ZERO) == 0
  {
  }

  lemma {:induction false} ScaledLane(v: int, m: int, k: int, limit: int)
    requires -m <= v <= m && 0 <= k <= limit && m >= 0
    ensures -(m * limit) <= v * k <= m * limit
  {
    assert m * k <= m * limit;
    assert v * k <= m * k;
    assert -(m * k) <= v * k;
  }

  /** The products of a multiply-add, before they are added. */
  function Scaled(v: Lanes, k: int): Lanes {
    Lanes(v.a * k, v.b * k, v.c * k, v.d * k)
  }

  lemma {:induction false} ScaledBound(v: Lanes, k: int, m: int, limit: int)
    requires Within(v, m) && 0 <= k <= limit && m >= 0
    ensures Within(Scaled(v, k), m * limit)
  {
    ScaledLane(v.a, m, k, limit);
    ScaledLane(v.b, m, k, limit);
    ScaledLane(v.c, m, k, limit);
    ScaledLane(v.d, m, k, limit);
  }

  lemma {:induction false} MulAddBound(acc: Lanes, v: Lanes, k: int, m: int, m': int, limit: int)
    requires Within(acc, m) && Within(v, m') && 0 <= k <= limit && m' >= 0
    ensures Within(MulAdd(acc, v, k), m + m' * limit)
  {
    ScaledBound(v, k, m', limit);
  }

  /** Sub-codes are bytes of which the format uses six bits; `limit` is the largest one present. */
  predicate Codes(subcode: Bytes, limit: nat) {
    forall i :: 0 <= i < |subcode| ==> subcode[i] <= limit
  }

  lemma {:induction false} FoldedLanesBound(pr: Bytes, subcode: Bytes, col: seq<int>, gs: nat, n: nat, limit: nat)
    requires n <= 4 && 128 * gs + 128 <= |pr| && 256 * gs + 256 <= |col| && 4 * gs + 4 <= |subcode|
    requires Int8s(col) && Codes(subcode, limit)
    ensures Within(FoldedLanes(pr, subcode, col, gs, n), n * (16384 * limit))
  {
    hide GroupDot, MulAdd, Within;
    if n == 0 {
      ZeroWithin(n * (16384 * limit));
    } else {
      FoldedLanesBound(pr, subcode, col, gs, n - 1, limit);
      GroupBound(pr, col, 4 * gs + n - 1);
      MulAddBound(FoldedLanes(pr, subcode, col, gs, n - 1), GroupDot(pr, col, 4 * gs + n - 1), subcode[4 * gs + n - 1],
                  (n - 1) * (16384 * limit), 16384, limit);
      assert n * (16384 * limit) == (n - 1) * (16384 * limit) + 16384 * limit;
    }
  }

  lemma {:induction false} ZeroWithin(m: int)
    requires m >= 0
    ensures Within(ZERO, m)
  {
  }

  /** Every partial sum of a horizontal reduction, in whatever order the lanes are added. */
  predicate SumsWithin(v: Lanes, m: int) {
    && Within(v, m) && -m <= Across(v) <= m
    && -m <= v.a + v.b <= m && -m <= v.a + v.c <= m && -m <= v.a + v.d <= m
    && -m <= v.b + v.c <= m && -m <= v.b + v.d <= m && -m <= v.c + v.d <= m
    && -m <= v.a + v.b + v.c <= m && -m <= v.a + v.b + v.d <= m && -m <= v.a + v.c + v.d <= m && -m <= v.b + v.c + v.d <= m
  }

  lemma {:induction false} AcrossBound(v: Lanes, m: int)
    requires Within(v, m) && m >= 0
    ensures SumsWithin(v, 4 * m) && -(4 * m) <= Across(v) <= 4 * m
  {
  }

  lemma {:induction false} WidenBound(v: Lanes, m: int, m': int)
    requires Within(v, m) && m <= m'
    ensures Within(v, m')
  {
  }

  /**
   Nothing either form computes leaves int32: no lane after any vector instruction (GroupBound has
   the ones inside a group), no product of a multiply-add, no combined lane, no partial sum of a
   reduction, no scaled group sum and no scalar accumulator. With six-bit codes all stay within
   16 * 8 * 128 * 63 * 4 * 4, and even with any byte for a code there is room.
   */
  lemma {:induction false} NothingOverflows(pr: Bytes, subcode: Bytes, col: seq<int>, gs: nat, n: nat, limit: nat)
    requires n <= 4 && 128 * gs + 128 <= |pr| && 256 * gs + 256 <= |col| && 4 * gs + 4 <= |subcode|
    requires Int8s(col) && Codes(subcode, limit) && limit <= 255
    ensures Within(FoldedLanes(pr, subcode, col, gs, n), 4 * (16384 * limit))
    ensures SumsWithin(FoldedLanes(pr, subcode, col, gs, n), 16 * (16384 * limit))
    ensures -(16 * (16384 * limit)) <= FoldedScalar(pr, subcode, col, gs, n) <= 16 * (16384 * limit) < INT32_MAX
    ensures n < 4 ==> SumsWithin(GroupDot(pr, col, 4 * gs + n), 65536)
    ensures n < 4 ==> Within(Scaled(GroupDot(pr, col, 4 * gs + n), subcode[4 * gs + n]), 16384 * limit)
    ensures n < 4 ==> -(65536 * limit) <= Across(GroupDot(pr, col, 4 * gs + n)) * subcode[4 * gs + n] <= 65536 * limit
    ensures limit == 63 ==> 16 * (16384 * limit) == 16 * 8 * 128 * 63 * 4 * 4
  {
    hide GroupDot, FoldedLanes, FoldedScalar, SumsWithin, Scaled, Within, Across;
    var v, unit := FoldedLanes(pr, subcode, col, gs, n), 16384 * limit;
    FoldedLanesBound(pr, subcode, col, gs, n, limit);
    FoldsAgree(pr, subcode, col, gs, n);
    FoldFits(v, n, unit);
    if n < 4 {
      GroupBound(pr, col, 4 * gs + n);
      GroupFits(GroupDot(pr, col, 4 * gs + n), subcode[4 * gs + n], limit);
    }
  }

  lemma {:induction false} FoldFits(v: Lanes, n: nat, unit: nat)
    requires n <= 4 && Within(v, n * unit)
    ensures Within(v, 4 * unit) && SumsWithin(v, 16 * unit) && -(16 * unit) <= Across(v) <= 16 * unit
  {
    hide Within, SumsWithin, Across;
    assert n * unit <= 4 * unit;
    WidenBound(v, n * unit, 4 * unit);
    AcrossBound(v, 4 * unit);
  }

  lemma {:induction false} GroupFits(v: Lanes, k: int, limit: nat)
    requires Within(v, 16384) && 0 <= k <= limit
    ensures SumsWithin(v, 65536) && Within(Scaled(v, k), 16384 * limit)
    ensures -(65536 * limit) <= Across(v) * k <= 65536 * limit
  {
    hide Scaled, Within, SumsWithin, Across;
    AcrossBound(v, 16384);
    ScaledBound(v, k, 16384, limit);
    ScaledLane(Across(v), 65536, k, limit);
  }


  predicate FitsInt32(i: int) {
    -0x8000_0000 <= i <= 0x7FFF_FFFF
  }

  /** Every lane and their sum. */
  predicate AllFit(v: Lanes) {
    FitsInt32(v.a) && FitsInt32(v.b) && FitsInt32(v.c) && FitsInt32(v.d) && FitsInt32(v.a + v.b + v.c + v.d)
  }

  lemma {:induction false} WithinFits(v: Lanes, m: int)
    requires Within(v, m) && 0 <= m <= 0x1FFF_FFFF
    ensures AllFit(v)
  {
  }

  /** Lane by lane, for int8 activations: what GroupBound says in terms of int32. */
  lemma {:induction false} GroupLanesFit(pr: Bytes, col: seq<int>, g: nat)
    requires 32 * g + 32 <= |pr| && 64 * g + 64 <= |col| && forall i :: 0 <= i < |col| ==> -128 <= col[i] <= 127
    ensures AllFit(GroupDot(pr, col, g))
  {
    hide GroupDot;
    GroupBound(pr, col, g);
    WithinFits(GroupDot(pr, col, g), 16384);
  }

  lemma {:induction false} FourShares(n: nat)
    requires n <= 4
    ensures n * (16384 * 255) <= 0x1FFF_FFFF
  {
  }

  /** ... and for the combined lanes and the scalar of a subfold group, with any byte as sub-code. */
  lemma {:induction false} FoldedLanesFit(pr: Bytes, subcode: Bytes, col: seq<int>, gs: nat, n: nat)
    requires n <= 4 && 128 * gs + 128 <= |pr| && 256 * gs + 256 <= |col| && 4 * gs + 4 <= |subcode|
    requires forall i :: 0 <= i < |col| ==> -128 <= col[i] <= 127
    ensures AllFit(FoldedLanes(pr, subcode, col, gs, n)) && FitsInt32(FoldedScalar(pr, subcode, col, gs, n))
  {
    hide FoldedLanes, FoldedScalar, Within, AllFit, Across;
    var v := FoldedLanes(pr, subcode, col, gs, n);
    FoldedLanesBound(pr, subcode, col, gs, n, 255);
    FourShares(n);
    WithinFits(v, n * (16384 * 255));
    FoldsAgree(pr, subcode, col, gs, n);
    AcrossFits(v);
  }

  lemma {:induction false} AcrossFits(v: Lanes)
    requires AllFit(v)
    ensures FitsInt32(Across(v))
  {
  }
}
