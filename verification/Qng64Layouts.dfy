/** The nibble layout of q4g64 beside four bit planes, and the repack of bit planes into MLX's bit stream. */
module Qng64Layouts {
  import opened Common
  import opened ErrorFeedback
  import opened BitPlanes
  import opened Qng64

  // ---- q4g64 ----

  predicate NibblesHold(packed: Bytes, base: nat, us: seq<nat>, p: nat) {
    && p <= |us| && base + (p + 1) / 2 <= |packed|
    && (p % 2 == 1 ==> packed[base + p / 2] < 16)
    && forall q :: 0 <= q < p ==> NibbleIs(packed, base, q, us[q])
  }

  predicate NibbleIs(packed: Bytes, base: nat, q: nat, u: nat) {
    base + q / 2 < |packed| && u == if q % 2 == 0 then packed[base + q / 2] % 16 else packed[base + q / 2] / 16
  }

  method StoreNibble(packed: array<Byte>, base: nat, p: nat, nib: nat, ghost us: seq<nat>)
    requires base + p / 2 < packed.Length && p < |us| && us[p] == nib < 16
    requires NibblesHold(packed[..], base, us, p)
    modifies packed
    ensures NibblesHold(packed[..], base, us, p + 1)
    ensures forall i :: 0 <= i < packed.Length && i != base + p / 2 ==> packed[i] == old(packed[i])
  {
    ghost var before := packed[..];
    if p % 2 == 0 {
      packed[base + p / 2] := nib;
    } else {
      packed[base + p / 2] := packed[base + p / 2] + 16 * nib;    // |= nib << 4, on a byte whose high half is clear
    }
    forall q | 0 <= q < p + 1 ensures NibbleIs(packed[..], base, q, us[q]) {
      if q < p {
        assert NibbleIs(before, base, q, us[q]);
      }
    }
  }

  /** gguf_quantize_q4g64_error_feedback, one group: bounds 7 and -8 written out. */
  method EncodeGroupQ4(grp: seq<real>, packed: array<Byte>, base: nat) returns (scale: real)
    requires |grp| == GROUP && base + 32 <= packed.Length
    modifies packed
    ensures scale == ScaleOf(grp, 4, false)
    ensures NibblesHold(packed[..], base, Biased(grp, scale, 4), GROUP)
    ensures forall i :: 0 <= i < packed.Length && !(base <= i < base + 32) ==> packed[i] == old(packed[i])
  {
    hide Rint, NibblesHold, Code, Residual, Biased, MaxAbs;
    SevenAtFour();
    var maxabs := LargestMagnitude(grp);
    scale := maxabs / 7.0;
    if scale < FLOOR { scale := 1.0; }
    assert scale == ScaleOf(grp, 4, false);
    var inv, err := 1.0 / scale, 0.0;
    ghost var us := Biased(grp, scale, 4);
    assert NibblesHold(packed[..], base, us, 0) by { NoNibbles(packed[..], base, us); }
    for p := 0 to GROUP
      invariant err == ErrAt(grp, scale, 7, p)
      invariant NibblesHold(packed[..], base, us, p)
      invariant forall i :: 0 <= i < packed.Length && !(base <= i < base + 32) ==> packed[i] == old(packed[i])
    {
      var q;
      q, err := NextCodeQ4(grp[p] + err, scale, inv);
      NibbleOf(grp, scale, p);
      StoreNibble(packed, base, p, (q + 8) % 16, us);
    }
  }

  lemma {:induction false} SevenAtFour()
    ensures Qmax(4) == 7 && Pow2(3) == 8 && Pow2(4) == 16
  {
    assert Pow2(2) == 4;
  }

  lemma {:induction false} NoNibbles(packed: Bytes, base: nat, us: seq<nat>)
    requires base <= |packed|
    ensures NibblesHold(packed, base, us, 0)
  {
  }

  lemma {:induction false} NibbleOf(grp: seq<real>, scale: real, p: nat)
    requires scale > 0.0 && p < |grp|
    ensures Biased(grp, scale, 4)[p] == CodeAt(grp, scale, 7, p) + 8 < 16
    ensures (CodeAt(grp, scale, 7, p) + 8) % 16 == CodeAt(grp, scale, 7, p) + 8
  {
    hide Rint;
    SevenAtFour();
    BiasedFits(grp, scale, 4, p);
  }

  method NextCodeQ4(x: real, scale: real, inv: real) returns (q: int, err: real)
    requires scale > 0.0 && inv == 1.0 / scale
    ensures q == Code(x, scale, 7) && err == Residual(x, scale, 7)
  {
    hide Rint;
    ReciprocalIsQuotient(x, scale, inv);
    q := Rint(x * inv);
    if q > 7 { q := 7; }
    if q < -8 { q := -8; }
    err := x - q as real * scale;
  }

  /** Four planes and nibbles hold the same codes under the same scale. */
  lemma {:induction false} FourPlanesAreNibbles(planes: seq<bv8>, packed: Bytes, base: nat, grp: seq<real>, p: nat)
    requires |grp| == GROUP && p < GROUP
    requires PlanesHold(planes, 4, Biased(grp, ScaleOf(grp, 4, false), 4))
    requires NibblesHold(packed, base, Biased(grp, ScaleOf(grp, 4, false), 4), GROUP)
    ensures NibbleIs(packed, base, p, PlaneCode(planes, 4, p))
  {
    hide PlanesHold, PlaneCode, Biased, NibbleIs, ScaleOf;
    var scale := ScaleOf(grp, 4, false);
    NibbleOf(grp, scale, p);
    SevenAtFour();
    PlanesGiveCodes(planes, 4, Biased(grp, scale, 4), p);
  }

  // ---- the repack ----

  /** Bits up to x are copied, the rest is clear; x counts whole codes and b bits of the next one. */
  predicate CopiedUpTo(dst: seq<bv8>, src: seq<bv8>, n: nat, p: nat, b: nat) {
    && |dst| == 8 * n == |src| && p <= GROUP && b <= n && (b > 0 ==> p < GROUP)
    && (forall q :: 0 <= q < p ==> StreamHolds(dst, src, n, q))
    && (p < GROUP ==> forall i :: 0 <= i < b ==> SameBit(dst, src, n, p, i))
    && (forall x :: Pos(p, n, b) <= x < 8 * |dst| ==> !StreamBit(dst, x))
  }

  lemma {:induction false} EarlierBit(n: nat, p: nat, q: nat, i: nat)
    requires q < p && i < n
    ensures Pos(q, n, i) < Pos(p, n, 0)
  {
    assert (q + 1) * n <= p * n;
  }

  lemma {:induction false} LaterBit(n: nat, p: nat, b: nat)
    ensures Pos(p, n, 0) <= Pos(p, n, b)
  {
  }

  lemma {:induction false} SameCodeBit(n: nat, p: nat, i: nat, b: nat)
    requires i < b
    ensures Pos(p, n, i) < Pos(p, n, b)
  {
  }

  lemma {:induction false} NextPos(p: nat, n: nat, b: nat)
    ensures Pos(p, n, b + 1) == Pos(p, n, b) + 1
  {
  }

  lemma {:induction false} CopyBit(dst: seq<bv8>, src: seq<bv8>, n: nat, p: nat, b: nat)
    requires CopiedUpTo(dst, src, n, p, b) && p < GROUP && b < n
    ensures Pos(p, n, b) < 8 * |dst|
    ensures var x := Pos(p, n, b);
            var t := if PlaneBit(src, b, p) then dst[x / 8 := WithBit(dst[x / 8], x % 8)] else dst;
            CopiedUpTo(t, src, n, p, b + 1)
  {
    hide PlaneBit, StreamBit, WithBit, Pos;
    Inside(p, n, b);
    var x := Pos(p, n, b);
    NextPos(p, n, b);
    var t := if PlaneBit(src, b, p) then dst[x / 8 := WithBit(dst[x / 8], x % 8)] else dst;
    SetStreamBit(dst, x);
    assert forall y :: 0 <= y < 8 * |dst| && y != x ==> (StreamBit(t, y) <==> StreamBit(dst, y));
    forall q | 0 <= q < p ensures StreamHolds(t, src, n, q) {
      assert StreamHolds(dst, src, n, q);
      forall i | 0 <= i < n ensures SameBit(t, src, n, q, i) {
        assert SameBit(dst, src, n, q, i);
        Inside(q, n, i);
        EarlierBit(n, p, q, i);
        LaterBit(n, p, b);
      }
    }
    forall i | 0 <= i < b + 1 ensures SameBit(t, src, n, p, i) {
      Inside(p, n, i);
      if i < b {
        assert SameBit(dst, src, n, p, i);
        SameCodeBit(n, p, i, b);
      }
    }
  }

  lemma {:induction false} NextCodeStarts(dst: seq<bv8>, src: seq<bv8>, n: nat, p: nat)
    requires CopiedUpTo(dst, src, n, p, n) && p < GROUP
    ensures CopiedUpTo(dst, src, n, p + 1, 0)
  {
    hide SameBit, StreamBit;
    assert (p + 1) * n == p * n + n;
    assert StreamHolds(dst, src, n, p);
  }

  lemma {:induction false} NothingCopied(dst: seq<bv8>, src: seq<bv8>, n: nat)
    requires |dst| == 8 * n == |src| && forall i :: 0 <= i < |dst| ==> dst[i] == 0
    ensures CopiedUpTo(dst, src, n, 0, 0)
  {
    hide HasBit;
    forall x | 0 <= x < 8 * |dst| ensures !StreamBit(dst, x) {
      ZeroHasNoBits(x % 8);
    }
  }

  /** One group: gather the code at p from the planes, put its bits at the end of the stream. */
  method RepackCode(src: seq<bv8>, n: nat, p: nat, bitpos: nat, dst: array<bv8>, base: nat)
    requires p < GROUP && base + 8 * n <= dst.Length && bitpos == p * n && |src| == 8 * n
    requires CopiedUpTo(dst[base..base + 8 * n], src, n, p, 0)
    modifies dst
    ensures CopiedUpTo(dst[base..base + 8 * n], src, n, p + 1, 0)
    ensures SameOutside(dst[..], old(dst[..]), base, 8 * n)
  {
    hide CopiedUpTo, PlaneBit, WithBit, Bit;
    var u := 0;
    ghost var bits := PlaneBits(src, n, p);
    for j := 0 to n
      invariant u == FromBits(bits[..j])
    {
      assert bits[..j + 1][..j] == bits[..j];
      if PlaneBit(src, j, p) {
        u := u + Pow2(j);
      }
    }
    assert bits[..n] == bits;
    for b := 0 to n
      invariant CopiedUpTo(dst[base..base + 8 * n], src, n, p, b)
      invariant SameOutside(dst[..], old(dst[..]), base, 8 * n)
    {
      ghost var s := dst[base..base + 8 * n];
      CopyBit(s, src, n, p, b);
      BitBack(bits, b);
      if Bit(u, b) {
        var bp := bitpos + b;
        dst[base + bp / 8] := WithBit(dst[base + bp / 8], bp % 8);
        assert dst[base..base + 8 * n] == s[bp / 8 := WithBit(s[bp / 8], bp % 8)];
      }
    }
    NextCodeStarts(dst[base..base + 8 * n], src, n, p);
  }

  /** The bits a code was gathered from are the bits it has. */
  lemma {:induction false} BitBack(f: seq<bool>, b: nat)
    requires b < |f|
    ensures Bit(FromBits(f), b) <==> f[b]
  {
    var n := |f|;
    var low, p := FromBits(f[..n - 1]), Pow2(n - 1);
    FromBitsFits(f[..n - 1]);
    if b == n - 1 {
      TopBitIs(low, p);
    } else {
      hide Bit, Pow2;
      BitBack(f[..n - 1], b);
      HighBitElsewhere(low, n - 1, b);
    }
  }

  lemma {:induction false} TopBitIs(low: nat, p: nat)
    requires low < p
    ensures low / p == 0 && (low + p) / p == 1
  {
    DivMod(low + p, p, 1, low);
    DivMod(low, p, 0, low);
  }

  lemma {:induction false} FromBitsFits(f: seq<bool>)
    ensures FromBits(f) < Pow2(|f|)
  {
    if f != [] {
      FromBitsFits(f[..|f| - 1]);
    }
  }

  /** Adding 2^k changes no bit below k. */
  lemma {:induction false} HighBitElsewhere(x: nat, k: nat, b: nat)
    requires b < k
    ensures Bit(x + Pow2(k), b) <==> Bit(x, b)
  {
    PowSum(b, k - b - 1);
    hide Pow2;
    EvenMultiple(x, Pow2(b), Pow2(k - b - 1), Pow2(k));
  }

  /** Adding an even multiple of m leaves the quotient's parity alone. */
  lemma {:induction false} EvenMultiple(x: nat, m: nat, t: nat, p: nat)
    requires m > 0 && p == 2 * (m * t)
    ensures (x + p) / m % 2 == x / m % 2
  {
    var q, r := x / m, x % m;
    QuotientRemainder(x, m);
    Spread(q, t, m);
    DivMod(x + p, m, q + 2 * t, r);
  }

  lemma {:induction false} QuotientRemainder(x: nat, m: nat)
    requires m > 0
    ensures x == x / m * m + x % m
  {
  }

  lemma {:induction false} Spread(q: nat, t: nat, m: nat)
    ensures (q + 2 * t) * m == q * m + 2 * (m * t)
  {
  }

  lemma {:induction false} PowSum(a: nat, b: nat)
    ensures Pow2(a + b + 1) == 2 * (Pow2(a) * Pow2(b))
  {
    if b == 0 {
      assert Pow2(a) * 1 == Pow2(a);
    } else {
      PowSum(a, b - 1);
      Half(Pow2(a), Pow2(b - 1));
    }
  }

  lemma {:induction false} Half(x: nat, y: nat)
    ensures x * (2 * y) == 2 * (x * y)
  {
  }

  /** A group read as a stream of n-bit codes, low bit first, spells the codes of the planes. */
  predicate Repacked(dst: seq<bv8>, src: seq<bv8>, n: nat) {
    && |dst| == 8 * n == |src|
    && forall p :: 0 <= p < GROUP ==> p * n + n <= 8 * |dst| && StreamCode(dst, p * n, n) == PlaneCode(src, n, p)
  }

  method RepackGroup(src: seq<bv8>, n: nat, dst: array<bv8>, base: nat)
    requires |src| == 8 * n && base + 8 * n <= dst.Length
    requires forall i :: base <= i < base + 8 * n ==> dst[i] == 0
    modifies dst
    ensures Repacked(dst[base..base + 8 * n], src, n)
    ensures SameOutside(dst[..], old(dst[..]), base, 8 * n)
  {
    hide CopiedUpTo, StreamCode, PlaneCode;
    var bitpos := 0;
    NothingCopied(dst[base..base + 8 * n], src, n);
    for p := 0 to GROUP
      invariant bitpos == p * n && CopiedUpTo(dst[base..base + 8 * n], src, n, p, 0)
      invariant SameOutside(dst[..], old(dst[..]), base, 8 * n)
    {
      RepackCode(src, n, p, bitpos, dst, base);
      bitpos := bitpos + n;
    }
    AllCopied(dst[base..base + 8 * n], src, n);
  }

  lemma {:induction false} AllCopied(dst: seq<bv8>, src: seq<bv8>, n: nat)
    requires CopiedUpTo(dst, src, n, GROUP, 0)
    ensures Repacked(dst, src, n)
  {
    hide StreamHolds, StreamCode, PlaneCode;
    forall p | 0 <= p < GROUP ensures p * n + n <= 8 * |dst| && StreamCode(dst, p * n, n) == PlaneCode(src, n, p) {
      StreamGivesCodes(dst, src, n, p);
    }
  }

  predicate SlotRepacked(dst: seq<bv8>, src: seq<bv8>, n: nat, k: nat) {
    var size := 8 * n;
    k * size + size <= |dst| && k * size + size <= |src| && Repacked(dst[k * size..k * size + size], src[k * size..k * size + size], n)
  }

  /** All groups of all rows of all experts: both layouts give a group the same bytes, so slot k goes to slot k. */
  method RepackAll(src: seq<bv8>, n: nat, experts: nat, rows: nat, ng: nat) returns (dst: array<bv8>)
    requires |src| == experts * rows * ng * (8 * n)
    ensures fresh(dst) && dst.Length == |src|
    ensures forall k :: 0 <= k < experts * rows * ng ==> SlotRepacked(dst[..], src, n, k)
  {
    hide Repacked;
    var size := 8 * n;
    dst := new bv8[|src|](_ => 0);
    var row: nat := 0;       // e * out + row
    while row < experts * rows
      invariant row <= experts * rows
      invariant forall k :: 0 <= k < row * ng ==> SlotRepacked(dst[..], src, n, k)
      invariant forall i: nat :: row * ng * size <= i < |src| ==> dst[i] == 0
    {
      for g := 0 to ng
        invariant forall k :: 0 <= k < row * ng + g ==> SlotRepacked(dst[..], src, n, k)
        invariant forall i: nat :: (row * ng + g) * size <= i < |src| ==> dst[i] == 0
      {
        RepackSlot(src, n, experts * rows, ng, row, g, dst);
      }
      assert (row + 1) * ng == row * ng + ng;
      row := row + 1;
    }
  }

  method RepackSlot(src: seq<bv8>, n: nat, rows: nat, ng: nat, row: nat, g: nat, dst: array<bv8>)
    requires row < rows && g < ng && |src| == rows * ng * (8 * n) == dst.Length
    requires forall k :: 0 <= k < row * ng + g ==> SlotRepacked(dst[..], src, n, k)
    requires forall i: nat :: (row * ng + g) * (8 * n) <= i < |src| ==> dst[i] == 0
    modifies dst
    ensures forall k :: 0 <= k < row * ng + g + 1 ==> SlotRepacked(dst[..], src, n, k)
    ensures forall i: nat :: (row * ng + g + 1) * (8 * n) <= i < |src| ==> dst[i] == 0
  {
    hide Repacked, SlotRepacked;
    var size := 8 * n;
    var base := row * ng * size + g * size;
    ghost var m := row * ng + g;
    ghost var before := dst[..];
    SlotFits(rows, ng, row, g, size);
    Slots(row * ng, g, size);
    RepackGroup(src[base..base + size], n, dst, base);
    NewSlot(dst[..], src, n, m);
    forall k | 0 <= k < m + 1 ensures SlotRepacked(dst[..], src, n, k) {
      if k < m {
        SlotStays(dst[..], before, src, n, k, m);
      }
    }
  }

  lemma {:induction false} NewSlot(dst: seq<bv8>, src: seq<bv8>, n: nat, m: nat)
    requires m * (8 * n) + 8 * n <= |dst| == |src|
    requires Repacked(dst[m * (8 * n)..m * (8 * n) + 8 * n], src[m * (8 * n)..m * (8 * n) + 8 * n], n)
    ensures SlotRepacked(dst, src, n, m)
  {
  }

  /** Filling slot m leaves an earlier slot k as it was. */
  lemma {:induction false} SlotStays(dst: seq<bv8>, before: seq<bv8>, src: seq<bv8>, n: nat, k: nat, m: nat)
    requires k < m && SlotRepacked(before, src, n, k) && SameOutside(dst, before, m * (8 * n), 8 * n)
    ensures SlotRepacked(dst, src, n, k)
  {
    hide Repacked;
    var size := 8 * n;
    EarlierSlot(k, m, size);
    assert dst[k * size..k * size + size] == before[k * size..k * size + size];
  }

  lemma {:induction false} Slots(a: nat, g: nat, size: nat)
    ensures a * size + g * size == (a + g) * size && (a + g) * size + size == (a + g + 1) * size
  {
  }

  lemma {:induction false} EarlierSlot(k: nat, m: nat, size: nat)
    requires k < m
    ensures k * size + size <= m * size
  {
    assert (k + 1) * size <= m * size;
  }

  /** After the repack bit b of the code at p of group k is bit (p n + b) % 8 of byte 8 n k + (p n + b) / 8, and it is the plane's. */
  lemma {:induction false} RepackedCode(dst: seq<bv8>, src: seq<bv8>, n: nat, k: nat, p: nat)
    requires SlotRepacked(dst, src, n, k) && p < 64
    ensures k * (8 * n) + 8 * n <= |dst| && k * (8 * n) + 8 * n <= |src| && p * n + n <= 64 * n
    ensures StreamCode(dst[k * (8 * n)..k * (8 * n) + 8 * n], p * n, n) == PlaneCode(src[k * (8 * n)..k * (8 * n) + 8 * n], n, p)
  {
    hide StreamCode, PlaneCode;
  }
}
