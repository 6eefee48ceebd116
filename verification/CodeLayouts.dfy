/** Where every bit of a code stands, in bytes and shifts: planes, nibbles, the MLX stream and the GGUF blocks. */
module CodeLayouts {
  import opened Common
  import opened ErrorFeedback
  import opened BitPlanes
  import opened Qng64
  import opened Qng64Layouts
  import opened BlockCodecs

  /** Bit k of a byte: (b >> k) & 1. */
  function Shifted(b: bv8, k: nat): bv8
    requires k < 8
  {
    match k
    case 0 => b & 1
    case 1 => (b >> 1) & 1
    case 2 => (b >> 2) & 1
    case 3 => (b >> 3) & 1
    case 4 => (b >> 4) & 1
    case 5 => (b >> 5) & 1
    case 6 => (b >> 6) & 1
    case 7 => (b >> 7) & 1
  }

  lemma {:induction false} BitIsShifted(b: bv8, k: nat)
    requires k < 8
    ensures HasBit(b, k) <==> Shifted(b, k) == 1
  {
  }

  /** Bit j of the code at p is bit p % 8 of byte 8 j + p / 8. */
  lemma {:induction false} PlaneBitIs(planes: seq<bv8>, j: nat, p: nat)
    requires p < 64 && 8 * j + 8 <= |planes|
    ensures PlaneBit(planes, j, p) <==> Shifted(planes[8 * j + p / 8], p % 8) == 1
  {
    BitIsShifted(planes[j * 8 + p / 8], p % 8);
  }

  /** Bit x of a stream is bit x % 8 of byte x / 8. */
  lemma {:induction false} StreamBitIs(stream: seq<bv8>, x: nat)
    requires x < 8 * |stream|
    ensures StreamBit(stream, x) <==> Shifted(stream[x / 8], x % 8) == 1
  {
    BitIsShifted(stream[x / 8], x % 8);
  }

  /**
   An encoded group in its slot: the scale at k = r * ng + g, and bit j of the biased code of element
   p of row r at bit p % 8 of byte 8 n k + 8 j + p / 8.
   */
  lemma {:induction false} EncodedBit(planes: seq<bv8>, scales: seq<real>, w: seq<real>, cols: nat, ng: nat, n: nat, dense: bool,
                                      r: nat, g: nat, j: nat, p: nat)
    requires n >= 2 && j < n && p < 64 && Encoded(planes, scales, w, cols, ng, n, dense, r, g)
    ensures var k := r * ng + g;
            && k < |scales| && k * (8 * n) + 8 * j + p / 8 < |planes| && r * cols + 64 * g + 64 <= |w|
            && var grp := w[r * cols + 64 * g..r * cols + 64 * g + 64];
            && scales[k] == ScaleOf(grp, n, dense)
            && var code := CodeAt(grp, scales[k], Qmax(n), p) + Pow2(n - 1);
            && 0 <= code < Pow2(n)
            && (Shifted(planes[k * (8 * n) + 8 * j + p / 8], p % 8) == 1 <==> code / Pow2(j) % 2 == 1)
  {
    hide PlaneBit, ScaleOf, CodeAt, Qmax;
    var k, size := r * ng + g, 8 * n;
    var slot := planes[k * size..k * size + size];
    var grp := w[r * cols + 64 * g..r * cols + 64 * g + 64];
    assert GroupOf(w, cols, r, g) == grp;
    var us := Biased(grp, scales[k], n);
    BiasedFits(grp, scales[k], n, p);
    assert PlaneBit(slot, j, p) <==> Bit(us[p], j);
    PlaneBitIs(slot, j, p);
    assert slot[8 * j + p / 8] == planes[k * size + (8 * j + p / 8)];
  }

  /** A nibble code: the low half of its byte for even positions, the high half for odd ones. */
  lemma {:induction false} NibbleCode(packed: Bytes, base: nat, us: seq<nat>, q: nat)
    requires NibblesHold(packed, base, us, 64) && q < 64
    ensures base + q / 2 < |packed|
    ensures q % 2 == 0 ==> packed[base + q / 2] % 16 == us[q]
    ensures q % 2 == 1 ==> packed[base + q / 2] / 16 == us[q]
  {
    assert NibbleIs(packed, base, q, us[q]);
  }

  /** The bits of a gathered code are the bits it was gathered from. */
  lemma {:induction false} GatheredBit(f: seq<bool>, j: nat)
    requires j < |f|
    ensures FromBits(f) < Pow2(|f|) && (FromBits(f) / Pow2(j) % 2 == 1 <==> f[j])
  {
    GatheredBelow(f);
    BitBack(f, j);
  }

  lemma {:induction false} GatheredBelow(f: seq<bool>)
    ensures FromBits(f) < Pow2(|f|)
  {
    if f != [] {
      GatheredBelow(f[..|f| - 1]);
    }
  }

  // ---- blocks ----

  /** Q4_0: byte 2 + i holds element i below element i + 16. */
  lemma {:induction false} Q40Is(b: seq<bv8>, i: nat)
    requires |b| == 18 && i < 16
    ensures Code40(b, i) == b[2 + i] & 15 && Code40(b, i + 16) == b[2 + i] >> 4
  {
  }

  lemma {:induction false} JoinFive(low: bv8, bit: bv8)
    requires low < 16 && bit < 2
    ensures (low | (bit << 4)) & 15 == low && (low | (bit << 4)) >> 4 == bit
  {
  }

  /** Q5_0: the low four bits as in Q4_0 from byte 6 on, the fifth bit of element e in the mask of bytes 2 to 5. */
  lemma {:induction false} Q50Is(b: seq<bv8>, e: nat)
    requires |b| == 22 && e < 32
    ensures Code50(b, e) & 15 == if e < 16 then b[6 + e] & 15 else b[6 + e - 16] >> 4
    ensures Code50(b, e) >> 4 == Shifted(b[2 + e / 8], e % 8)
  {
    StreamBitIs(b[2..6], e);
    var low := if e < 16 then b[6 + e] & 15 else b[6 + e - 16] >> 4;
    var bit: bv8 := if StreamBit(b[2..6], e) then 1 else 0;
    assert low < 16;
    ShiftedIsBit(b[2 + e / 8], e % 8);
    assert bit == Shifted(b[2 + e / 8], e % 8);
    JoinFive(low, bit);
    assert (1 as bv8) << 4 == 0x10 && (0 as bv8) << 4 == 0;
  }

  lemma {:induction false} ShiftedIsBit(b: bv8, k: nat)
    requires k < 8
    ensures Shifted(b, k) == 0 || Shifted(b, k) == 1
  {
  }

  /**
   Q4_K and Q5_K scales: pair j < 4 is the low six bits of bytes j and j + 4; pair j >= 4 has its
   low four bits in byte j + 4 and its high two bits in the top of bytes j - 4 and j.
   */
  lemma {:induction false} ScaleBitsAre(q: seq<bv8>, j: nat)
    requires |q| == 12 && j < 8
    ensures j < 4 ==> ScaleMin(q, j) == (q[j] & 63, q[j + 4] & 63)
    ensures j >= 4 ==> ScaleMin(q, j).0 & 15 == q[j + 4] & 15 && ScaleMin(q, j).0 >> 4 == q[j - 4] >> 6
    ensures j >= 4 ==> ScaleMin(q, j).1 & 15 == q[j + 4] >> 4 && ScaleMin(q, j).1 >> 4 == q[j] >> 6
  {
    if j >= 4 {
      TwoAboveFour(q[j + 4] & 0x0F, q[j - 4] >> 6);
      TwoAboveFour(q[j + 4] >> 4, q[j] >> 6);
    }
  }

  lemma {:induction false} TwoAboveFour(low: bv8, high: bv8)
    requires low < 16 && high < 4
    ensures (low | (high << 4)) & 15 == low && (low | (high << 4)) >> 4 == high
  {
  }

  /** Q4_K: bytes 16 on hold 64 elements per 32 bytes, the first 32 in the low halves; pair e / 32 of bytes 4 to 15 scales element e. */
  lemma {:induction false} Q4KIs(b: seq<bv8>, c: nat, l: nat)
    requires |b| == 144 && c < 4 && l < 32
    ensures Elem4K(b, 64 * c + l).code == b[16 + 32 * c + l] & 15 && Elem4K(b, 64 * c + 32 + l).code == b[16 + 32 * c + l] >> 4
    ensures Elem4K(b, 64 * c + l).scale == ScaleMin(b[4..16], 2 * c).0 && Elem4K(b, 64 * c + l).min == ScaleMin(b[4..16], 2 * c).1
    ensures Elem4K(b, 64 * c + 32 + l).scale == ScaleMin(b[4..16], 2 * c + 1).0
         && Elem4K(b, 64 * c + 32 + l).min == ScaleMin(b[4..16], 2 * c + 1).1
  {
    hide ScaleMin;
    var e, f := 64 * c + l, 64 * c + 32 + l;
    assert e / 64 == c && e % 64 == l && e % 32 == l && e / 32 == 2 * c;
    assert f / 64 == c && f % 64 == 32 + l && f % 32 == l && f / 32 == 2 * c + 1;
  }

  /** Q6_K: element 128 h + 32 k + l has its low four bits in the first 128 bytes, two to a byte, its high two in the next 64, four to a byte. */
  lemma {:induction false} Q6KIs(b: seq<bv8>, h: nat, k: nat, l: nat)
    requires |b| == 210 && h < 2 && k < 4 && l < 32
    ensures var e := Elem6K(b, 128 * h + 32 * k + l);
            && (k < 2 ==> e.code & 15 == b[64 * h + 32 * k + l] & 15)
            && (k >= 2 ==> e.code & 15 == b[64 * h + 32 * (k - 2) + l] >> 4)
            && e.code >> 4 == TwoBits(b[128 + 32 * h + l], k)
            && e.scale == b[192 + 8 * h + 2 * k + l / 16]
  {
    var e := 128 * h + 32 * k + l;
    assert e / 128 == h && e / 32 % 4 == k && e % 32 == l;
    var low := if k < 2 then b[64 * h + 32 * (k % 2) + l] & 15 else b[64 * h + 32 * (k % 2) + l] >> 4;
    assert low < 16;
    TwoAboveFour(low, TwoBits(b[128 + 32 * h + l], k));
  }

  /** (b >> 2k) & 3 */
  function TwoBits(b: bv8, k: nat): (r: bv8)
    requires k < 4
    ensures r < 4
  {
    if k == 0 then b & 3 else if k == 1 then (b >> 2) & 3 else if k == 2 then (b >> 4) & 3 else b >> 6
  }
}
