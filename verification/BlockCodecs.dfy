/**
 The bit packing of the GGUF block formats Q4_0, Q5_0, Q4_K and Q6_K: the decoders' reading of
 a block, and the encoders' in-place packing, which is proved to give every code, scale and
 minimum back to that reading. Half-precision scales are opaque byte pairs.
 */
module BlockCodecs {
  import opened Common
  import opened BitPlanes
  import opened Qng64

  const Q4_0_BYTES := 18
  const Q5_0_BYTES := 22
  const Q4_K_BYTES := 144
  const Q6_K_BYTES := 210

  /** What a decoder multiplies for one element: the two scale codes (min is 0 where there is none) and the code. */
  datatype Elem = Elem(scale: bv8, min: bv8, code: bv8)

  predicate Below(s: seq<bv8>, limit: bv8) {
    forall i :: 0 <= i < |s| ==> s[i] < limit
  }

  // ---- nibbles ----

  function Nibbles(lo: bv8, hi: bv8): bv8 {
    (lo & 0x0F) | ((hi & 0x0F) << 4)
  }

  lemma {:induction false} NibblesBack(lo: bv8, hi: bv8)
    ensures Nibbles(lo, hi) & 0x0F == lo & 0x0F
    ensures Nibbles(lo, hi) >> 4 == hi & 0x0F
  {
  }

  lemma {:induction false} FourBits(c: bv8)
    requires c < 16
    ensures c & 0x0F == c && c | (c & 0xF0) == c
  {
  }

  // ---- the readings ----

  function Code40(b: seq<bv8>, e: nat): bv8
    requires |b| == Q4_0_BYTES && e < 32
  {
    if e < 16 then b[2 + e] & 0x0F else b[2 + e - 16] >> 4
  }

  /** The fifth bit is bit e of the little-endian mask in bytes 2 to 5. */
  function Code50(b: seq<bv8>, e: nat): bv8
    requires |b| == Q5_0_BYTES && e < 32
  {
    (if e < 16 then b[6 + e] & 0x0F else b[6 + e - 16] >> 4) | (if StreamBit(b[2..6], e) then 0x10 else 0)
  }

  /** get_scale_min_k4 */
  function ScaleMin(q: seq<bv8>, j: nat): (bv8, bv8)
    requires |q| == 12 && j < 8
  {
    if j < 4 then (q[j] & 63, q[j + 4] & 63)
    else ((q[j + 4] & 0x0F) | ((q[j - 4] >> 6) << 4), (q[j + 4] >> 4) | ((q[j] >> 6) << 4))
  }

  function Code4K(b: seq<bv8>, e: nat): bv8
    requires |b| == Q4_K_BYTES && e < 256
  {
    var q := b[16 + 32 * (e / 64) + e % 32];
    if e % 64 < 32 then q & 0x0F else q >> 4
  }

  function Elem4K(b: seq<bv8>, e: nat): Elem
    requires |b| == Q4_K_BYTES && e < 256
  {
    var (scale, min) := ScaleMin(b[4..16], e / 32);
    Elem(scale, min, Code4K(b, e))
  }

  /** Two high bits of q at shift 2k. */
  function High2(q: bv8, k: nat): bv8
    requires k < 4
  {
    match k
    case 0 => q & 3
    case 1 => (q >> 2) & 3
    case 2 => (q >> 4) & 3
    case 3 => (q >> 6) & 3
  }

  /** Four bits of the low byte under the two high bits at shift 2k. */
  function Code6(low: bv8, high: bv8, k: nat): bv8
    requires k < 4
  {
    (if k < 2 then low & 0x0F else low >> 4) | (High2(high, k) << 4)
  }

  /** Code of element 128 h + 32 k + l, biased by 32. */
  function Code6K(b: seq<bv8>, h: nat, k: nat, l: nat): bv8
    requires |b| == Q6_K_BYTES && h < 2 && k < 4 && l < 32
  {
    Code6(b[64 * h + 32 * (k % 2) + l], b[128 + 32 * h + l], k)
  }

  /** The scale the decoder multiplies element 128 h + 32 k + l with. */
  function Scale6K(b: seq<bv8>, h: nat, k: nat, l: nat): bv8
    requires |b| == Q6_K_BYTES && h < 2 && k < 4 && l < 32
  {
    b[192 + 8 * h + (l / 16 + 2 * k)]
  }

  function Elem6K(b: seq<bv8>, e: nat): Elem
    requires |b| == Q6_K_BYTES && e < 256
  {
    Elem(Scale6K(b, e / 128, e / 32 % 4, e % 32), 0, Code6K(b, e / 128, e / 32 % 4, e % 32))
  }

  /** The interleaved reading still gives scale g to exactly the elements [16 g, 16 g + 16). */
  lemma {:induction false} ScaleGroupsAreContiguous(b: seq<bv8>, e: nat, g: nat)
    requires |b| == Q6_K_BYTES && e < 256 && g < 16
    ensures 8 * (e / 128) + (e % 32 / 16 + 2 * (e / 32 % 4)) == e / 16
    ensures Elem6K(b, e).scale == b[192 + e / 16]
    ensures e / 16 == g <==> 16 * g <= e < 16 * g + 16
  {
    var h, k, l := e / 128, e / 32 % 4, e % 32;
    assert e == 128 * h + 32 * k + l;
  }

  // ---- packing Q4_0 ----

  /** Byte j holds elements j and j + 16. */
  method PackSplit(codes: seq<bv8>, out: array<bv8>, base: nat)
    requires |codes| == 32 && base + 16 <= out.Length
    modifies out
    ensures forall i :: 0 <= i < 16 ==> SplitNibbleAt(out[..], base, codes, i)
    ensures SameOutside(out[..], old(out[..]), base, 16)
  {
    hide Nibbles;
    for j := 0 to 16
      invariant forall i :: 0 <= i < j ==> SplitNibbleAt(out[..], base, codes, i)
      invariant SameOutside(out[..], old(out[..]), base, 16)
    {
      ghost var before := out[..];
      out[base + j] := Nibbles(codes[j], codes[j + 16]);
      forall i | 0 <= i < j + 1 ensures SplitNibbleAt(out[..], base, codes, i) {
        if i < j {
          assert SplitNibbleAt(before, base, codes, i);
        }
      }
    }
  }

  predicate SplitNibbleAt(out: seq<bv8>, base: nat, codes: seq<bv8>, i: nat)
    requires |codes| == 32
  {
    i < 16 && base + i < |out| && out[base + i] == Nibbles(codes[i], codes[i + 16])
  }

  lemma {:induction false} Reads40(b: seq<bv8>, codes: seq<bv8>, e: nat)
    requires |b| == Q4_0_BYTES && |codes| == 32 && Below(codes, 16) && e < 32 && SplitNibbleAt(b, 2, codes, e % 16)
    ensures Code40(b, e) == codes[e]
  {
    hide Nibbles;
    NibblesBack(codes[e % 16], codes[e % 16 + 16]);
    FourBits(codes[e]);
  }

  method Pack40(d: seq<bv8>, codes: seq<bv8>, out: array<bv8>, base: nat)
    requires |d| == 2 && |codes| == 32 && Below(codes, 16) && base + Q4_0_BYTES <= out.Length
    modifies out
    ensures out[base..base + 2] == d
    ensures forall e :: 0 <= e < 32 ==> Code40(out[base..base + Q4_0_BYTES], e) == codes[e]
    ensures SameOutside(out[..], old(out[..]), base, Q4_0_BYTES)
  {
    hide Nibbles, Code40;
    out[base], out[base + 1] := d[0], d[1];
    PackSplit(codes, out, base + 2);
    ghost var b := out[base..base + Q4_0_BYTES];
    forall e | 0 <= e < 32 ensures Code40(b, e) == codes[e] {
      assert SplitNibbleAt(out[..], base + 2, codes, e % 16);
      Reads40(b, codes, e);
    }
  }

  // ---- packing Q5_0 ----

  lemma {:induction false} FiveBits(c: bv8, low: bv8)
    requires c < 32 && low == c & 0x0F
    ensures low | (if c & 0x10 != 0 then 0x10 else 0) == c
  {
  }

  predicate MaskUpTo(qh: seq<bv8>, codes: seq<bv8>, j: nat)
    requires |qh| == 4 && |codes| == 32
  {
    forall i :: 0 <= i < 32 ==> (StreamBit(qh, i) <==> i % 16 < j && codes[i] & 0x10 != 0)
  }

  /** The 32-bit mask, little-endian in four bytes: bit j and bit j + 16 per step. */
  method FifthBits(codes: seq<bv8>) returns (qh: seq<bv8>)
    requires |codes| == 32
    ensures |qh| == 4 && MaskUpTo(qh, codes, 16)
  {
    hide StreamBit, WithBit;
    qh := [0, 0, 0, 0];
    forall i | 0 <= i < 32 ensures !StreamBit(qh, i) {
      NoMaskBits(i);
    }
    for j := 0 to 16
      invariant |qh| == 4 && MaskUpTo(qh, codes, j)
    {
      if codes[j] & 0x10 != 0 {
        SetStreamBit(qh, j);
        qh := qh[j / 8 := WithBit(qh[j / 8], j % 8)];
      }
      var x := j + 16;
      if codes[x] & 0x10 != 0 {
        SetStreamBit(qh, x);
        qh := qh[x / 8 := WithBit(qh[x / 8], x % 8)];
      }
    }
  }

  lemma {:induction false} NoMaskBits(i: nat)
    requires i < 32
    ensures !StreamBit([0, 0, 0, 0], i)
  {
    ZeroHasNoBits(i % 8);
  }

  /** memcpy(&qh, x.qh, 4) on a little-endian machine. */
  function Word32(q: seq<bv8>): bv32
    requires |q| == 4
  {
    (q[0] as bv32) | ((q[1] as bv32) << 8) | ((q[2] as bv32) << 16) | ((q[3] as bv32) << 24)
  }

  /** The fifth bit of element j, shifted down and up again. */
  function LowFifth(qh: bv32, j: nat): bv32
    requires j < 16
  {
    ((qh >> j) << 4) & 0x10
  }

  /** ... and that of element j + 16, shifted straight to bit 4. */
  function HighFifth(qh: bv32, j: nat): bv32
    requires j < 16
  {
    (qh >> (j + 12)) & 0x10
  }

  lemma {:induction false} LowFifthIs(q: seq<bv8>, j: nat)
    requires |q| == 4 && j < 16
    ensures LowFifth(Word32(q), j) == if StreamBit(q, j) then 0x10 else 0
  {
    if j < 8 {
      match j
      case 0 => case 1 => case 2 => case 3 => case 4 => case 5 => case 6 => case 7 =>
    } else {
      match j - 8
      case 0 => case 1 => case 2 => case 3 => case 4 => case 5 => case 6 => case 7 =>
    }
  }

  lemma {:induction false} HighFifthIs(q: seq<bv8>, j: nat)
    requires |q| == 4 && j < 16
    ensures HighFifth(Word32(q), j) == if StreamBit(q, j + 16) then 0x10 else 0
  {
    if j < 8 {
      assert (j + 16) / 8 == 2 && (j + 16) % 8 == j;
      match j
      case 0 => case 1 => case 2 => case 3 => case 4 => case 5 => case 6 => case 7 =>
    } else {
      assert (j + 16) / 8 == 3 && (j + 16) % 8 == j - 8;
      match j - 8
      case 0 => case 1 => case 2 => case 3 => case 4 => case 5 => case 6 => case 7 =>
    }
  }

  lemma {:induction false} Reads50(b: seq<bv8>, codes: seq<bv8>, e: nat)
    requires |b| == Q5_0_BYTES && |codes| == 32 && Below(codes, 32) && e < 32 && SplitNibbleAt(b, 6, codes, e % 16)
    requires MaskUpTo(b[2..6], codes, 16)
    ensures Code50(b, e) == codes[e]
  {
    hide Nibbles, StreamBit;
    NibblesBack(codes[e % 16], codes[e % 16 + 16]);
    FiveBits(codes[e], codes[e] & 0x0F);
  }

  method Pack50(d: seq<bv8>, codes: seq<bv8>, out: array<bv8>, base: nat)
    requires |d| == 2 && |codes| == 32 && Below(codes, 32) && base + Q5_0_BYTES <= out.Length
    modifies out
    ensures out[base..base + 2] == d
    ensures forall e :: 0 <= e < 32 ==> Code50(out[base..base + Q5_0_BYTES], e) == codes[e]
    ensures SameOutside(out[..], old(out[..]), base, Q5_0_BYTES)
  {
    hide Nibbles, StreamBit, MaskUpTo, Code50;
    out[base], out[base + 1] := d[0], d[1];
    PackSplit(codes, out, base + 6);
    ghost var packed := out[..];
    var qh := FifthBits(codes);
    out[base + 2], out[base + 3], out[base + 4], out[base + 5] := qh[0], qh[1], qh[2], qh[3];
    ghost var b := out[base..base + Q5_0_BYTES];
    assert b[2..6] == qh;
    forall e | 0 <= e < 32 ensures Code50(b, e) == codes[e] {
      assert SplitNibbleAt(packed, base + 6, codes, e % 16);
      Reads50(b, codes, e);
    }
  }

  // ---- packing Q4_K ----

  /** Bytes i, i + 4 and i + 8 of the packed scales. */
  predicate ScaleBytes(q: seq<bv8>, ls: seq<bv8>, lm: seq<bv8>, i: nat)
    requires |q| == 12 && |ls| == 8 && |lm| == 8 && i < 4
  {
    && q[i] == ls[i] | ((ls[i + 4] >> 4) << 6)
    && q[i + 4] == lm[i] | ((lm[i + 4] >> 4) << 6)
    && q[i + 8] == Nibbles(ls[i + 4], lm[i + 4])
  }

  predicate ScalesPacked(q: seq<bv8>, ls: seq<bv8>, lm: seq<bv8>)
    requires |ls| == 8 && |lm| == 8
  {
    |q| == 12 && forall i :: 0 <= i < 4 ==> ScaleBytes(q, ls, lm, i)
  }

  lemma {:induction false} SixBits(a: bv8, c: bv8)
    requires a < 64 && c < 64
    ensures (a | ((c >> 4) << 6)) & 63 == a && (a | ((c >> 4) << 6)) >> 6 == c >> 4
    ensures (c & 0x0F) | ((c >> 4) << 4) == c
  {
  }

  lemma {:induction false} LowPairBack(q: seq<bv8>, ls: seq<bv8>, lm: seq<bv8>, j: nat)
    requires |q| == 12 && |ls| == 8 && |lm| == 8 && j < 4 && ScaleBytes(q, ls, lm, j)
    requires ls[j] < 64 && lm[j] < 64 && ls[j + 4] < 64 && lm[j + 4] < 64
    ensures ScaleMin(q, j) == (ls[j], lm[j])
  {
    SixBits(ls[j], ls[j + 4]);
    SixBits(lm[j], lm[j + 4]);
  }

  lemma {:induction false} HighPairBack(q: seq<bv8>, ls: seq<bv8>, lm: seq<bv8>, j: nat)
    requires |q| == 12 && |ls| == 8 && |lm| == 8 && 4 <= j < 8 && ScaleBytes(q, ls, lm, j - 4)
    requires ls[j - 4] < 64 && lm[j - 4] < 64 && ls[j] < 64 && lm[j] < 64
    ensures ScaleMin(q, j) == (ls[j], lm[j])
  {
    hide Nibbles;
    SixBits(ls[j - 4], ls[j]);
    SixBits(lm[j - 4], lm[j]);
    NibblesBack(ls[j], lm[j]);
  }

  /** All eight six-bit pairs come back. */
  lemma {:induction false} ScaleMinBack(q: seq<bv8>, ls: seq<bv8>, lm: seq<bv8>, j: nat)
    requires |ls| == 8 && |lm| == 8 && Below(ls, 64) && Below(lm, 64) && ScalesPacked(q, ls, lm) && j < 8
    ensures ScaleMin(q, j) == (ls[j], lm[j])
  {
    hide ScaleMin, ScaleBytes;
    assert ScaleBytes(q, ls, lm, j % 4);
    if j < 4 {
      LowPairBack(q, ls, lm, j);
    } else {
      HighPairBack(q, ls, lm, j);
    }
  }

  /** Low six bits of the first four pairs first; then the last four pairs, their top bits ORed into the first eight bytes. */
  method PackScales(ls: seq<bv8>, lm: seq<bv8>) returns (q: seq<bv8>)
    requires |ls| == 8 && |lm| == 8
    ensures |q| == 12 && ScalesPacked(q, ls, lm)
  {
    hide Nibbles, ScaleBytes;
    q := seq(12, _ => 0);
    for j := 0 to 4
      invariant |q| == 12 && forall i :: 0 <= i < j ==> q[i] == ls[i]
      invariant forall i :: 4 <= i < j + 4 ==> q[i] == lm[i - 4]
    {
      q := q[j := ls[j]][j + 4 := lm[j]];
    }
    assert forall i :: 0 <= i < 4 ==> q[i] == ls[i];
    for j := 4 to 8
      invariant |q| == 12 && forall i :: 0 <= i < j - 4 ==> ScaleBytes(q, ls, lm, i)
      invariant forall i :: j - 4 <= i < 4 ==> q[i] == ls[i]
      invariant forall i :: j <= i < 8 ==> q[i] == lm[i - 4]
    {
      var before := q;
      q := q[j + 4 := Nibbles(ls[j], lm[j])];
      q := q[j - 4 := q[j - 4] | ((ls[j] >> 4) << 6)];
      q := q[j := q[j] | ((lm[j] >> 4) << 6)];
      NextScales(before, q, ls, lm, j);
    }
  }

  lemma {:induction false} NextScales(before: seq<bv8>, q: seq<bv8>, ls: seq<bv8>, lm: seq<bv8>, j: nat)
    requires |before| == 12 && |q| == 12 && |ls| == 8 && |lm| == 8 && 4 <= j < 8
    requires before[j - 4] == ls[j - 4] && before[j] == lm[j - 4]
    requires forall i :: 0 <= i < j - 4 ==> ScaleBytes(before, ls, lm, i)
    requires q[j + 4] == Nibbles(ls[j], lm[j]) && q[j - 4] == before[j - 4] | ((ls[j] >> 4) << 6)
    requires q[j] == before[j] | ((lm[j] >> 4) << 6)
    requires forall i :: 0 <= i < 12 && i != j + 4 && i != j - 4 && i != j ==> q[i] == before[i]
    ensures forall i :: 0 <= i < j - 4 + 1 ==> ScaleBytes(q, ls, lm, i)
  {
    hide Nibbles;
    forall i | 0 <= i < j - 4 + 1 ensures ScaleBytes(q, ls, lm, i) {
      if i < j - 4 {
        assert ScaleBytes(before, ls, lm, i);
      }
    }
  }

  /** The nibble loop of Q4_K: 64 codes per 32 bytes. */
  method PackNibbles4K(codes: seq<bv8>, out: array<bv8>, base: nat)
    requires |codes| == 256 && Below(codes, 16) && base + 128 <= out.Length
    modifies out
    ensures forall c, l :: 0 <= c < 4 && 0 <= l < 32 ==> NibbleAt(out[..], base, codes, c, l)
    ensures SameOutside(out[..], old(out[..]), base, 128)
  {
    hide Nibbles;
    for c := 0 to 4
      invariant forall c', l :: 0 <= c' < c && 0 <= l < 32 ==> NibbleAt(out[..], base, codes, c', l)
      invariant SameOutside(out[..], old(out[..]), base, 128)
    {
      for l := 0 to 32
        invariant forall c', l' :: 0 <= c' <= c && 0 <= l' < 32 && (c' < c || l' < l) ==> NibbleAt(out[..], base, codes, c', l')
        invariant SameOutside(out[..], old(out[..]), base, 128)
      {
        ghost var before := out[..];
        out[base + 32 * c + l] := Nibbles(codes[64 * c + l], codes[64 * c + l + 32]);
        forall c', l' | 0 <= c' <= c && 0 <= l' < 32 && (c' < c || l' < l) ensures NibbleAt(out[..], base, codes, c', l') {
          assert NibbleAt(before, base, codes, c', l');
        }
      }
    }
  }

  predicate NibbleAt(out: seq<bv8>, base: nat, codes: seq<bv8>, c: nat, l: nat)
    requires |codes| == 256
  {
    c < 4 && l < 32 && base + 32 * c + l < |out| && out[base + 32 * c + l] == Nibbles(codes[64 * c + l], codes[64 * c + l + 32])
  }

  predicate Holds4K(b: seq<bv8>, d: seq<bv8>, dmin: seq<bv8>, ls: seq<bv8>, lm: seq<bv8>, codes: seq<bv8>)
    requires |ls| == 8 && |lm| == 8 && |codes| == 256
  {
    && |b| == Q4_K_BYTES && b[..2] == d && b[2..4] == dmin
    && forall e :: 0 <= e < 256 ==> Elem4K(b, e) == Elem(ls[e / 32], lm[e / 32], codes[e])
  }

  lemma {:induction false} Reads4K(b: seq<bv8>, ls: seq<bv8>, lm: seq<bv8>, codes: seq<bv8>, e: nat)
    requires |b| == Q4_K_BYTES && |ls| == 8 && |lm| == 8 && |codes| == 256 && e < 256
    requires Below(ls, 64) && Below(lm, 64) && Below(codes, 16)
    requires ScalesPacked(b[4..16], ls, lm) && NibbleAt(b, 16, codes, e / 64, e % 32)
    ensures Elem4K(b, e) == Elem(ls[e / 32], lm[e / 32], codes[e])
  {
    hide Nibbles, ScaleMin, ScalesPacked;
    ScaleMinBack(b[4..16], ls, lm, e / 32);
    var c, l := e / 64, e % 32;
    NibblesBack(codes[64 * c + l], codes[64 * c + l + 32]);
    FourBits(codes[e]);
    assert e == 64 * c + l || e == 64 * c + l + 32;
  }

  lemma {:induction false} HeadParts(h: seq<bv8>, d: seq<bv8>, dmin: seq<bv8>, q: seq<bv8>)
    requires h == d + dmin + q && |d| == 2 && |dmin| == 2
    ensures h[..2] == d && h[2..4] == dmin && h[4..] == q
  {
  }

  method Store(src: seq<bv8>, out: array<bv8>, base: nat)
    requires base + |src| <= out.Length
    modifies out
    ensures out[base..base + |src|] == src
    ensures SameOutside(out[..], old(out[..]), base, |src|)
  {
    for i := 0 to |src|
      invariant out[base..base + i] == src[..i]
      invariant SameOutside(out[..], old(out[..]), base, |src|)
    {
      out[base + i] := src[i];
    }
  }

  method Pack4K(d: seq<bv8>, dmin: seq<bv8>, ls: seq<bv8>, lm: seq<bv8>, codes: seq<bv8>, out: array<bv8>, base: nat)
    requires |d| == 2 && |dmin| == 2 && |ls| == 8 && |lm| == 8 && |codes| == 256
    requires Below(ls, 64) && Below(lm, 64) && Below(codes, 16) && base + Q4_K_BYTES <= out.Length
    modifies out
    ensures Holds4K(out[base..base + Q4_K_BYTES], d, dmin, ls, lm, codes)
    ensures SameOutside(out[..], old(out[..]), base, Q4_K_BYTES)
  {
    hide Elem4K, ScalesPacked, NibbleAt, Below;
    var q := PackScales(ls, lm);
    Store(d + dmin + q, out, base);
    ghost var head := out[..];
    PackNibbles4K(codes, out, base + 16);
    ghost var b := out[base..base + Q4_K_BYTES];
    assert b[..16] == head[base..base + 16] == d + dmin + q;
    HeadParts(b[..16], d, dmin, q);
    assert b[4..16] == b[..16][4..] && b[..2] == b[..16][..2] && b[2..4] == b[..16][2..4];
    forall e | 0 <= e < 256 ensures Elem4K(b, e) == Elem(ls[e / 32], lm[e / 32], codes[e]) {
      Shifted(out[..], b, base, codes, e / 64, e % 32);
      Reads4K(b, ls, lm, codes, e);
    }
  }

  lemma {:induction false} Shifted(out: seq<bv8>, b: seq<bv8>, base: nat, codes: seq<bv8>, c: nat, l: nat)
    requires |codes| == 256 && base + Q4_K_BYTES <= |out| && b == out[base..base + Q4_K_BYTES]
    requires NibbleAt(out, base + 16, codes, c, l)
    ensures NibbleAt(b, 16, codes, c, l)
  {
    hide Nibbles;
  }

  // ---- packing Q6_K ----

  function High4(c1: bv8, c2: bv8, c3: bv8, c4: bv8): bv8 {
    ((c1 >> 4) & 3) | (((c2 >> 4) & 3) << 2) | (((c3 >> 4) & 3) << 4) | (((c4 >> 4) & 3) << 6)
  }

  lemma {:induction false} High4Back(c1: bv8, c2: bv8, c3: bv8, c4: bv8)
    ensures High2(High4(c1, c2, c3, c4), 0) == (c1 >> 4) & 3
    ensures High2(High4(c1, c2, c3, c4), 1) == (c2 >> 4) & 3
    ensures High2(High4(c1, c2, c3, c4), 2) == (c3 >> 4) & 3
    ensures High2(High4(c1, c2, c3, c4), 3) == (c4 >> 4) & 3
  {
  }

  lemma {:induction false} SixBitCode(c: bv8)
    requires c < 64
    ensures (c & 0x0F) | (((c >> 4) & 3) << 4) == c
  {
  }

  /** The three bytes the packing loop writes for (h, l). */
  predicate PackedAt(out: seq<bv8>, base: nat, codes: seq<bv8>, h: nat, l: nat)
    requires |codes| == 256
  {
    && h < 2 && l < 32 && base + Q6_K_BYTES <= |out|
    && var n := 128 * h + l;
    && out[base + 64 * h + l] == Nibbles(codes[n], codes[n + 64])
    && out[base + 64 * h + 32 + l] == Nibbles(codes[n + 32], codes[n + 96])
    && out[base + 128 + 32 * h + l] == High4(codes[n], codes[n + 32], codes[n + 64], codes[n + 96])
  }

  lemma {:induction false} Reads6K(b: seq<bv8>, codes: seq<bv8>, h: nat, k: nat, l: nat)
    requires |b| == Q6_K_BYTES && |codes| == 256 && Below(codes, 64) && h < 2 && k < 4 && l < 32
    requires PackedAt(b, 0, codes, h, l)
    ensures Code6K(b, h, k, l) == codes[128 * h + 32 * k + l]
  {
    hide Nibbles, High4, High2, Below;
    var n := 128 * h + l;
    var c1, c2, c3, c4 := codes[n], codes[n + 32], codes[n + 64], codes[n + 96];
    BelowAt(codes, 64, n + 32 * k);
    High4Back(c1, c2, c3, c4);
    if k % 2 == 0 {
      NibblesBack(c1, c3);
    } else {
      NibblesBack(c2, c4);
    }
    var c := codes[n + 32 * k];
    assert c == if k == 0 then c1 else if k == 1 then c2 else if k == 2 then c3 else c4;
    SixBitCode(c);
  }

  lemma {:induction false} BelowAt(s: seq<bv8>, limit: bv8, i: nat)
    requires Below(s, limit) && i < |s|
    ensures s[i] < limit
  {
  }

  predicate Holds6K(b: seq<bv8>, d: seq<bv8>, scales: seq<bv8>, codes: seq<bv8>)
    requires |scales| == 16 && |codes| == 256
  {
    && |b| == Q6_K_BYTES && b[208..] == d
    && forall e :: 0 <= e < 256 ==> Elem6K(b, e) == Elem(scales[e / 16], 0, codes[e])
  }

  method Pack6K(d: seq<bv8>, scales: seq<bv8>, codes: seq<bv8>, out: array<bv8>, base: nat)
    requires |d| == 2 && |scales| == 16 && |codes| == 256 && Below(codes, 64) && base + Q6_K_BYTES <= out.Length
    modifies out
    ensures Holds6K(out[base..base + Q6_K_BYTES], d, scales, codes)
    ensures SameOutside(out[..], old(out[..]), base, Q6_K_BYTES)
  {
    hide Nibbles, High4, Elem6K, Below;
    out[base + 208], out[base + 209] := d[0], d[1];
    for g := 0 to 16
      invariant out[base + 208] == d[0] && out[base + 209] == d[1]
      invariant forall i :: 0 <= i < g ==> out[base + 192 + i] == scales[i]
      invariant SameOutside(out[..], old(out[..]), base, Q6_K_BYTES)
    {
      out[base + 192 + g] := scales[g];
    }
    assert out[base + 192..base + 208] == scales && out[base + 208..base + 210] == d;
    ghost var tail := out[base + 192..base + 210];
    assert tail[..16] == scales && tail[16..] == d;
    for h := 0 to 2
      invariant out[base + 192..base + 210] == tail
      invariant forall h', l :: 0 <= h' < h && 0 <= l < 32 ==> PackedAt(out[..], base, codes, h', l)
      invariant SameOutside(out[..], old(out[..]), base, Q6_K_BYTES)
    {
      PackHalf(codes, out, base, h);
    }
    var b := out[base..base + Q6_K_BYTES];
    ghost var all := out[..];
    assert all[base + 192..base + 210] == tail && b == all[base..base + Q6_K_BYTES];
    assert all[base + 192..base + 208] == tail[..16] && all[base + 208..base + 210] == tail[16..];
    Finish6K(all, b, base, d, scales, codes);
  }

  method PackHalf(codes: seq<bv8>, out: array<bv8>, base: nat, h: nat)
    requires |codes| == 256 && base + Q6_K_BYTES <= out.Length && h < 2
    requires forall h', l :: 0 <= h' < h && 0 <= l < 32 ==> PackedAt(out[..], base, codes, h', l)
    modifies out
    ensures forall h', l :: 0 <= h' < h + 1 && 0 <= l < 32 ==> PackedAt(out[..], base, codes, h', l)
    ensures SameOutside(out[..], old(out[..]), base, 192)
  {
    hide Nibbles, High4, PackedAt;
    for l := 0 to 32
      invariant forall h', l' :: 0 <= h' <= h && 0 <= l' < 32 && (h' < h || l' < l) ==> PackedAt(out[..], base, codes, h', l')
      invariant SameOutside(out[..], old(out[..]), base, 192)
    {
      ghost var before := out[..];
      var n := 128 * h + l;
      out[base + 64 * h + l] := Nibbles(codes[n], codes[n + 64]);
      out[base + 64 * h + 32 + l] := Nibbles(codes[n + 32], codes[n + 96]);
      out[base + 128 + 32 * h + l] := High4(codes[n], codes[n + 32], codes[n + 64], codes[n + 96]);
      NowPacked(out[..], base, codes, h, l);
      forall h', l' | 0 <= h' <= h && 0 <= l' < 32 && (h' < h || l' < l) ensures PackedAt(out[..], base, codes, h', l') {
        StaysPacked(before, out[..], base, codes, h, l, h', l');
      }
    }
  }

  lemma {:induction false} NowPacked(out: seq<bv8>, base: nat, codes: seq<bv8>, h: nat, l: nat)
    requires |codes| == 256 && base + Q6_K_BYTES <= |out| && h < 2 && l < 32
    requires var n := 128 * h + l;
             && out[base + 64 * h + l] == Nibbles(codes[n], codes[n + 64])
             && out[base + 64 * h + 32 + l] == Nibbles(codes[n + 32], codes[n + 96])
             && out[base + 128 + 32 * h + l] == High4(codes[n], codes[n + 32], codes[n + 64], codes[n + 96])
    ensures PackedAt(out, base, codes, h, l)
  {
  }

  lemma {:induction false} StaysPacked(before: seq<bv8>, after: seq<bv8>, base: nat, codes: seq<bv8>, h: nat, l: nat, h': nat, l': nat)
    requires |codes| == 256 && PackedAt(before, base, codes, h', l') && |after| == |before|
    requires h < 2 && l < 32 && (h', l') != (h, l)
    requires forall i :: 0 <= i < |after| && i != base + 64 * h + l && i != base + 64 * h + 32 + l && i != base + 128 + 32 * h + l
               ==> after[i] == before[i]
    ensures PackedAt(after, base, codes, h', l')
  {
    hide Nibbles, High4;
  }

  lemma {:induction false} Finish6K(out: seq<bv8>, b: seq<bv8>, base: nat, d: seq<bv8>, scales: seq<bv8>, codes: seq<bv8>)
    requires |d| == 2 && |scales| == 16 && |codes| == 256 && Below(codes, 64)
    requires base + Q6_K_BYTES <= |out| && b == out[base..base + Q6_K_BYTES]
    requires out[base + 208..base + 210] == d && out[base + 192..base + 208] == scales
    requires forall h, l :: 0 <= h < 2 && 0 <= l < 32 ==> PackedAt(out, base, codes, h, l)
    ensures Holds6K(b, d, scales, codes)
  {
    hide Nibbles, High4, High2, Below, PackedAt, Elem6K;
    forall e | 0 <= e < 256 ensures Elem6K(b, e) == Elem(scales[e / 16], 0, codes[e]) {
      assert PackedAt(out, base, codes, e / 128, e % 32);
      Finish6KAt(out, b, base, scales, codes, e);
    }
  }

  lemma {:induction false} Finish6KAt(out: seq<bv8>, b: seq<bv8>, base: nat, scales: seq<bv8>, codes: seq<bv8>, e: nat)
    requires |scales| == 16 && |codes| == 256 && Below(codes, 64) && e < 256
    requires base + Q6_K_BYTES <= |out| && b == out[base..base + Q6_K_BYTES]
    requires out[base + 192..base + 208] == scales && PackedAt(out, base, codes, e / 128, e % 32)
    ensures Elem6K(b, e) == Elem(scales[e / 16], 0, codes[e])
  {
    hide Nibbles, High4, High2, Below, Code6K;
    var h, k, l := e / 128, e / 32 % 4, e % 32;
    assert PackedAt(b, 0, codes, h, l);
    Reads6K(b, codes, h, k, l);
    ScaleGroupsAreContiguous(b, e, e / 16);
    assert b[192 + e / 16] == out[base + 192..base + 208][e / 16];
  }
}
