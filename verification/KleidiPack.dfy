/**
 The KleidiAI right-hand-side pack: nibble order conversion, scalar and vector, and the packed
 buffer written row by row or four rows at a time.
 */
module KleidiPack {
  import opened Common

  // ---- conversion from split order to sequential order ----

  /** The low nibbles of two bytes in one. */
  function LowPair(a: bv8, b: bv8): bv8 {
    (a & 0x0F) | (b << 4)
  }

  /** The high nibbles of two bytes in one. */
  function HighPair(a: bv8, b: bv8): bv8 {
    (a >> 4) | (b & 0xF0)
  }

  /** vuzp1q_u8 / vuzp2q_u8 */
  function Unzip(v0: seq<bv8>, v1: seq<bv8>, odd: nat): (r: seq<bv8>)
    requires |v0| == 16 && |v1| == 16 && odd < 2
    ensures |r| == 16
  {
    seq(16, i requires 0 <= i < 16 => (v0 + v1)[2 * i + odd])
  }

  function Insert(a: bv8, b: bv8): bv8 {
    (b << 4) | (a & 0x0F)
  }

  /** vsliq_n_u8(a, b, 4): b's low nibble above a's. */
  function ShiftLeftInsert(a: seq<bv8>, b: seq<bv8>): seq<bv8>
    requires |a| == |b|
  {
    seq(|a|, i requires 0 <= i < |a| => Insert(a[i], b[i]))
  }

  /** vsriq_n_u8(a, b, 4): b's high nibble below a's. */
  function ShiftRightInsert(a: seq<bv8>, b: seq<bv8>): seq<bv8>
    requires |a| == |b|
  {
    seq(|a|, i requires 0 <= i < |a| => HighPair(b[i], a[i]))
  }

  /** Byte i of a converted block: low nibbles of a pair in the first half, high nibbles in the second. */
  function Converted(src: seq<bv8>, i: nat): bv8
    requires |src| % 2 == 0 && i < |src|
  {
    var half := |src|;
    if i < half / 2 then LowPair(src[2 * i], src[2 * i + 1])
    else HighPair(src[2 * i - half], src[2 * i + 1 - half])
  }

  function Sequential(src: seq<bv8>): (dst: seq<bv8>)
    requires |src| % 2 == 0
    ensures |dst| == |src|
  {
    seq(|src|, i requires 0 <= i < |src| => Converted(src, i))
  }

  /** convert_s1s0_s16s0_scalar: one 16-bit word, two bytes, per step. */
  method ConvertScalar(src: seq<bv8>, bl: nat) returns (dst: seq<bv8>)
    requires bl % 32 == 0 && |src| == bl / 2
    ensures dst == Sequential(src)
  {
    hide LowPair, HighPair;
    var half, split := bl / 2, bl / 4;
    dst := [];
    for w := 0 to bl / 4
      invariant |dst| == 2 * w && forall i :: 0 <= i < |dst| ==> dst[i] == Converted(src, i)
    {
      var b0, b1 := 2 * w, 2 * w + 1;
      var p0 := if b0 < split then LowPair(src[2 * b0], src[2 * b0 + 1])
                else HighPair(src[2 * b0 - half], src[2 * b0 - half + 1]);
      var p1 := if b1 < split then LowPair(src[2 * b1], src[2 * b1 + 1])
                else HighPair(src[2 * b1 - half], src[2 * b1 - half + 1]);
      assert p0 == Converted(src, b0) && p1 == Converted(src, b1);
      dst := dst + [p0, p1];
    }
  }

  predicate ConvertedRange(dst: seq<bv8>, src: seq<bv8>, lo: nat, hi: nat)
    requires |src| % 2 == 0 && |dst| == |src|
  {
    forall i :: lo <= i < hi && i < |dst| ==> dst[i] == Converted(src, i)
  }

  /** convert_chunk32: 32 source bytes at 2 * at give 16 bytes of each half, at `at` and split + at. */
  method ConvertChunk(src: seq<bv8>, dst: array<bv8>, at: nat)
    requires |src| % 2 == 0 && dst.Length == |src| && at + 16 <= |src| / 2
    requires ConvertedRange(dst[..], src, 0, at) && ConvertedRange(dst[..], src, |src| / 2, |src| / 2 + at)
    modifies dst
    ensures ConvertedRange(dst[..], src, 0, at + 16) && ConvertedRange(dst[..], src, |src| / 2, |src| / 2 + at + 16)
  {
    hide Converted, ShiftLeftInsert, ShiftRightInsert, Unzip;
    var split := |src| / 2;
    var v0, v1 := src[2 * at..2 * at + 16], src[2 * at + 16..2 * at + 32];
    var even, odd := Unzip(v0, v1, 0), Unzip(v0, v1, 1);
    var lo, hi := ShiftLeftInsert(even, odd), ShiftRightInsert(odd, even);
    ChunkIsConverted(src, at, lo, hi);
    ghost var before := dst[..];
    for i := 0 to 16
      invariant forall k :: 0 <= k < at ==> dst[k] == before[k]
      invariant forall k :: split <= k < split + at ==> dst[k] == before[k]
      invariant forall k :: at <= k < at + i ==> dst[k] == Converted(src, k)
      invariant forall k :: split + at <= k < split + at + i ==> dst[k] == Converted(src, k)
    {
      dst[at + i], dst[split + at + i] := lo[i], hi[i];
    }
  }

  lemma {:induction false} ChunkIsConverted(src: seq<bv8>, at: nat, lo: seq<bv8>, hi: seq<bv8>)
    requires |src| % 2 == 0 && at + 16 <= |src| / 2
    requires var v0, v1 := src[2 * at..2 * at + 16], src[2 * at + 16..2 * at + 32];
             && lo == ShiftLeftInsert(Unzip(v0, v1, 0), Unzip(v0, v1, 1))
             && hi == ShiftRightInsert(Unzip(v0, v1, 1), Unzip(v0, v1, 0))
    ensures |lo| == 16 && |hi| == 16
    ensures forall i :: 0 <= i < 16 ==> lo[i] == Converted(src, at + i) && hi[i] == Converted(src, |src| / 2 + at + i)
  {
    var v0, v1 := src[2 * at..2 * at + 16], src[2 * at + 16..2 * at + 32];
    assert v0 + v1 == src[2 * at..2 * at + 32];
    forall i | 0 <= i < 16 ensures lo[i] == Converted(src, at + i) && hi[i] == Converted(src, |src| / 2 + at + i) {
      OrCommutes(src[2 * (at + i)], src[2 * (at + i) + 1]);
    }
  }

  lemma {:induction false} OrCommutes(a: bv8, b: bv8)
    ensures Insert(a, b) == LowPair(a, b)
  {
  }

  lemma {:induction false} TailIsConverted(src: seq<bv8>, at: nat, lo: seq<bv8>, hi: seq<bv8>)
    requires |src| % 2 == 0 && at + 8 == |src| / 2
    requires var v0 := src[2 * at..2 * at + 16];
             && lo == ShiftLeftInsert(Unzip(v0, v0, 0), Unzip(v0, v0, 1))
             && hi == ShiftRightInsert(Unzip(v0, v0, 1), Unzip(v0, v0, 0))
    ensures |lo| == 16 && |hi| == 16
    ensures forall i :: 0 <= i < 8 ==> lo[i] == Converted(src, at + i) && hi[i] == Converted(src, |src| / 2 + at + i)
  {
    var v0 := src[2 * at..2 * at + 16];
    forall i | 0 <= i < 8 ensures lo[i] == Converted(src, at + i) && hi[i] == Converted(src, |src| / 2 + at + i) {
      assert (v0 + v0)[2 * i] == v0[2 * i] && (v0 + v0)[2 * i + 1] == v0[2 * i + 1];
      OrCommutes(src[2 * (at + i)], src[2 * (at + i) + 1]);
    }
  }

  /** The last 16 source bytes, or a whole block of 32 codes: eight bytes of each half. */
  method ConvertTail(src: seq<bv8>, dst: array<bv8>, at: nat)
    requires |src| % 2 == 0 && dst.Length == |src| && at + 8 == |src| / 2
    requires ConvertedRange(dst[..], src, 0, at) && ConvertedRange(dst[..], src, |src| / 2, |src| / 2 + at)
    modifies dst
    ensures ConvertedRange(dst[..], src, 0, |src|)
  {
    hide Converted, ShiftLeftInsert, ShiftRightInsert, Unzip;
    var split := |src| / 2;
    var v0 := src[2 * at..2 * at + 16];
    var even, odd := Unzip(v0, v0, 0), Unzip(v0, v0, 1);
    var lo, hi := ShiftLeftInsert(even, odd), ShiftRightInsert(odd, even);
    TailIsConverted(src, at, lo, hi);
    ghost var before := dst[..];
    for i := 0 to 8
      invariant forall k :: 0 <= k < at ==> dst[k] == before[k]
      invariant forall k :: split <= k < split + at ==> dst[k] == before[k]
      invariant forall k :: at <= k < at + i ==> dst[k] == Converted(src, k)
      invariant forall k :: split + at <= k < split + at + i ==> dst[k] == Converted(src, k)
    {
      dst[at + i], dst[split + at + i] := lo[i], hi[i];
    }
  }

  /** convert_s1s0_s16s0_neon: 64 bytes a turn, then 32, then the last 16. */
  method ConvertVector(src: seq<bv8>, bl: nat) returns (dst: array<bv8>)
    requires bl % 32 == 0 && |src| == bl / 2
    ensures fresh(dst) && dst[..] == Sequential(src)
  {
    hide Converted;
    dst := new bv8[|src|](_ => 0);
    ghost var m := bl / 32;
    var remaining, at := |src|, 0;
    while remaining >= 64
      invariant remaining == 16 * m >= 0 && remaining + 2 * at == |src|
      invariant ConvertedRange(dst[..], src, 0, at) && ConvertedRange(dst[..], src, |src| / 2, |src| / 2 + at)
    {
      ConvertChunk(src, dst, at);
      ConvertChunk(src, dst, at + 16);
      remaining, at := remaining - 64, at + 32;
      m := m - 4;
    }
    while remaining >= 32
      invariant remaining == 16 * m >= 0 && remaining + 2 * at == |src|
      invariant ConvertedRange(dst[..], src, 0, at) && ConvertedRange(dst[..], src, |src| / 2, |src| / 2 + at)
    {
      ConvertChunk(src, dst, at);
      remaining, at := remaining - 32, at + 16;
      m := m - 2;
    }
    if remaining != 0 {
      assert m == 1 && 2 * (at + 8) == |src|;
      ConvertTail(src, dst, at);
    }
    assert dst[..] == Sequential(src);
  }

  // ---- the engine's own permutation ----

  /** Code i of a group packed two to a byte, low nibble first. */
  function CodeOf(packed: seq<bv8>, i: nat): bv8
    requires i / 2 < |packed|
  {
    if i % 2 == 0 then packed[i / 2] & 0x0F else packed[i / 2] >> 4
  }

  /** A group of 64 codes in split order: byte idx holds codes idx and idx + 32. */
  method SplitGroup(packed: seq<bv8>) returns (values: array<bv8>)
    requires |packed| == 32
    ensures fresh(values) && values.Length == 32
    ensures forall idx :: 0 <= idx < 32 ==> values[idx] == (CodeOf(packed, idx + 32) << 4) | CodeOf(packed, idx)
  {
    values := new bv8[32](_ => 0);
    for idx := 0 to 32
      invariant forall k :: 0 <= k < idx ==> values[k] == (CodeOf(packed, k + 32) << 4) | CodeOf(packed, k)
    {
      var lo, hi := idx / 2, idx / 2 + 16;
      var odd := idx % 2 == 1;
      var loNib := if odd then packed[lo] >> 4 else packed[lo] & 0x0F;
      var hiNib := if odd then packed[hi] >> 4 else packed[hi] & 0x0F;
      values[idx] := (hiNib << 4) | loNib;
    }
  }

  /** The low codes of two neighbouring bytes make up b again, the high codes c. */
  lemma {:induction false} PairBack(b: bv8, c: bv8)
    ensures LowPair(((c & 0x0F) << 4) | (b & 0x0F), ((c >> 4) << 4) | (b >> 4)) == b
    ensures HighPair(((c & 0x0F) << 4) | (b & 0x0F), ((c >> 4) << 4) | (b >> 4)) == c
  {
  }

  lemma {:induction false} CodesOf(packed: seq<bv8>, j: nat)
    requires j < |packed|
    ensures CodeOf(packed, 2 * j) == packed[j] & 0x0F && CodeOf(packed, 2 * j + 1) == packed[j] >> 4
  {
  }

  /** Byte j of the first half pairs the low nibbles of two neighbours, byte j of the second half the high ones. */
  lemma {:induction false} PairUndone(packed: seq<bv8>, v: bv8, v': bv8, j: nat)
    requires |packed| == 32 && j < 16
    requires v == (CodeOf(packed, 2 * j + 32) << 4) | CodeOf(packed, 2 * j)
    requires v' == (CodeOf(packed, 2 * j + 33) << 4) | CodeOf(packed, 2 * j + 1)
    ensures LowPair(v, v') == packed[j] && HighPair(v, v') == packed[j + 16]
  {
    hide CodeOf, LowPair, HighPair;
    CodesOf(packed, j);
    CodesOf(packed, j + 16);
    PairBack(packed[j], packed[j + 16]);
  }

  /** For groups of 64 codes the pack's conversion undoes the engine's permutation exactly. */
  lemma {:induction false} ConversionUndoesSplit(packed: seq<bv8>, values: seq<bv8>)
    requires |packed| == 32 && |values| == 32
    requires forall idx :: 0 <= idx < 32 ==> values[idx] == (CodeOf(packed, idx + 32) << 4) | CodeOf(packed, idx)
    ensures Sequential(values) == packed
  {
    hide CodeOf, LowPair, HighPair;
    forall i | 0 <= i < 32 ensures Sequential(values)[i] == packed[i] {
      var j := if i < 16 then i else i - 16;
      PairUndone(packed, values[2 * j], values[2 * j + 1], j);
    }
  }
}
