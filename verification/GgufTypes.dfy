/**
 The tensor types of the container against what their blocks are made of, and the opened extent
 of a block-quantized tensor against the decoder that reads it.
 */
module GgufTypes {
  import opened Common
  import opened GgufFormat
  import opened GgufSizes
  import opened BlockCodecs
  import opened BlockRows

  /** `count` values of `bits` bits each. */
  datatype Field = Field(count: nat, bits: nat)

  /** The elements of a block and its fields: scales first, then high bits, then low bits of the codes. */
  function Fields(t: nat): Option<(nat, seq<Field>)> {
    match t
    case 0 => Some((1, [Field(1, 32)]))                                                       // F32
    case 1 => Some((1, [Field(1, 16)]))                                                       // F16
    case 2 => Some((32, [Field(1, 16), Field(32, 4)]))                                        // Q4_0: d, codes
    case 3 => Some((32, [Field(2, 16), Field(32, 4)]))                                        // Q4_1: d, m, codes
    case 6 => Some((32, [Field(1, 16), Field(32, 1), Field(32, 4)]))                          // Q5_0
    case 7 => Some((32, [Field(2, 16), Field(32, 1), Field(32, 4)]))                          // Q5_1
    case 8 => Some((32, [Field(1, 16), Field(32, 8)]))                                        // Q8_0
    case 9 => Some((32, [Field(2, 32), Field(32, 8)]))                                        // Q8_1
    case 10 => Some((256, [Field(2, 16), Field(16, 8), Field(256, 2)]))                       // Q2_K
    case 11 => Some((256, [Field(1, 16), Field(16, 6), Field(256, 1), Field(256, 2)]))        // Q3_K
    case 12 => Some((256, [Field(2, 16), Field(16, 6), Field(256, 4)]))                       // Q4_K: d, dmin, 8 scales and 8 minima
    case 13 => Some((256, [Field(2, 16), Field(16, 6), Field(256, 1), Field(256, 4)]))        // Q5_K
    case 14 => Some((256, [Field(1, 16), Field(16, 8), Field(256, 2), Field(256, 4)]))        // Q6_K
    case 15 => Some((256, [Field(1, 32), Field(16, 16), Field(256, 8)]))                      // Q8_K: float scale, sums of sixteen
    case 30 => Some((1, [Field(1, 16)]))                                                      // BF16
    case 39 => Some((32, [Field(1, 8), Field(32, 4)]))                                        // MXFP4: exponent, codes
    case _ => None
  }

  /** The bits of the first n fields. */
  function Bits(fields: seq<Field>, n: nat): nat
    requires n <= |fields|
  {
    if n == 0 then 0 else Bits(fields, n - 1) + fields[n - 1].count * fields[n - 1].bits
  }

  /** A known type's block takes exactly the bits of its fields, and no other type is known. */
  lemma {:induction false} BlockIsItsFields(t: nat)
    ensures TypeInfo(t).Some? <==> Fields(t).Some?
    ensures TypeInfo(t).Some? ==> TypeInfo(t).value.0 == Fields(t).value.0 && 8 * TypeInfo(t).value.1 == Bits(Fields(t).value.1, |Fields(t).value.1|)
  {
    if Fields(t).Some? {
      var fs := Fields(t).value.1;
      assert Bits(fs, 0) == 0 && Bits(fs, 1) == fs[0].count * fs[0].bits;
      if |fs| > 1 {
        assert Bits(fs, 2) == Bits(fs, 1) + fs[1].count * fs[1].bits;
      }
      if |fs| > 2 {
        assert Bits(fs, 3) == Bits(fs, 2) + fs[2].count * fs[2].bits;
      }
    }
  }

  /** The container's number of a format. */
  function TagOf(f: Format): nat {
    match f case Q4_0 => 2 case Q5_0 => 6 case Q4_K => 12 case Q6_K => 14
  }

  /** The reader's block is the block the codecs pack. */
  lemma {:induction false} BlockIsTheCodecs(f: Format)
    ensures TypeInfo(TagOf(f)) == Some((Elems(f), BlockBytes(f)))
  {
  }

  /** The extent of an opened tensor of such a format is its number of blocks times the codec's block length. */
  lemma {:induction false} ExtentIsBlocks(b: Bytes, i: nat, f: Format)
    requires Open(b).Some? && i < |Open(b).value.tensors| && Open(b).value.tensors[i].t == TagOf(f)
    requires var t := Open(b).value.tensors[i]; TrueSize(t.t, t.ne).Some? ==> FitsIn64(t.t, t.ne)
    ensures var t := Open(b).value.tensors[i];
            && Product(t.ne, |t.ne|) % Elems(f) == 0 && t.offset + t.bytes <= |b|
            && t.bytes == Product(t.ne, |t.ne|) / Elems(f) * BlockBytes(f)
  {
    hide Open, Product, FitsIn64, TypeInfo;
    OpenedSizes(b, i);
    BlockIsTheCodecs(f);
  }

  /** The bytes of an extent, as the block codecs see them. */
  function Extent(b: Bytes, t: TensorInfo): (s: seq<bv8>)
    requires t.offset + t.bytes <= |b|
    ensures |s| == t.bytes
  {
    seq(t.bytes, k requires 0 <= k < t.bytes => b[t.offset + k] as bv8)
  }

  /** The decoder reads the opened extent to its last byte: one code, scale and minimum for each element. */
  method ReadTensor(b: Bytes, i: nat, f: Format, ghost ks: seq<Block>) returns (y: seq<Elem>)
    requires Open(b).Some? && i < |Open(b).value.tensors| && Open(b).value.tensors[i].t == TagOf(f)
    requires var t := Open(b).value.tensors[i];
             && (TrueSize(t.t, t.ne).Some? ==> FitsIn64(t.t, t.ne)) && t.offset + t.bytes <= |b|
             && GoodBlocks(f, ks) && |ks| == Product(t.ne, |t.ne|) / Elems(f)
             && forall k :: 0 <= k < |ks| ==> SlotHolds(f, Extent(b, t), ks[k], k)
    ensures RowRead(f, ks, y, |ks|) && |y| == Product(Open(b).value.tensors[i].ne, |Open(b).value.tensors[i].ne|)
  {
    hide Open, Product, FitsIn64, TrueSize, SlotHolds, GoodBlocks, Elems, BlockBytes;
    ExtentIsBlocks(b, i, f);
    var t := Open(b).value.tensors[i];
    y := UnpackRow(f, Extent(b, t), ks);
    WholeBlocksOf(Product(t.ne, |t.ne|), f);
  }

  lemma {:induction false} WholeBlocksOf(p: nat, f: Format)
    requires p % Elems(f) == 0
    ensures p / Elems(f) * Elems(f) == p
  {
  }
}
