/** Sizes in files the writer did not make: the reader multiplies dimensions and bytes in 64 bits. */
module GgufSizes {
  import opened Common
  import opened GgufFormat
  import opened GgufRoundTrip

  /** The number of elements of a tensor of this shape. */
  function Product(ne: seq<nat>, n: nat): nat
    requires n <= |ne|
  {
    if n == 0 then 1 else Product(ne, n - 1) * ne[n - 1]
  }

  lemma {:induction false} ModMul(a: nat, b: nat, m: nat)
    requires m > 0
    ensures a % m * b % m == a * b % m
  {
    var q, r := a / m, a % m;
    assert a == q * m + r;
    assert a * b == q * b * m + r * b;
    ModPlus(r * b, q * b, m);
  }

  lemma {:induction false} ModPlus(a: nat, k: nat, m: nat)
    requires m > 0
    ensures (a + k * m) % m == a % m
  {
    DivMod(a + k * m, m, a / m + k, a % m);
  }

  lemma {:induction false} CountWraps(ne: seq<nat>, n: nat)
    requires n <= |ne|
    ensures Count(ne, n) == Product(ne, n) % TWO_64
  {
    if n > 0 {
      CountWraps(ne, n - 1);
      ModMul(Product(ne, n - 1), ne[n - 1], TWO_64);
    }
  }

  /** Every block length divides 2^64, so wrapping does not disturb the test for whole blocks. */
  lemma {:induction false} BlocksDivide(t: nat)
    requires TypeInfo(t).Some?
    ensures var (block, size) := TypeInfo(t).value; size > 0 && (block == 1 || block == 32 || block == 256)
  {
  }

  lemma {:induction false} Shifted(x: nat, k: nat, b: nat)
    requires b > 0
    ensures (k * b + x) / b == k + x / b && (k * b + x) % b == x % b
  {
    assert k * b + x == (k + x / b) * b + x % b;
    DivMod(k * b + x, b, k + x / b, x % b);
  }

  /** Shifting by a multiple of 2^64 shifts the blocks by a multiple too. */
  lemma {:induction false} WholeBlocks(p: nat, block: nat)
    requires block == 1 || block == 32 || block == 256
    ensures p % TWO_64 % block == p % block
    ensures p / block == p / TWO_64 * (TWO_64 / block) + p % TWO_64 / block
  {
    var q, m, r := p / TWO_64, TWO_64 / block, p % TWO_64;
    Regroup(q, m, block);
    assert m * block == TWO_64 && p == q * TWO_64 + r;
    Shifted(r, q * m, block);
  }

  lemma {:induction false} Regroup(q: nat, m: nat, b: nat)
    ensures q * m * b == q * (m * b)
  {
  }

  /** The byte size the dimensions stand for; None if they do not make whole blocks or the type is unknown. */
  function TrueSize(t: nat, ne: seq<nat>): Option<nat> {
    match TypeInfo(t)
    case None => None
    case Some((block, size)) =>
      if Product(ne, |ne|) % block != 0 then None else Some(Product(ne, |ne|) / block * size)
  }

  predicate FitsIn64(t: nat, ne: seq<nat>)
    requires TrueSize(t, ne).Some?
  {
    Product(ne, |ne|) < TWO_64 && TrueSize(t, ne).value < TWO_64
  }

  lemma {:induction false} NoOverflow(q: nat, c: nat, r: nat, size: nat, w: nat)
    requires c > 0 && size > 0 && w <= r * size && (q * c + r) * size == w
    ensures q == 0
  {
    assert (q * c + r) * size == q * c * size + r * size;
    if q > 0 {
      Positive(q, c);
      Positive(q * c, size);
    }
  }

  lemma {:induction false} Positive(a: nat, b: nat)
    requires a > 0 && b > 0
    ensures a * b > 0
  {
  }

  /**
   The reader accepts exactly the shapes of whole blocks, and the byte count it computes is the
   true one if and only if neither the element count nor the byte count reaches 2^64.
   */
  lemma {:induction false} SizeIsTrueIff(t: nat, ne: seq<nat>)
    ensures ByteSize(t, ne).Some? <==> TrueSize(t, ne).Some?
    ensures ByteSize(t, ne).Some? ==> (ByteSize(t, ne) == TrueSize(t, ne) <==> FitsIn64(t, ne))
  {
    hide TypeInfo, Product, Count;
    if TypeInfo(t).Some? {
      var (block, size) := TypeInfo(t).value;
      var p := Product(ne, |ne|);
      BlocksDivide(t);
      CountWraps(ne, |ne|);
      WholeBlocks(p, block);
      if p % block == 0 {
        SizeWraps(p, block, size);
      }
    }
  }

  lemma {:induction false} SizeWraps(p: nat, block: nat, size: nat)
    requires (block == 1 || block == 32 || block == 256) && size > 0
    ensures p % TWO_64 / block * size % TWO_64 == p / block * size <==> p < TWO_64 && p / block * size < TWO_64
  {
    var q, c, r := p / TWO_64, TWO_64 / block, p % TWO_64 / block;
    WholeBlocks(p, block);
    var w := r * size % TWO_64;
    assert w <= r * size;
    if w == p / block * size {
      NoOverflow(q, c, r, size, w);
    }
  }

  // ---- over a whole file ----

  /** A description the reader makes has the byte count of ByteSize. */
  lemma {:induction false} InfoSized(b: Bytes, pos: nat)
    ensures ReadInfo(b, pos).Some? ==> var t := ReadInfo(b, pos).value.0; ByteSize(t.t, t.ne) == Some(t.bytes)
  {
    hide ByteSize, ReadDims, ReadText, CString, ReadNum;
  }

  lemma {:induction false} InfosSized(b: Bytes, pos: nat, n: nat)
    ensures ReadInfos(b, pos, n).Some? ==>
              forall i :: 0 <= i < |ReadInfos(b, pos, n).value.0| ==>
                var t := ReadInfos(b, pos, n).value.0[i]; ByteSize(t.t, t.ne) == Some(t.bytes)
  {
    hide ReadInfo, ByteSize;
    if n > 0 {
      InfosSized(b, pos, n - 1);
      if ReadInfos(b, pos, n - 1).Some? {
        InfoSized(b, ReadInfos(b, pos, n - 1).value.1);
      }
    }
  }

  lemma {:induction false} PlacedSized(start: nat, ts: seq<TensorInfo>, n: nat, size: nat)
    requires n <= |ts| && forall i :: 0 <= i < |ts| ==> ByteSize(ts[i].t, ts[i].ne) == Some(ts[i].bytes)
    ensures PlaceAll(start, ts, n, size).Some? ==>
              forall i :: 0 <= i < |PlaceAll(start, ts, n, size).value| ==>
                var t := PlaceAll(start, ts, n, size).value[i];
                ByteSize(t.t, t.ne) == Some(t.bytes) && t.offset + t.bytes <= size
  {
    hide ByteSize;
    if n > 0 {
      PlacedSized(start, ts, n - 1, size);
    }
  }

  /** The extent the reader gives out is the size of the tensor's dimensions, as far as 64 bits go. */
  predicate Sized(t: TensorInfo, fileSize: nat) {
    && TrueSize(t.t, t.ne).Some? && t.offset + t.bytes <= fileSize
    && (t.bytes == TrueSize(t.t, t.ne).value <==> FitsIn64(t.t, t.ne))
  }

  /**
   Of any bytes that open: every tensor's extent lies in the file, and it is the true size of the
   tensor's dimensions if and only if element count and byte count stay below 2^64.
   */
  lemma {:induction false} OpenedSizes(b: Bytes, i: nat)
    requires Open(b).Some? && i < |Open(b).value.tensors|
    ensures Sized(Open(b).value.tensors[i], |b|)
  {
    hide ReadNum, ReadKVs, ReadInfos, PlaceAll, AlignUp, ReaderAlignment, ByteSize, TrueSize, FitsIn64;
    var nt, nkv := ReadNum(b, 8, 8).value, ReadNum(b, 16, 8).value;
    var p := ReadKVs(b, 24, nkv).value.1;
    var (ts, q) := ReadInfos(b, p, nt).value;
    InfosSized(b, p, nt);
    var a := ReaderAlignment(Open(b).value.kvs, |Open(b).value.kvs|);
    PlacedSized(AlignUp(q, a) % TWO_64, ts, |ts|, |b|);
    var t := Open(b).value.tensors[i];
    assert ByteSize(t.t, t.ne) == Some(t.bytes);
    SizeIsTrueIff(t.t, t.ne);
  }

  // ---- a file whose counts wrap ----

  /** One float tensor of 2^32 by 2^32 elements, and no data. */
  function Huge(): seq<Tensor> {
    [Tensor([116], 0, [0x1_0000_0000, 0x1_0000_0000], [])]
  }

  /** Such a file opens, and its tensor of 2^64 elements has no bytes. */
  lemma {:induction false} HugeOpensEmpty()
    ensures var f := Open(FileBytes([], Huge(), 32));
            && f.Some? && |f.value.tensors| == 1 && f.value.tensors[0].bytes == 0
            && f.value.tensors[0].ne == Huge()[0].ne && Product(Huge()[0].ne, 2) == TWO_64
  {
    hide FileBytes, Open, LE;
    var ne := Huge()[0].ne;
    assert Product(ne, 0) == 1 && Product(ne, 1) == 0x1_0000_0000 && Product(ne, 2) == TWO_64;
    CountWraps(ne, 2);
    assert ByteSize(0, ne) == Some(0);
    HugeIsShort();
    RoundTripIff([], Huge(), 32);
    assert AlignmentsAgree([], Huge(), 32);
  }

  lemma {:induction false} HugeIsShort()
    ensures |FileBytes([], Huge(), 32)| < TWO_63
  {
    hide LE;
    var ts := Huge();
    assert EncData(ts, 32, 0) == [] && EncInfos(ts, 32, 0) == [] && EncDims(ts[0].ne, 0) == [];
  }
}
