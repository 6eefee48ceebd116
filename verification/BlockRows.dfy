/** Rows of any number of blocks: encoded slot after slot, decoded in the source's write order. */
module BlockRows {
  import opened Common
  import opened BitPlanes
  import opened Qng64
  import opened BlockCodecs

  datatype Format = Q4_0 | Q5_0 | Q4_K | Q6_K

  /** Scales, minima and codes of one block; Q6_K codes are biased by 32. */
  datatype Block = Block(d: seq<bv8>, dmin: seq<bv8>, scales: seq<bv8>, mins: seq<bv8>, codes: seq<bv8>)

  function BlockBytes(f: Format): nat {
    match f case Q4_0 => Q4_0_BYTES case Q5_0 => Q5_0_BYTES case Q4_K => Q4_K_BYTES case Q6_K => Q6_K_BYTES
  }

  function Elems(f: Format): nat {
    if f.Q4_0? || f.Q5_0? then 32 else 256
  }

  predicate GoodBlock(f: Format, k: Block) {
    && |k.d| == 2 && |k.codes| == Elems(f)
    && match f
       case Q4_0 => Below(k.codes, 16)
       case Q5_0 => Below(k.codes, 32)
       case Q4_K => |k.dmin| == 2 && |k.scales| == 8 && |k.mins| == 8 && Below(k.scales, 64) && Below(k.mins, 64) && Below(k.codes, 16)
       case Q6_K => |k.scales| == 16 && Below(k.codes, 64)
  }

  /** What a decoder reads for element e of a block. */
  function Read(f: Format, b: seq<bv8>, e: nat): Elem
    requires |b| == BlockBytes(f) && e < Elems(f)
  {
    match f
    case Q4_0 => Elem(0, 0, Code40(b, e))
    case Q5_0 => Elem(0, 0, Code50(b, e))
    case Q4_K => Elem4K(b, e)
    case Q6_K => Elem6K(b, e)
  }

  /** What the encoder meant for element e: its sub-block's scale and minimum, and its code. */
  function Meant(f: Format, k: Block, e: nat): Elem
    requires GoodBlock(f, k) && e < Elems(f)
  {
    match f
    case Q4_0 => Elem(0, 0, k.codes[e])
    case Q5_0 => Elem(0, 0, k.codes[e])
    case Q4_K => Elem(k.scales[e / 32], k.mins[e / 32], k.codes[e])
    case Q6_K => Elem(k.scales[e / 16], 0, k.codes[e])
  }

  /** The block's half-precision scales, where the format keeps them. */
  function Halves(f: Format, b: seq<bv8>): (seq<bv8>, seq<bv8>)
    requires |b| == BlockBytes(f)
  {
    match f
    case Q4_K => (b[..2], b[2..4])
    case Q6_K => (b[208..], [])
    case _ => (b[..2], [])
  }

  predicate HoldsBlock(f: Format, b: seq<bv8>, k: Block)
    requires GoodBlock(f, k)
  {
    && |b| == BlockBytes(f)
    && Halves(f, b) == (k.d, if f.Q4_K? then k.dmin else [])
    && forall e :: 0 <= e < Elems(f) ==> Read(f, b, e) == Meant(f, k, e)
  }

  method PackBlock(f: Format, k: Block, out: array<bv8>, base: nat)
    requires GoodBlock(f, k) && base + BlockBytes(f) <= out.Length
    modifies out
    ensures HoldsBlock(f, out[base..base + BlockBytes(f)], k)
    ensures SameOutside(out[..], old(out[..]), base, BlockBytes(f))
  {
    hide Code40, Code50, Elem4K, Elem6K, Below;
    match f {
      case Q4_0 =>
        Pack40(k.d, k.codes, out, base);
        assert out[base..base + Q4_0_BYTES][..2] == out[base..base + 2];
      case Q5_0 =>
        Pack50(k.d, k.codes, out, base);
        assert out[base..base + Q5_0_BYTES][..2] == out[base..base + 2];
      case Q4_K => Pack4K(k.d, k.dmin, k.scales, k.mins, k.codes, out, base);
      case Q6_K => Pack6K(k.d, k.scales, k.codes, out, base);
    }
  }

  predicate SlotHolds(f: Format, out: seq<bv8>, k: Block, i: nat)
    requires GoodBlock(f, k)
  {
    i * BlockBytes(f) + BlockBytes(f) <= |out| && HoldsBlock(f, out[i * BlockBytes(f)..i * BlockBytes(f) + BlockBytes(f)], k)
  }

  predicate GoodBlocks(f: Format, ks: seq<Block>) {
    forall i :: 0 <= i < |ks| ==> GoodBlock(f, ks[i])
  }

  lemma {:induction false} SlotsInOrder(i: nat, j: nat, size: nat)
    requires i < j
    ensures i * size + size <= j * size
  {
    assert (i + 1) * size <= j * size;
  }

  method PackRow(f: Format, ks: seq<Block>, out: array<bv8>)
    requires GoodBlocks(f, ks) && |ks| * BlockBytes(f) <= out.Length
    modifies out
    ensures forall i :: 0 <= i < |ks| ==> SlotHolds(f, out[..], ks[i], i)
  {
    hide HoldsBlock, GoodBlock, BlockBytes, SlotHolds, SameOutside;
    for i := 0 to |ks|
      invariant forall j :: 0 <= j < i ==> SlotHolds(f, out[..], ks[j], j)
    {
      ghost var before := out[..];
      SlotsInOrder(i, |ks|, BlockBytes(f));
      PackBlock(f, ks[i], out, i * BlockBytes(f));
      SlotNow(f, out[..], out[i * BlockBytes(f)..i * BlockBytes(f) + BlockBytes(f)], ks[i], i);
      forall j | 0 <= j < i ensures SlotHolds(f, out[..], ks[j], j) {
        SlotStays(f, before, out[..], ks[j], j, i);
      }
    }
  }

  lemma {:induction false} SlotNow(f: Format, out: seq<bv8>, b: seq<bv8>, k: Block, i: nat)
    requires GoodBlock(f, k) && i * BlockBytes(f) + BlockBytes(f) <= |out|
    requires b == out[i * BlockBytes(f)..i * BlockBytes(f) + BlockBytes(f)] && HoldsBlock(f, b, k)
    ensures SlotHolds(f, out, k, i)
  {
    hide HoldsBlock, GoodBlock, BlockBytes;
  }

  /** Writing slot i leaves an earlier slot alone. */
  lemma {:induction false} SlotStays(f: Format, before: seq<bv8>, after: seq<bv8>, k: Block, j: nat, i: nat)
    requires GoodBlock(f, k) && j < i && SlotHolds(f, before, k, j)
    requires SameOutside(after, before, i * BlockBytes(f), BlockBytes(f))
    ensures SlotHolds(f, after, k, j)
  {
    hide HoldsBlock, GoodBlock, BlockBytes;
    var size := BlockBytes(f);
    SlotsInOrder(j, i, size);
    assert after[j * size..j * size + size] == before[j * size..j * size + size];
  }

  // ---- decoding ----

  /** dequant_row_q4_0, one block: byte j gives elements j and j + 16. */
  method Unpack40(b: seq<bv8>) returns (y: seq<Elem>)
    requires |b| == Q4_0_BYTES
    ensures |y| == 32 && forall e :: 0 <= e < 32 ==> y[e] == Elem(0, 0, Code40(b, e))
  {
    y := seq(32, _ => Elem(0, 0, 0));
    for j := 0 to 16
      invariant |y| == 32
      invariant forall e :: 0 <= e < 32 && e % 16 < j ==> y[e] == Elem(0, 0, Code40(b, e))
    {
      var qs := b[2 + j];
      var x0, x1 := qs & 0x0F, qs >> 4;
      y := y[j := Elem(0, 0, x0)];
      y := y[j + 16 := Elem(0, 0, x1)];
    }
  }

  /** dequant_row_q5_0, one block: the fifth bits are shifted out of the 32-bit mask. */
  method Unpack50(b: seq<bv8>) returns (y: seq<Elem>)
    requires |b| == Q5_0_BYTES
    ensures |y| == 32 && forall e :: 0 <= e < 32 ==> y[e] == Elem(0, 0, Code50(b, e))
  {
    hide Word32, StreamBit;
    y := seq(32, _ => Elem(0, 0, 0));
    var qh := Word32(b[2..6]);
    for j := 0 to 16
      invariant |y| == 32
      invariant forall e :: 0 <= e < 32 && e % 16 < j ==> y[e] == Elem(0, 0, Code50(b, e))
    {
      var x0, x1 := SplitFive(qh, b[6 + j], j, b[2..6]);
      y := y[j := Elem(0, 0, x0)];
      y := y[j + 16 := Elem(0, 0, x1)];
    }
  }

  /** The body of the loop: two fifth bits as bytes, joined to the two nibbles of byte j. */
  method SplitFive(qh: bv32, qs: bv8, j: nat, ghost q: seq<bv8>) returns (x0: bv8, x1: bv8)
    requires j < 16 && |q| == 4 && qh == Word32(q)
    ensures x0 == (qs & 0x0F) | (if StreamBit(q, j) then 0x10 else 0)
    ensures x1 == (qs >> 4) | (if StreamBit(q, j + 16) then 0x10 else 0)
  {
    hide Word32, StreamBit, LowFifth, HighFifth;
    LowFifthIs(q, j);
    HighFifthIs(q, j);
    var xh0 := ByteOfFifth(LowFifth(qh, j));
    var xh1 := ByteOfFifth(HighFifth(qh, j));
    x0, x1 := (qs & 0x0F) | xh0, (qs >> 4) | xh1;
  }

  /** The narrowing to a byte. */
  function ByteOfFifth(w: bv32): (b: bv8)
    requires w == 0 || w == 0x10
    ensures w == 0 ==> b == 0
    ensures w == 0x10 ==> b == 0x10
  {
    w as bv8
  }

  /** dequant_row_q4_k, one block: 32 low nibbles under one scale pair, then the 32 high ones under the next. */
  method Unpack4K(b: seq<bv8>) returns (y: seq<Elem>)
    requires |b| == Q4_K_BYTES
    ensures |y| == 256 && forall e :: 0 <= e < 256 ==> y[e] == Elem4K(b, e)
  {
    hide ScaleMin, Elem4K;
    y := [];
    var sub, q := 0, 16;
    var scales := b[4..16];
    for c := 0 to 4
      invariant sub == 2 * c && q == 16 + 32 * c && |y| == 64 * c
      invariant forall e :: 0 <= e < |y| ==> y[e] == Elem4K(b, e)
    {
      var (s1, m1) := ScaleMin(scales, sub);
      var (s2, m2) := ScaleMin(scales, sub + 1);
      for l := 0 to 32
        invariant |y| == 64 * c + l && forall e :: 0 <= e < |y| ==> y[e] == Elem4K(b, e)
      {
        Elem4KAt(b, c, l);
        y := y + [Elem(s1, m1, b[q + l] & 0x0F)];
      }
      for l := 0 to 32
        invariant |y| == 64 * c + 32 + l && forall e :: 0 <= e < |y| ==> y[e] == Elem4K(b, e)
      {
        Elem4KAt(b, c, l);
        y := y + [Elem(s2, m2, b[q + l] >> 4)];
      }
      q, sub := q + 32, sub + 2;
    }
  }

  lemma {:induction false} Elem4KAt(b: seq<bv8>, c: nat, l: nat)
    requires |b| == Q4_K_BYTES && c < 4 && l < 32
    ensures var (s1, m1) := ScaleMin(b[4..16], 2 * c);
            Elem4K(b, 64 * c + l) == Elem(s1, m1, b[16 + 32 * c + l] & 0x0F)
    ensures var (s2, m2) := ScaleMin(b[4..16], 2 * c + 1);
            Elem4K(b, 64 * c + 32 + l) == Elem(s2, m2, b[16 + 32 * c + l] >> 4)
  {
    hide ScaleMin;
    var e, d := 64 * c + l, 64 * c + 32 + l;
    assert e / 64 == c && e % 64 == l && e / 32 == 2 * c && e % 32 == l;
    assert d / 64 == c && d % 64 == 32 + l && d / 32 == 2 * c + 1 && d % 32 == l;
  }

  /** dequant_row_q6_k, one block: four elements 32 apart per step, cursors into ql, qh and the scales. */
  method Unpack6K(b: seq<bv8>) returns (y: seq<Elem>)
    requires |b| == Q6_K_BYTES
    ensures |y| == 256 && forall e :: 0 <= e < 256 ==> y[e] == Elem6K(b, e)
  {
    hide Elem6K;
    y := seq(256, _ => Elem(0, 0, 0));
    for h := 0 to 2
      invariant |y| == 256 && forall e :: 0 <= e < 128 * h ==> y[e] == Elem6K(b, e)
    {
      for l := 0 to 32
        invariant |y| == 256 && forall e :: 0 <= e < 128 * h ==> y[e] == Elem6K(b, e)
        invariant forall e :: 128 * h <= e < 128 * h + 128 && e % 32 < l ==> y[e] == Elem6K(b, e)
      {
        var e1, e2, e3, e4 := Step6K(b, 64 * h, 128 + 32 * h, 192 + 8 * h, l, h);
        var n := 128 * h + l;
        y := y[n := e1][n + 32 := e2][n + 64 := e3][n + 96 := e4];
      }
    }
  }

  /** The body of the inner loop, with ql, qh and sc as offsets; they stand at half h. */
  method Step6K(b: seq<bv8>, ql: nat, qh: nat, sc: nat, l: nat, ghost h: nat) returns (e1: Elem, e2: Elem, e3: Elem, e4: Elem)
    requires |b| == Q6_K_BYTES && l < 32 && h < 2 && ql == 64 * h && qh == 128 + 32 * h && sc == 192 + 8 * h
    ensures e1 == Elem6K(b, 128 * h + l) && e2 == Elem6K(b, 128 * h + l + 32)
    ensures e3 == Elem6K(b, 128 * h + l + 64) && e4 == Elem6K(b, 128 * h + l + 96)
  {
    hide Code6, Elem6K;
    var sub := l / 16;
    var high := b[qh + l];
    e1 := Elem(b[sc + sub], 0, Code6(b[ql + l], high, 0));
    e2 := Elem(b[sc + sub + 2], 0, Code6(b[ql + l + 32], high, 1));
    e3 := Elem(b[sc + sub + 4], 0, Code6(b[ql + l], high, 2));
    e4 := Elem(b[sc + sub + 6], 0, Code6(b[ql + l + 32], high, 3));
    Elem6KAt(b, h, 0, l);
    Elem6KAt(b, h, 1, l);
    Elem6KAt(b, h, 2, l);
    Elem6KAt(b, h, 3, l);
  }

  lemma {:induction false} Elem6KAt(b: seq<bv8>, h: nat, k: nat, l: nat)
    requires |b| == Q6_K_BYTES && h < 2 && k < 4 && l < 32
    ensures Elem6K(b, 128 * h + l + 32 * k)
         == Elem(b[192 + 8 * h + l / 16 + 2 * k], 0,
                 Code6(b[64 * h + l + 32 * (k % 2)], b[128 + 32 * h + l], k))
  {
    hide Code6;
    Position6K(h, k, l);
  }

  lemma {:induction false} Position6K(h: nat, k: nat, l: nat)
    requires h < 2 && k < 4 && l < 32
    ensures var e := 128 * h + l + 32 * k;
            e < 256 && e / 128 == h && e / 32 % 4 == k && e % 32 == l
  {
  }

  method UnpackBlock(f: Format, b: seq<bv8>) returns (y: seq<Elem>)
    requires |b| == BlockBytes(f)
    ensures |y| == Elems(f) && forall e :: 0 <= e < |y| ==> y[e] == Read(f, b, e)
  {
    hide Elem4K, Elem6K, Code40, Code50;
    match f {
      case Q4_K => y := Unpack4K(b);
      case Q6_K => y := Unpack6K(b);
      case Q4_0 => y := Unpack40(b);
      case Q5_0 => y := Unpack50(b);
    }
  }

  predicate ElementIs(f: Format, k: Block, y: seq<Elem>, i: nat, e: nat)
    requires GoodBlock(f, k) && e < Elems(f)
  {
    i * Elems(f) + e < |y| && y[i * Elems(f) + e] == Meant(f, k, e)
  }

  /** The elements of the first n blocks. */
  predicate RowRead(f: Format, ks: seq<Block>, y: seq<Elem>, n: nat)
    requires GoodBlocks(f, ks) && n <= |ks|
  {
    |y| == n * Elems(f) && forall i, e :: 0 <= i < n && 0 <= e < Elems(f) ==> ElementIs(f, ks[i], y, i, e)
  }

  lemma {:induction false} RowExtends(f: Format, ks: seq<Block>, y: seq<Elem>, z: seq<Elem>, n: nat)
    requires GoodBlocks(f, ks) && n < |ks| && RowRead(f, ks, y, n)
    requires |z| == Elems(f) && forall e :: 0 <= e < |z| ==> z[e] == Meant(f, ks[n], e)
    ensures RowRead(f, ks, y + z, n + 1)
  {
    hide Meant, GoodBlock;
    NextSlotSize(n + 1, Elems(f));
    forall i, e | 0 <= i < n + 1 && 0 <= e < Elems(f) ensures ElementIs(f, ks[i], y + z, i, e) {
      if i < n {
        assert ElementIs(f, ks[i], y, i, e);
        SlotsInOrder(i, n, Elems(f));
      }
    }
  }

  /** Decoding a row of encoded blocks gives every element its own code, scale and minimum. */
  method UnpackRow(f: Format, src: seq<bv8>, ghost ks: seq<Block>) returns (y: seq<Elem>)
    requires GoodBlocks(f, ks) && |src| == |ks| * BlockBytes(f)
    requires forall i :: 0 <= i < |ks| ==> SlotHolds(f, src, ks[i], i)
    ensures RowRead(f, ks, y, |ks|)
  {
    y := [];
    assert RowRead(f, ks, y, 0);
    hide RowRead, SlotHolds, GoodBlocks, BlockBytes;
    var at := 0;
    ghost var i := 0;
    while at < |src|
      invariant 0 <= i <= |ks| && at == i * BlockBytes(f) && RowRead(f, ks, y, i)
      decreases |ks| - i
    {
      RowGoesOn(f, i, |ks|);
      y := UnpackNext(f, src, ks, y, at, i);
      at := at + BlockBytes(f);
      i := i + 1;
      NextSlotSize(i, BlockBytes(f));
    }
    RowEnds(f, i, |ks|);
  }

  /** The block at `at` behind the elements read so far. */
  method UnpackNext(f: Format, src: seq<bv8>, ghost ks: seq<Block>, y: seq<Elem>, at: nat, ghost i: nat) returns (z: seq<Elem>)
    requires GoodBlocks(f, ks) && i < |ks| && at == i * BlockBytes(f)
    requires SlotHolds(f, src, ks[i], i) && RowRead(f, ks, y, i)
    ensures RowRead(f, ks, z, i + 1)
  {
    hide Read, Meant, GoodBlock, BlockBytes, Elems, RowRead;
    var block := UnpackBlock(f, src[at..at + BlockBytes(f)]);
    RowExtends(f, ks, y, block, i);
    z := y + block;
  }

  lemma {:induction false} RowGoesOn(f: Format, i: nat, n: nat)
    requires i <= n && i * BlockBytes(f) < n * BlockBytes(f)
    ensures i < n
  {
  }

  lemma {:induction false} RowEnds(f: Format, i: nat, n: nat)
    requires i <= n && i * BlockBytes(f) >= n * BlockBytes(f)
    ensures i == n
  {
    if i < n {
      SlotsInOrder(i, n, BlockBytes(f));
    }
  }

  lemma {:induction false} NextSlotSize(i: nat, size: nat)
    requires i > 0
    ensures i * size == (i - 1) * size + size
  {
  }

  /** Element e of block i of a decoded row: its code, and the scale and minimum of its group of 32 (Q4_K) or 16 (Q6_K). */
  lemma {:induction false} RowReadIs(f: Format, ks: seq<Block>, y: seq<Elem>, i: nat, e: nat)
    requires GoodBlocks(f, ks) && RowRead(f, ks, y, |ks|) && i < |ks| && e < (if f.Q4_0? || f.Q5_0? then 32 else 256)
    ensures var size := if f.Q4_0? || f.Q5_0? then 32 else 256;
            && |y| == |ks| * size && i * size + e < |y| && |ks[i].codes| == size
            && var x := y[i * size + e];
            && x.code == ks[i].codes[e]
            && (f.Q4_K? ==> |ks[i].scales| == |ks[i].mins| == 8 && x.scale == ks[i].scales[e / 32] && x.min == ks[i].mins[e / 32])
            && (f.Q6_K? ==> |ks[i].scales| == 16 && x.scale == ks[i].scales[e / 16])
  {
    assert GoodBlock(f, ks[i]);
    assert ElementIs(f, ks[i], y, i, e);
  }
}
