/**
 The packed right-hand side as a flat buffer of 16-bit words. Group g of nr rows owns `lines` lines of
 nr words: bl4 = bl / 4 lines per block, then one line of scales per block. Cell (g, x, i) is
 word (g * lines + x) * nr + i. Blocks hold bl codes, a multiple of 32. The two paths walk the
 buffer with pointers and strides of their own; both leave every cell as CellIs says.
 */
module KleidiBuffer {
  import opened Common
  import opened KleidiPack

  /** A 16-bit word, low byte first. */
  datatype Word = Word(lo: bv8, hi: bv8)

  /** One block of a source row: its half-precision scale and bl / 2 bytes of codes in split order. */
  datatype SourceBlock = SourceBlock(scale: Word, bytes: seq<bv8>)

  predicate Rows(rows: seq<seq<SourceBlock>>, nb: nat, bl4: nat) {
    bl4 > 0 && bl4 % 8 == 0 && forall r :: 0 <= r < |rows| ==> RowOk(rows[r], nb, bl4)
  }

  predicate RowOk(row: seq<SourceBlock>, nb: nat, bl4: nat) {
    |row| == nb && forall b :: 0 <= b < nb ==> |row[b].bytes| == 2 * bl4
  }

  function Lines(nb: nat, bl4: nat): nat {
    nb * bl4 + nb
  }

  /** The block a line belongs to. */
  function BlockOf(x: nat, nb: nat, bl4: nat): nat
    requires bl4 > 0
  {
    if x < nb * bl4 then x / bl4 else x - nb * bl4
  }

  lemma {:induction false} BlockInside(x: nat, nb: nat, bl4: nat)
    requires bl4 > 0 && x < Lines(nb, bl4)
    ensures BlockOf(x, nb, bl4) < nb
  {
    var q := x / bl4;
    assert q * bl4 <= x;
    assert q >= nb ==> q * bl4 >= nb * bl4;
  }

  /** Word w of a block in sequential order. */
  function WordOf(k: SourceBlock, w: nat): Word
    requires |k.bytes| % 2 == 0 && 2 * w + 1 < |k.bytes|
  {
    Word(Sequential(k.bytes)[2 * w], Sequential(k.bytes)[2 * w + 1])
  }

  /** What line x of a row's column holds. */
  function Content(row: seq<SourceBlock>, nb: nat, bl4: nat, x: nat): Word
    requires bl4 > 0 && bl4 % 8 == 0 && RowOk(row, nb, bl4) && x < Lines(nb, bl4)
  {
    BlockInside(x, nb, bl4);
    if x < nb * bl4 then WordOf(row[x / bl4], x % bl4) else row[x - nb * bl4].scale
  }

  /** Line q of block b among the values. */
  function ValueLine(b: nat, q: nat, bl4: nat): nat {
    b * bl4 + q
  }

  lemma {:induction false} ValueLineAt(b: nat, q: nat, nb: nat, bl4: nat)
    requires b < nb && q < bl4
    ensures ValueLine(b, q, bl4) < nb * bl4
    ensures ValueLine(b, q, bl4) / bl4 == b && ValueLine(b, q, bl4) % bl4 == q
    ensures BlockOf(ValueLine(b, q, bl4), nb, bl4) == b
  {
    LinesBelow(b, nb, bl4);
    DivMod(b * bl4 + q, bl4, b, q);
  }

  lemma {:induction false} LinesBelow(b: nat, nb: nat, bl4: nat)
    requires b < nb
    ensures b * bl4 + bl4 <= nb * bl4
  {
    assert (b + 1) * bl4 <= nb * bl4;
  }

  /** The lines of block b are its value lines and its scale line. */
  lemma {:induction false} LineOfBlock(x: nat, b: nat, nb: nat, bl4: nat)
    requires bl4 > 0 && x < Lines(nb, bl4) && BlockOf(x, nb, bl4) == b
    ensures x == nb * bl4 + b || (x % bl4 < bl4 && x == ValueLine(b, x % bl4, bl4))
  {
  }

  // ---- the flat buffer ----

  datatype Shape = Shape(groups: nat, lines: nat, nr: nat)

  /** Words per group. */
  function Stride(s: Shape): nat {
    s.lines * s.nr
  }

  function Address(s: Shape, g: nat, x: nat, i: nat): nat {
    g * Stride(s) + x * s.nr + i
  }

  predicate InShape(s: Shape, g: nat, x: nat, i: nat) {
    g < s.groups && x < s.lines && i < s.nr
  }

  predicate Full(w: seq<Word>, s: Shape) {
    |w| == s.groups * Stride(s)
  }

  lemma {:induction false} AddressInside(s: Shape, g: nat, x: nat, i: nat)
    requires InShape(s, g, x, i)
    ensures x * s.nr + i < Stride(s) && Address(s, g, x, i) < s.groups * Stride(s)
  {
    assert (x + 1) * s.nr <= s.lines * s.nr;
    GroupsBelow(g, s.groups, Stride(s));
  }

  lemma {:induction false} GroupsBelow(g: nat, groups: nat, stride: nat)
    requires g < groups
    ensures g * stride + stride <= groups * stride
  {
    assert (g + 1) * stride <= groups * stride;
  }

  /** Different cells stand at different addresses. */
  lemma {:induction false} AddressInjective(s: Shape, g: nat, x: nat, i: nat, g': nat, x': nat, i': nat)
    requires InShape(s, g, x, i) && InShape(s, g', x', i') && Address(s, g, x, i) == Address(s, g', x', i')
    ensures g == g' && x == x' && i == i'
  {
    AddressInside(s, g, x, i);
    AddressInside(s, g', x', i');
    OneQuotient(Stride(s), g, x * s.nr + i, g', x' * s.nr + i');
    OneQuotient(s.nr, x, i, x', i');
  }

  lemma {:induction false} OneQuotient(m: nat, q: nat, r: nat, q': nat, r': nat)
    requires r < m && r' < m && q * m + r == q' * m + r'
    ensures q == q' && r == r'
  {
    DivMod(q * m + r, m, q, r);
    DivMod(q' * m + r', m, q', r');
  }

  function At(w: seq<Word>, s: Shape, g: nat, x: nat, i: nat): Word
    requires Full(w, s) && InShape(s, g, x, i)
  {
    AddressInside(s, g, x, i);
    w[Address(s, g, x, i)]
  }

  /** A region of group g: the lines of blocks bLo to bHi in columns lo to hi, with or without their scale lines. */
  datatype Patch = Patch(nb: nat, bl4: nat, g: nat, bLo: nat, bHi: nat, lo: nat, hi: nat, scales: bool)

  function BlockPatch(nb: nat, bl4: nat, g: nat, b: nat, lo: nat, hi: nat, scales: bool): Patch {
    Patch(nb, bl4, g, b, b + 1, lo, hi, scales)
  }

  predicate In(p: Patch, g: nat, x: nat, i: nat) {
    && p.bl4 > 0 && g == p.g && p.lo <= i < p.hi && p.bLo <= BlockOf(x, p.nb, p.bl4) < p.bHi
    && (p.scales || x < p.nb * p.bl4)
  }

  predicate Covers(p: Patch, q: Patch) {
    && p.nb == q.nb && p.bl4 == q.bl4 && p.g == q.g && (q.scales ==> p.scales)
    && p.bLo <= q.bLo && q.bHi <= p.bHi && p.lo <= q.lo && q.hi <= p.hi
  }

  ghost predicate OnlyIn(p: Patch, now: seq<Word>, before: seq<Word>, s: Shape) {
    && Full(now, s) && Full(before, s)
    && forall g: nat, x: nat, i: nat :: InShape(s, g, x, i) && !In(p, g, x, i) ==> At(now, s, g, x, i) == At(before, s, g, x, i)
  }

  lemma {:induction false} OnlyInJoin(p: Patch, q: Patch, r: Patch, now: seq<Word>, mid: seq<Word>, before: seq<Word>, s: Shape)
    requires OnlyIn(q, mid, before, s) && OnlyIn(r, now, mid, s) && Covers(p, q) && Covers(p, r)
    ensures OnlyIn(p, now, before, s)
  {
    hide At, BlockOf, Full, InShape;
    forall g: nat, x: nat, i: nat | InShape(s, g, x, i) && !In(p, g, x, i) ensures At(now, s, g, x, i) == At(before, s, g, x, i) {
      assert !In(q, g, x, i) && !In(r, g, x, i);
    }
  }

  lemma {:induction false} NothingYet(p: Patch, w: seq<Word>, s: Shape)
    requires Full(w, s)
    ensures OnlyIn(p, w, w, s)
  {
  }

  /** What a store changes. */
  ghost predicate OneCell(now: seq<Word>, before: seq<Word>, s: Shape, g: nat, x: nat, i: nat, v: Word) {
    && Full(now, s) && Full(before, s) && InShape(s, g, x, i) && At(now, s, g, x, i) == v
    && forall g': nat, x': nat, i': nat :: InShape(s, g', x', i') && (g', x', i') != (g, x, i) ==> At(now, s, g', x', i') == At(before, s, g', x', i')
  }

  lemma {:induction false} StoreIsOneCell(w: seq<Word>, s: Shape, at: nat, v: Word, g: nat, x: nat, i: nat)
    requires Full(w, s) && InShape(s, g, x, i) && at == Address(s, g, x, i)
    ensures at < |w| && OneCell(w[at := v], w, s, g, x, i, v)
  {
    hide Address;
    AddressInside(s, g, x, i);
    forall g': nat, x': nat, i': nat | InShape(s, g', x', i') && (g', x', i') != (g, x, i)
      ensures At(w[at := v], s, g', x', i') == At(w, s, g', x', i')
    {
      if Address(s, g', x', i') == at {
        AddressInjective(s, g, x, i, g', x', i');
      }
      AddressInside(s, g', x', i');
    }
  }

  /** The one place where either path writes: word `at`, which is cell (g, x, i). */
  method Store(buf: array<Word>, s: Shape, at: nat, v: Word, ghost g: nat, ghost x: nat, ghost i: nat)
    requires Full(buf[..], s) && InShape(s, g, x, i) && at == Address(s, g, x, i)
    modifies buf
    ensures OneCell(buf[..], old(buf[..]), s, g, x, i, v)
  {
    hide Address, OneCell, Full, InShape;
    StoreIsOneCell(buf[..], s, at, v, g, x, i);
    ghost var before := buf[..];
    buf[at] := v;
    assert buf[..] == before[at := v];
  }

  /** Where the value lines of block b start. */
  function ValueBase(s: Shape, g: nat, b: nat, bl4: nat): nat {
    g * Stride(s) + b * (bl4 * s.nr)
  }

  /** Its line of scales. */
  function ScaleBase(s: Shape, g: nat, nb: nat, b: nat, bl4: nat): nat {
    g * Stride(s) + nb * bl4 * s.nr + b * s.nr
  }

  lemma {:induction false} BasesStart(s: Shape, g: nat, nb: nat, bl4: nat)
    ensures ValueBase(s, g, 0, bl4) == g * Stride(s) && ScaleBase(s, g, nb, 0, bl4) == g * Stride(s) + nb * bl4 * s.nr
  {
  }

  lemma {:induction false} BasesNext(s: Shape, g: nat, nb: nat, b: nat, bl4: nat)
    ensures ValueBase(s, g, b + 1, bl4) == ValueBase(s, g, b, bl4) + bl4 * s.nr
    ensures ScaleBase(s, g, nb, b + 1, bl4) == ScaleBase(s, g, nb, b, bl4) + s.nr
  {
    NextLine(bl4 * s.nr, b);
    NextLine(s.nr, b);
  }

  /** Where the lines of a block stand, as the pointers reach them. */
  lemma {:induction false} ValueAddress(s: Shape, g: nat, b: nat, q: nat, bl4: nat, i: nat)
    ensures Address(s, g, ValueLine(b, q, bl4), i) == ValueBase(s, g, b, bl4) + q * s.nr + i
    ensures Address(s, g, ValueLine(b, q, bl4), i) == g * Stride(s) + (b * bl4 + q) * s.nr + i
  {
    assert (b * bl4 + q) * s.nr == b * (bl4 * s.nr) + q * s.nr;
  }

  lemma {:induction false} ScaleAddress(s: Shape, g: nat, nb: nat, b: nat, bl4: nat, i: nat)
    ensures Address(s, g, nb * bl4 + b, i) == ScaleBase(s, g, nb, b, bl4) + i
  {
    assert (nb * bl4 + b) * s.nr == nb * bl4 * s.nr + b * s.nr;
  }

  // ---- one row of one block ----

  function WordAt(bytes: seq<bv8>, w: nat): Word
    requires 2 * w + 1 < |bytes|
  {
    Word(bytes[2 * w], bytes[2 * w + 1])
  }

  lemma {:induction false} ScaleLineAt(b: nat, nb: nat, bl4: nat)
    requires bl4 > 0 && b < nb
    ensures 0 <= nb * bl4 + b < Lines(nb, bl4) && BlockOf(nb * bl4 + b, nb, bl4) == b
  {
  }

  /** What a line of block b holds, in terms of the block. */
  lemma {:induction false} ContentAt(row: seq<SourceBlock>, nb: nat, bl4: nat, b: nat, x: nat)
    requires bl4 > 0 && bl4 % 8 == 0 && RowOk(row, nb, bl4) && b < nb && x < Lines(nb, bl4) && BlockOf(x, nb, bl4) == b
    ensures x == nb * bl4 + b ==> Content(row, nb, bl4, x) == row[b].scale
    ensures x != nb * bl4 + b ==>
              var q := x % bl4;
              q < bl4 && x == ValueLine(b, q, bl4) && 2 * q + 1 < |row[b].bytes|
              && Content(row, nb, bl4, x) == WordAt(Sequential(row[b].bytes), q)
  {
    hide Sequential;
    LineOfBlock(x, b, nb, bl4);
    if x != nb * bl4 + b {
      ValueLineAt(b, x % bl4, nb, bl4);
    }
  }

  predicate Sized(s: Shape, nb: nat, bl4: nat, g: nat, b: nat) {
    bl4 > 0 && s.lines == Lines(nb, bl4) && g < s.groups && b < nb
  }

  /** The first q value lines of block b hold the words of a converted block, in column i. */
  predicate WordsIn(w: seq<Word>, s: Shape, bytes: seq<bv8>, nb: nat, bl4: nat, g: nat, b: nat, i: nat, q: nat)
    requires |bytes| == 2 * bl4 && q <= bl4
  {
    Full(w, s) && forall k :: 0 <= k < q ==> WordIn(w, s, bytes, nb, bl4, g, b, i, k)
  }

  predicate WordIn(w: seq<Word>, s: Shape, bytes: seq<bv8>, nb: nat, bl4: nat, g: nat, b: nat, i: nat, k: nat)
    requires |bytes| == 2 * bl4 && k < bl4 && Full(w, s)
  {
    InShape(s, g, ValueLine(b, k, bl4), i) && At(w, s, g, ValueLine(b, k, bl4), i) == WordAt(bytes, k)
  }

  /** Storing the next word keeps the ones before it and touches value lines only. */
  lemma {:induction false} NextWord(now: seq<Word>, before: seq<Word>, first: seq<Word>, s: Shape, bytes: seq<bv8>, nb: nat, bl4: nat,
                                    g: nat, b: nat, i: nat, q: nat, p: Patch)
    requires |bytes| == 2 * bl4 && q < bl4 && Sized(s, nb, bl4, g, b) && i < s.nr && p == BlockPatch(nb, bl4, g, b, p.lo, p.hi, false) && p.lo <= i < p.hi
    requires WordsIn(before, s, bytes, nb, bl4, g, b, i, q) && OnlyIn(p, before, first, s)
    requires OneCell(now, before, s, g, ValueLine(b, q, bl4), i, WordAt(bytes, q))
    ensures WordsIn(now, s, bytes, nb, bl4, g, b, i, q + 1) && OnlyIn(p, now, first, s)
  {
    hide At, WordAt, Full;
    ValueLineAt(b, q, nb, bl4);
    forall k | 0 <= k < q + 1 ensures WordIn(now, s, bytes, nb, bl4, g, b, i, k) {
      if k < q {
        assert WordIn(before, s, bytes, nb, bl4, g, b, i, k);
      }
    }
    forall g': nat, x: nat, i': nat | InShape(s, g', x, i') && !In(p, g', x, i')
      ensures At(now, s, g', x, i') == At(first, s, g', x, i')
    {
      assert In(p, g, ValueLine(b, q, bl4), i);
    }
  }

  method StoreWord(buf: array<Word>, s: Shape, at: nat, bytes: seq<bv8>, q: nat, nb: nat, bl4: nat,
                   ghost g: nat, ghost b: nat, ghost i: nat, ghost p: Patch, ghost first: seq<Word>)
    requires |bytes| == 2 * bl4 && q < bl4 && Sized(s, nb, bl4, g, b) && i < s.nr && p == BlockPatch(nb, bl4, g, b, p.lo, p.hi, false) && p.lo <= i < p.hi
    requires WordsIn(buf[..], s, bytes, nb, bl4, g, b, i, q) && OnlyIn(p, buf[..], first, s)
    requires at == Address(s, g, ValueLine(b, q, bl4), i)
    modifies buf
    ensures WordsIn(buf[..], s, bytes, nb, bl4, g, b, i, q + 1) && OnlyIn(p, buf[..], first, s)
  {
    hide Address, OneCell, OnlyIn, WordIn, Full;
    ValueLineAt(b, q, nb, bl4);
    ghost var before := buf[..];
    assert Full(before, s);
    Store(buf, s, at, WordAt(bytes, q), g, ValueLine(b, q, bl4), i);
    NextWord(buf[..], before, first, s, bytes, nb, bl4, g, b, i, q, p);
  }

  /** The scalar path's inner loop: line q of block b at index (b * bl4 + q) * nr + i. */
  method StoreIndexed(buf: array<Word>, s: Shape, base: nat, bytes: seq<bv8>, nb: nat, bl4: nat, b: nat, i: nat, ghost g: nat)
    requires |bytes| == 2 * bl4 && Sized(s, nb, bl4, g, b) && i < s.nr && Full(buf[..], s) && base == g * Stride(s)
    modifies buf
    ensures WordsIn(buf[..], s, bytes, nb, bl4, g, b, i, bl4) && OnlyIn(BlockPatch(nb, bl4, g, b, i, i + 1, false), buf[..], old(buf[..]), s)
  {
    hide Address, WordIn, Full, In, Stride;
    ghost var p := BlockPatch(nb, bl4, g, b, i, i + 1, false);
    for q := 0 to bl4
      invariant WordsIn(buf[..], s, bytes, nb, bl4, g, b, i, q) && OnlyIn(p, buf[..], old(buf[..]), s)
    {
      ValueAddress(s, g, b, q, bl4, i);
      StoreWord(buf, s, base + (b * bl4 + q) * s.nr + i, bytes, q, nb, bl4, g, b, i, p, old(buf[..]));
    }
  }

  /** store_row_strided_u16: four lines per turn at strides nr, 2 nr and 3 nr, then line by line. */
  method StoreStrided(buf: array<Word>, s: Shape, dst: nat, bytes: seq<bv8>, nb: nat, bl4: nat, i: nat, ghost g: nat, ghost b: nat)
    requires |bytes| == 2 * bl4 && Sized(s, nb, bl4, g, b) && i < s.nr && Full(buf[..], s)
    requires dst == ValueBase(s, g, b, bl4)
    modifies buf
    ensures WordsIn(buf[..], s, bytes, nb, bl4, g, b, i, bl4) && OnlyIn(BlockPatch(nb, bl4, g, b, i, i + 1, false), buf[..], old(buf[..]), s)
  {
    hide Address, WordIn, Full, In, Stride;
    ghost var p := BlockPatch(nb, bl4, g, b, i, i + 1, false);
    var nr1 := s.nr;
    var nr2 := nr1 + s.nr;
    var nr3 := nr2 + s.nr;
    var step := nr3 + s.nr;
    var ptr, remaining: nat, src: nat := dst + i, bl4, 0;
    while remaining >= 4
      invariant remaining + src == bl4 && ptr == dst + src * s.nr + i
      invariant WordsIn(buf[..], s, bytes, nb, bl4, g, b, i, src) && OnlyIn(p, buf[..], old(buf[..]), s)
    {
      FourAddresses(s, g, b, src, bl4, i);
      StoreWord(buf, s, ptr, bytes, src, nb, bl4, g, b, i, p, old(buf[..]));
      StoreWord(buf, s, ptr + nr1, bytes, src + 1, nb, bl4, g, b, i, p, old(buf[..]));
      StoreWord(buf, s, ptr + nr2, bytes, src + 2, nb, bl4, g, b, i, p, old(buf[..]));
      StoreWord(buf, s, ptr + nr3, bytes, src + 3, nb, bl4, g, b, i, p, old(buf[..]));
      ptr, src, remaining := ptr + step, src + 4, remaining - 4;
    }
    while remaining != 0
      invariant remaining + src == bl4 && ptr == dst + src * s.nr + i
      invariant WordsIn(buf[..], s, bytes, nb, bl4, g, b, i, src) && OnlyIn(p, buf[..], old(buf[..]), s)
    {
      ValueAddress(s, g, b, src, bl4, i);
      StoreWord(buf, s, ptr, bytes, src, nb, bl4, g, b, i, p, old(buf[..]));
      assert (src + 1) * s.nr == src * s.nr + s.nr;
      ptr, src, remaining := ptr + s.nr, src + 1, remaining - 1;
    }
  }

  lemma {:induction false} FourAddresses(s: Shape, g: nat, b: nat, q: nat, bl4: nat, i: nat)
    ensures var at := ValueBase(s, g, b, bl4) + q * s.nr + i;
            && Address(s, g, ValueLine(b, q, bl4), i) == at && Address(s, g, ValueLine(b, q + 1, bl4), i) == at + s.nr
            && Address(s, g, ValueLine(b, q + 2, bl4), i) == at + (s.nr + s.nr)
            && Address(s, g, ValueLine(b, q + 3, bl4), i) == at + (s.nr + s.nr + s.nr)
    ensures (q + 4) * s.nr == q * s.nr + (s.nr + s.nr + s.nr + s.nr)
  {
    hide Address, Stride, ValueLine;
    ValueAddress(s, g, b, q, bl4, i);
    ValueAddress(s, g, b, q + 1, bl4, i);
    ValueAddress(s, g, b, q + 2, bl4, i);
    ValueAddress(s, g, b, q + 3, bl4, i);
    assert (q + 1) * s.nr == q * s.nr + s.nr;
    assert (q + 2) * s.nr == (q + 1) * s.nr + s.nr;
    assert (q + 3) * s.nr == (q + 2) * s.nr + s.nr;
    assert (q + 4) * s.nr == (q + 3) * s.nr + s.nr;
  }

  /** Column i of block b holds what the row's block asks for: its words and its scale. */
  ghost predicate ColumnHolds(w: seq<Word>, s: Shape, row: seq<SourceBlock>, nb: nat, bl4: nat, g: nat, b: nat, i: nat)
    requires bl4 > 0 && bl4 % 8 == 0 && RowOk(row, nb, bl4) && s.lines == Lines(nb, bl4)
  {
    && Full(w, s)
    && forall x: nat :: InShape(s, g, x, i) && BlockOf(x, nb, bl4) == b ==> At(w, s, g, x, i) == Content(row, nb, bl4, x)
  }

  lemma {:induction false} ColumnDone(w: seq<Word>, s: Shape, row: seq<SourceBlock>, nb: nat, bl4: nat, g: nat, b: nat, i: nat)
    requires bl4 % 8 == 0 && RowOk(row, nb, bl4) && Sized(s, nb, bl4, g, b) && i < s.nr
    requires WordsIn(w, s, Sequential(row[b].bytes), nb, bl4, g, b, i, bl4)
    requires InShape(s, g, nb * bl4 + b, i) && At(w, s, g, nb * bl4 + b, i) == row[b].scale
    ensures ColumnHolds(w, s, row, nb, bl4, g, b, i)
  {
    hide Sequential, ValueLine, Content, At, WordAt, Full;
    forall x: nat | InShape(s, g, x, i) && BlockOf(x, nb, bl4) == b ensures At(w, s, g, x, i) == Content(row, nb, bl4, x) {
      ContentAt(row, nb, bl4, b, x);
      if x != nb * bl4 + b {
        assert WordIn(w, s, Sequential(row[b].bytes), nb, bl4, g, b, i, x % bl4);
      }
    }
  }

  /** Storing a scale completes a column whose words are there, or leaves words alone that come after it. */
  lemma {:induction false} ScaleStored(now: seq<Word>, before: seq<Word>, first: seq<Word>, s: Shape, bytes: seq<bv8>, nb: nat, bl4: nat,
                                       g: nat, b: nat, i: nat, v: Word)
    requires |bytes| == 2 * bl4 && Sized(s, nb, bl4, g, b) && i < s.nr
    requires WordsIn(before, s, bytes, nb, bl4, g, b, i, bl4) && OnlyIn(BlockPatch(nb, bl4, g, b, i, i + 1, false), before, first, s)
    requires OneCell(now, before, s, g, nb * bl4 + b, i, v)
    ensures WordsIn(now, s, bytes, nb, bl4, g, b, i, bl4) && OnlyIn(BlockPatch(nb, bl4, g, b, i, i + 1, true), now, first, s)
  {
    hide At, WordAt, Full;
    ScaleLineAt(b, nb, bl4);
    forall k | 0 <= k < bl4 ensures WordIn(now, s, bytes, nb, bl4, g, b, i, k) {
      assert WordIn(before, s, bytes, nb, bl4, g, b, i, k);
      ValueLineAt(b, k, nb, bl4);
    }
    var small, p := BlockPatch(nb, bl4, g, b, i, i + 1, false), BlockPatch(nb, bl4, g, b, i, i + 1, true);
    forall g': nat, x: nat, i': nat | InShape(s, g', x, i') && !In(p, g', x, i')
      ensures At(now, s, g', x, i') == At(first, s, g', x, i')
    {
      assert In(p, g, nb * bl4 + b, i) && !In(small, g', x, i');
    }
  }

  lemma {:induction false} WordsAfterScale(now: seq<Word>, before: seq<Word>, first: seq<Word>, s: Shape, nb: nat, bl4: nat,
                                           g: nat, b: nat, i: nat, v: Word)
    requires Sized(s, nb, bl4, g, b) && i < s.nr
    requires OneCell(before, first, s, g, nb * bl4 + b, i, v) && OnlyIn(BlockPatch(nb, bl4, g, b, i, i + 1, false), now, before, s)
    ensures InShape(s, g, nb * bl4 + b, i) && Full(now, s) && At(now, s, g, nb * bl4 + b, i) == v
    ensures OnlyIn(BlockPatch(nb, bl4, g, b, i, i + 1, true), now, first, s)
  {
    hide At, Full;
    ScaleLineAt(b, nb, bl4);
    var small, p := BlockPatch(nb, bl4, g, b, i, i + 1, false), BlockPatch(nb, bl4, g, b, i, i + 1, true);
    assert !In(small, g, nb * bl4 + b, i) && In(p, g, nb * bl4 + b, i);
    forall g': nat, x: nat, i': nat | InShape(s, g', x, i') && !In(p, g', x, i')
      ensures At(now, s, g', x, i') == At(first, s, g', x, i')
    {
      assert !In(small, g', x, i');
    }
  }

  /** The scalar path's body for one row and block: words by index, then the scale. */
  method PackRowScalar(row: seq<SourceBlock>, nb: nat, bl4: nat, base: nat, b: nat, i: nat, buf: array<Word>, s: Shape, ghost g: nat)
    requires bl4 % 8 == 0 && RowOk(row, nb, bl4) && Sized(s, nb, bl4, g, b) && i < s.nr && Full(buf[..], s) && base == g * Stride(s)
    modifies buf
    ensures ColumnHolds(buf[..], s, row, nb, bl4, g, b, i)
    ensures OnlyIn(BlockPatch(nb, bl4, g, b, i, i + 1, true), buf[..], old(buf[..]), s)
  {
    assert |row[b].bytes| == 2 * bl4;
    hide Sequential, WordsIn, OnlyIn, OneCell, ColumnHolds, Full, Stride, Address, At, RowOk, BlockOf;
    var bytes := ConvertScalar(row[b].bytes, 4 * bl4);
    StoreIndexed(buf, s, base, bytes, nb, bl4, b, i, g);
    ghost var before := buf[..];
    var scales := base + nb * bl4 * s.nr;
    ScaleAddress(s, g, nb, b, bl4, i);
    ScaleLineAt(b, nb, bl4);
    FullIsKept(buf[..], old(buf[..]), s, BlockPatch(nb, bl4, g, b, i, i + 1, false));
    Store(buf, s, scales + (i + b * s.nr), row[b].scale, g, nb * bl4 + b, i);
    ScaleStored(buf[..], before, old(buf[..]), s, bytes, nb, bl4, g, b, i, row[b].scale);
    ScaleIs(buf[..], before, s, g, nb * bl4 + b, i, row[b].scale);
    ColumnDone(buf[..], s, row, nb, bl4, g, b, i);
  }

  lemma {:induction false} FullIsKept(now: seq<Word>, before: seq<Word>, s: Shape, p: Patch)
    requires OnlyIn(p, now, before, s)
    ensures Full(now, s) && Full(before, s)
  {
  }

  lemma {:induction false} ScaleIs(now: seq<Word>, before: seq<Word>, s: Shape, g: nat, x: nat, i: nat, v: Word)
    requires OneCell(now, before, s, g, x, i, v)
    ensures Full(now, s) && Full(before, s) && InShape(s, g, x, i) && At(now, s, g, x, i) == v
  {
  }

  /** The vector path's body for a row left over: the scale, then the words four lines at a time. */
  method PackRowVector(row: seq<SourceBlock>, nb: nat, bl4: nat, dst: nat, scales: nat, i: nat, buf: array<Word>, s: Shape, b: nat, ghost g: nat)
    requires bl4 % 8 == 0 && RowOk(row, nb, bl4) && Sized(s, nb, bl4, g, b) && i < s.nr && Full(buf[..], s)
    requires dst == ValueBase(s, g, b, bl4) && scales == ScaleBase(s, g, nb, b, bl4)
    modifies buf
    ensures ColumnHolds(buf[..], s, row, nb, bl4, g, b, i)
    ensures OnlyIn(BlockPatch(nb, bl4, g, b, i, i + 1, true), buf[..], old(buf[..]), s)
  {
    assert |row[b].bytes| == 2 * bl4;
    hide Sequential, WordsIn, OnlyIn, OneCell, ColumnHolds, Full, Stride, Address, At, RowOk, BlockOf;
    ScaleAddress(s, g, nb, b, bl4, i);
    ScaleLineAt(b, nb, bl4);
    Store(buf, s, scales + i, row[b].scale, g, nb * bl4 + b, i);
    ghost var before := buf[..];
    ScaleIs(before, old(buf[..]), s, g, nb * bl4 + b, i, row[b].scale);
    var converted := ConvertVector(row[b].bytes, 4 * bl4);
    StoreStrided(buf, s, dst, converted[..], nb, bl4, i, g, b);
    WordsAfterScale(buf[..], before, old(buf[..]), s, nb, bl4, g, b, i, row[b].scale);
    ColumnDone(buf[..], s, row, nb, bl4, g, b, i);
  }

  // ---- four rows of one block ----

  /** Four neighbouring columns of one line. */
  ghost predicate FourCells(now: seq<Word>, before: seq<Word>, s: Shape, g: nat, x: nat, i: nat, v: seq<Word>) {
    && |v| == 4 && i + 4 <= s.nr && Full(now, s) && Full(before, s) && InShape(s, g, x, i)
    && At(now, s, g, x, i) == v[0] && At(now, s, g, x, i + 1) == v[1] && At(now, s, g, x, i + 2) == v[2] && At(now, s, g, x, i + 3) == v[3]
    && forall g': nat, x': nat, i': nat :: InShape(s, g', x', i') && !(g' == g && x' == x && i <= i' < i + 4) ==>
         At(now, s, g', x', i') == At(before, s, g', x', i')
  }

  /** A 64-bit store: four words in a row. */
  method StoreFour(buf: array<Word>, s: Shape, at: nat, v: seq<Word>, ghost g: nat, ghost x: nat, ghost i: nat)
    requires Full(buf[..], s) && InShape(s, g, x, i) && i + 4 <= s.nr && at == Address(s, g, x, i) && |v| == 4
    modifies buf
    ensures FourCells(buf[..], old(buf[..]), s, g, x, i, v)
  {
    assert Address(s, g, x, i + 1) == at + 1 && Address(s, g, x, i + 2) == at + 2 && Address(s, g, x, i + 3) == at + 3;
    hide Address, At, Full;
    Store(buf, s, at, v[0], g, x, i);
    Store(buf, s, at + 1, v[1], g, x, i + 1);
    Store(buf, s, at + 2, v[2], g, x, i + 2);
    Store(buf, s, at + 3, v[3], g, x, i + 3);
  }

  function Four(c: seq<seq<bv8>>, q: nat): seq<Word>
    requires |c| == 4 && forall k :: 0 <= k < 4 ==> 2 * q + 1 < |c[k]|
  {
    [WordAt(c[0], q), WordAt(c[1], q), WordAt(c[2], q), WordAt(c[3], q)]
  }

  predicate FourBlocks(c: seq<seq<bv8>>, bl4: nat) {
    |c| == 4 && forall k :: 0 <= k < 4 ==> |c[k]| == 2 * bl4
  }

  /** The first q lines of block b hold the four rows' words in columns i to i + 4. */
  ghost predicate FourIn(w: seq<Word>, s: Shape, c: seq<seq<bv8>>, nb: nat, bl4: nat, g: nat, b: nat, i: nat, q: nat)
    requires FourBlocks(c, bl4) && q <= bl4
  {
    Full(w, s) && forall k :: 0 <= k < 4 ==> WordsIn(w, s, c[k], nb, bl4, g, b, i + k, q)
  }

  lemma {:induction false} FourNext(now: seq<Word>, before: seq<Word>, first: seq<Word>, s: Shape, c: seq<seq<bv8>>, nb: nat, bl4: nat,
                                    g: nat, b: nat, i: nat, q: nat)
    requires FourBlocks(c, bl4) && q < bl4 && Sized(s, nb, bl4, g, b)
    requires FourIn(before, s, c, nb, bl4, g, b, i, q) && OnlyIn(BlockPatch(nb, bl4, g, b, i, i + 4, false), before, first, s)
    requires FourCells(now, before, s, g, ValueLine(b, q, bl4), i, Four(c, q))
    ensures FourIn(now, s, c, nb, bl4, g, b, i, q + 1) && OnlyIn(BlockPatch(nb, bl4, g, b, i, i + 4, false), now, first, s)
  {
    hide At, WordAt, Full;
    ValueLineAt(b, q, nb, bl4);
    forall k | 0 <= k < 4 ensures WordsIn(now, s, c[k], nb, bl4, g, b, i + k, q + 1) {
      assert WordsIn(before, s, c[k], nb, bl4, g, b, i + k, q);
      assert Four(c, q)[k] == WordAt(c[k], q);
      NextInColumn(now, before, s, c[k], nb, bl4, g, b, i, i + k, q, Four(c, q));
    }
    FourInside(now, before, first, s, nb, bl4, g, b, i, ValueLine(b, q, bl4), Four(c, q), false);
  }

  lemma {:induction false} NextInColumn(now: seq<Word>, before: seq<Word>, s: Shape, bytes: seq<bv8>, nb: nat, bl4: nat,
                                        g: nat, b: nat, i: nat, col: nat, q: nat, v: seq<Word>)
    requires |bytes| == 2 * bl4 && q < bl4 && Sized(s, nb, bl4, g, b) && i <= col < i + 4
    requires WordsIn(before, s, bytes, nb, bl4, g, b, col, q)
    requires FourCells(now, before, s, g, ValueLine(b, q, bl4), i, v) && v[col - i] == WordAt(bytes, q)
    ensures WordsIn(now, s, bytes, nb, bl4, g, b, col, q + 1)
  {
    hide At, WordAt, Full;
    FourFull(now, before, s, g, ValueLine(b, q, bl4), i, v);
    forall j | 0 <= j < q + 1 ensures WordIn(now, s, bytes, nb, bl4, g, b, col, j) {
      if j < q {
        assert WordIn(before, s, bytes, nb, bl4, g, b, col, j);
      }
    }
  }

  /** Four cells of a line of block b lie in the block's patch. */
  lemma {:induction false} FourInside(now: seq<Word>, before: seq<Word>, first: seq<Word>, s: Shape, nb: nat, bl4: nat,
                                      g: nat, b: nat, i: nat, x: nat, v: seq<Word>, scales: bool)
    requires bl4 > 0 && FourCells(now, before, s, g, x, i, v) && OnlyIn(BlockPatch(nb, bl4, g, b, i, i + 4, scales), before, first, s)
    requires BlockOf(x, nb, bl4) == b && (scales || x < nb * bl4)
    ensures OnlyIn(BlockPatch(nb, bl4, g, b, i, i + 4, scales), now, first, s)
  {
    hide At, Full, BlockOf;
    var p := BlockPatch(nb, bl4, g, b, i, i + 4, scales);
    forall g': nat, x': nat, i': nat | InShape(s, g', x', i') && !In(p, g', x', i')
      ensures At(now, s, g', x', i') == At(first, s, g', x', i')
    {
    }
  }

  /** interleave_rows4_u16: two lines of four words per turn, then the one that may be left. */
  method InterleaveRows(buf: array<Word>, s: Shape, dst: nat, c: seq<seq<bv8>>, nb: nat, bl4: nat, i: nat, ghost g: nat, ghost b: nat)
    requires FourBlocks(c, bl4) && Sized(s, nb, bl4, g, b) && i + 4 <= s.nr && Full(buf[..], s)
    requires dst == ValueBase(s, g, b, bl4)
    modifies buf
    ensures FourIn(buf[..], s, c, nb, bl4, g, b, i, bl4)
    ensures OnlyIn(BlockPatch(nb, bl4, g, b, i, i + 4, false), buf[..], old(buf[..]), s)
  {
    NothingYet(BlockPatch(nb, bl4, g, b, i, i + 4, false), buf[..], s);
    hide Address, Stride, Full, OnlyIn, WordIn, FourCells, FourBlocks, Sized, ValueBase, FourIn, LineOffset;
    var ptr, remaining: nat, q: nat := dst + i, bl4, 0;
    FirstOffset(s.nr);
    while remaining >= 2
      invariant remaining + q == bl4 && ptr == dst + LineOffset(s.nr, q) + i
      invariant FourIn(buf[..], s, c, nb, bl4, g, b, i, q)
      invariant OnlyIn(BlockPatch(nb, bl4, g, b, i, i + 4, false), buf[..], old(buf[..]), s)
    {
      NextOffset(s.nr, q);
      NextOffset(s.nr, q + 1);
      StoreLine(buf, s, ptr, c, nb, bl4, i, q, g, b, old(buf[..]));
      StoreLine(buf, s, ptr + s.nr, c, nb, bl4, i, q + 1, g, b, old(buf[..]));
      ptr, q, remaining := ptr + 2 * s.nr, q + 2, remaining - 2;
    }
    if remaining != 0 {
      StoreLine(buf, s, ptr, c, nb, bl4, i, q, g, b, old(buf[..]));
    }
  }

  /** How far line q lies behind line 0. */
  function LineOffset(nr: nat, q: nat): nat {
    q * nr
  }

  lemma {:induction false} FirstOffset(nr: nat)
    ensures LineOffset(nr, 0) == 0
  {
  }

  lemma {:induction false} NextOffset(nr: nat, q: nat)
    ensures LineOffset(nr, q + 1) == LineOffset(nr, q) + nr
  {
  }

  lemma {:induction false} NextLine(nr: nat, q: nat)
    ensures (q + 1) * nr == q * nr + nr
  {
  }

  method StoreLine(buf: array<Word>, s: Shape, at: nat, c: seq<seq<bv8>>, nb: nat, bl4: nat, i: nat, q: nat,
                   ghost g: nat, ghost b: nat, ghost first: seq<Word>)
    requires FourBlocks(c, bl4) && Sized(s, nb, bl4, g, b) && i + 4 <= s.nr && q < bl4
    requires at == ValueBase(s, g, b, bl4) + LineOffset(s.nr, q) + i
    requires FourIn(buf[..], s, c, nb, bl4, g, b, i, q) && OnlyIn(BlockPatch(nb, bl4, g, b, i, i + 4, false), buf[..], first, s)
    modifies buf
    ensures FourIn(buf[..], s, c, nb, bl4, g, b, i, q + 1) && OnlyIn(BlockPatch(nb, bl4, g, b, i, i + 4, false), buf[..], first, s)
  {
    hide Address, Stride, Full, OnlyIn, WordsIn, FourCells;
    ValueAddress(s, g, b, q, bl4, i);
    ValueLineAt(b, q, nb, bl4);
    ghost var before := buf[..];
    StoreFour(buf, s, at, Four(c, q), g, ValueLine(b, q, bl4), i);
    FourNext(buf[..], before, first, s, c, nb, bl4, g, b, i, q);
  }

  /** A tile: four scales, four conversions, four interleaved rows. */
  method PackTile(rows: seq<seq<SourceBlock>>, nb: nat, bl4: nat, dst: nat, scales: nat, i: nat, buf: array<Word>, s: Shape, b: nat, ghost g: nat)
    requires |rows| == 4 && Rows(rows, nb, bl4) && Sized(s, nb, bl4, g, b) && i + 4 <= s.nr && Full(buf[..], s)
    requires dst == ValueBase(s, g, b, bl4) && scales == ScaleBase(s, g, nb, b, bl4)
    modifies buf
    ensures forall k :: 0 <= k < 4 ==> ColumnHolds(buf[..], s, rows[k], nb, bl4, g, b, i + k)
    ensures OnlyIn(BlockPatch(nb, bl4, g, b, i, i + 4, true), buf[..], old(buf[..]), s)
  {
    RowsAreOk(rows, nb, bl4, b);
    hide Sequential, OnlyIn, ColumnHolds, Full, Stride, Address, At, RowOk, BlockOf, FourCells, WordsIn, FourIn, ValueBase, ScaleBase, Lines;
    ScaleAddress(s, g, nb, b, bl4, i);
    ScaleLineAt(b, nb, bl4);
    var four := [rows[0][b].scale, rows[1][b].scale, rows[2][b].scale, rows[3][b].scale];
    StoreFour(buf, s, scales + i, four, g, nb * bl4 + b, i);
    ghost var before := buf[..];
    FourFull(before, old(buf[..]), s, g, nb * bl4 + b, i, four);
    var c := ConvertFour(rows, nb, bl4, b);
    InterleaveRows(buf, s, dst, c, nb, bl4, i, g, b);
    TileDone(buf[..], before, old(buf[..]), s, rows, c, four, nb, bl4, g, b, i);
  }

  /** convert_block_bl4x4: the block of each of four rows in sequential order. */
  method ConvertFour(rows: seq<seq<SourceBlock>>, nb: nat, bl4: nat, b: nat) returns (c: seq<seq<bv8>>)
    requires |rows| == 4 && Rows(rows, nb, bl4) && b < nb
    ensures forall k :: 0 <= k < 4 ==> RowOk(rows[k], nb, bl4)
    ensures FourBlocks(c, bl4) && forall k :: 0 <= k < 4 ==> c[k] == Sequential(rows[k][b].bytes)
  {
    RowsAreOk(rows, nb, bl4, b);
    hide Sequential;
    var c0 := ConvertVector(rows[0][b].bytes, 4 * bl4);
    var c1 := ConvertVector(rows[1][b].bytes, 4 * bl4);
    var c2 := ConvertVector(rows[2][b].bytes, 4 * bl4);
    var c3 := ConvertVector(rows[3][b].bytes, 4 * bl4);
    c := [c0[..], c1[..], c2[..], c3[..]];
  }

  lemma {:induction false} FourFull(now: seq<Word>, before: seq<Word>, s: Shape, g: nat, x: nat, i: nat, v: seq<Word>)
    requires FourCells(now, before, s, g, x, i, v)
    ensures Full(now, s) && Full(before, s)
  {
  }

  lemma {:induction false} RowsAreOk(rows: seq<seq<SourceBlock>>, nb: nat, bl4: nat, b: nat)
    requires Rows(rows, nb, bl4) && b < nb
    ensures forall r :: 0 <= r < |rows| ==> RowOk(rows[r], nb, bl4) && |rows[r]| == nb && |rows[r][b].bytes| == 2 * bl4
  {
  }

  /** Scales first, then words: together the four columns. */
  lemma {:induction false} TileDone(now: seq<Word>, before: seq<Word>, first: seq<Word>, s: Shape, rows: seq<seq<SourceBlock>>, c: seq<seq<bv8>>,
                                    four: seq<Word>, nb: nat, bl4: nat, g: nat, b: nat, i: nat)
    requires |rows| == 4 && Rows(rows, nb, bl4) && Sized(s, nb, bl4, g, b) && i + 4 <= s.nr
    requires FourBlocks(c, bl4) && |four| == 4
    requires forall k :: 0 <= k < 4 ==> RowOk(rows[k], nb, bl4) && four[k] == rows[k][b].scale && c[k] == Sequential(rows[k][b].bytes)
    requires FourCells(before, first, s, g, nb * bl4 + b, i, four)
    requires FourIn(now, s, c, nb, bl4, g, b, i, bl4) && OnlyIn(BlockPatch(nb, bl4, g, b, i, i + 4, false), now, before, s)
    ensures forall k :: 0 <= k < 4 ==> ColumnHolds(now, s, rows[k], nb, bl4, g, b, i + k)
    ensures OnlyIn(BlockPatch(nb, bl4, g, b, i, i + 4, true), now, first, s)
  {
    assert bl4 % 8 == 0;
    hide Sequential, ColumnHolds, Full, At, WordsIn, BlockOf, Rows, RowOk;
    ScaleLineAt(b, nb, bl4);
    FourFull(before, first, s, g, nb * bl4 + b, i, four);
    var small, p := BlockPatch(nb, bl4, g, b, i, i + 4, false), BlockPatch(nb, bl4, g, b, i, i + 4, true);
    forall k | 0 <= k < 4 ensures ColumnHolds(now, s, rows[k], nb, bl4, g, b, i + k) {
      assert InShape(s, g, nb * bl4 + b, i + k) && !In(small, g, nb * bl4 + b, i + k);
      assert At(before, s, g, nb * bl4 + b, i + k) == four[k];
      ColumnDone(now, s, rows[k], nb, bl4, g, b, i + k);
    }
    NothingYet(p, first, s);
    FourInside(before, first, first, s, nb, bl4, g, b, i, nb * bl4 + b, four, true);
    OnlyInJoin(p, p, small, now, before, first, s);
  }

  // ---- whole rows ----

  /** What a cell holds after the pack: its row's content, or what it held before where there is no row. */
  predicate CellIs(rows: seq<seq<SourceBlock>>, nb: nat, bl4: nat, nr: nat, g: nat, x: nat, i: nat, now: Word, before: Word)
    requires Rows(rows, nb, bl4) && x < Lines(nb, bl4)
  {
    var r := RowIndex(nr, g, i);
    if r < |rows| then RowIsOk(rows, nb, bl4, r); now == Content(rows[r], nb, bl4, x) else now == before
  }

  function RowIndex(nr: nat, g: nat, i: nat): nat {
    g * nr + i
  }

  lemma {:induction false} RowIsOk(rows: seq<seq<SourceBlock>>, nb: nat, bl4: nat, r: nat)
    requires Rows(rows, nb, bl4) && r < |rows|
    ensures RowOk(rows[r], nb, bl4)
  {
  }

  lemma {:induction false} RowIndexAt(nr: nat, g: nat, i: nat)
    requires i < nr
    ensures RowIndex(nr, g, i) / nr == g && RowIndex(nr, g, i) % nr == i
  {
    DivMod(g * nr + i, nr, g, i);
  }

  lemma {:induction false} GroupExists(n: nat, nr: nat, groups: nat, g: nat)
    requires g * nr < n <= groups * nr
    ensures g < groups
  {
    assert g >= groups ==> g * nr >= groups * nr;
  }

  lemma {:induction false} PastTheRows(nr: nat, g: nat, g': nat, i: nat, n: nat)
    requires g * nr >= n && g' >= g
    ensures RowIndex(nr, g', i) >= n
  {
    assert g' * nr >= g * nr;
  }

  /** Column k of block b in group g holds its row. */
  ghost predicate RowHolds(w: seq<Word>, s: Shape, rows: seq<seq<SourceBlock>>, nb: nat, bl4: nat, g: nat, b: nat, k: nat)
    requires Rows(rows, nb, bl4) && s.lines == Lines(nb, bl4)
  {
    var r := RowIndex(s.nr, g, k);
    r < |rows| && (RowIsOk(rows, nb, bl4, r); ColumnHolds(w, s, rows[r], nb, bl4, g, b, k))
  }

  /** A column outside the patch keeps what it holds. */
  lemma {:induction false} RowKept(now: seq<Word>, before: seq<Word>, s: Shape, rows: seq<seq<SourceBlock>>, nb: nat, bl4: nat,
                                   g: nat, b: nat, k: nat, p: Patch)
    requires Rows(rows, nb, bl4) && s.lines == Lines(nb, bl4) && RowHolds(before, s, rows, nb, bl4, g, b, k)
    requires OnlyIn(p, now, before, s) && p.nb == nb && p.bl4 == bl4
    requires !(p.g == g && p.bLo <= b < p.bHi && p.lo <= k < p.hi)
    ensures RowHolds(now, s, rows, nb, bl4, g, b, k)
  {
    hide ColumnHolds, OnlyIn, RowOk;
    var r := RowIndex(s.nr, g, k);
    RowIsOk(rows, nb, bl4, r);
    ColumnKept(now, before, s, rows[r], nb, bl4, g, b, k, p);
  }

  lemma {:induction false} ColumnKept(now: seq<Word>, before: seq<Word>, s: Shape, row: seq<SourceBlock>, nb: nat, bl4: nat,
                                      g: nat, b: nat, k: nat, p: Patch)
    requires bl4 > 0 && bl4 % 8 == 0 && RowOk(row, nb, bl4) && s.lines == Lines(nb, bl4) && ColumnHolds(before, s, row, nb, bl4, g, b, k)
    requires OnlyIn(p, now, before, s) && p.nb == nb && p.bl4 == bl4
    requires !(p.g == g && p.bLo <= b < p.bHi && p.lo <= k < p.hi)
    ensures ColumnHolds(now, s, row, nb, bl4, g, b, k)
  {
    hide At, Full, Content, RowOk, BlockOf;
    forall x: nat | InShape(s, g, x, k) && BlockOf(x, nb, bl4) == b ensures At(now, s, g, x, k) == Content(row, nb, bl4, x) {
      assert !In(p, g, x, k);
    }
  }

  /** One block of the vector path: tiles of four rows, then the rows left over. */
  method PackBlock(rows: seq<seq<SourceBlock>>, nb: nat, bl4: nat, first: nat, dst: nat, scales: nat, cols: nat, buf: array<Word>, s: Shape,
                   b: nat, ghost g: nat)
    requires Rows(rows, nb, bl4) && Sized(s, nb, bl4, g, b) && cols <= s.nr && Full(buf[..], s)
    requires first == RowIndex(s.nr, g, 0) && first + cols <= |rows|
    requires dst == ValueBase(s, g, b, bl4) && scales == ScaleBase(s, g, nb, b, bl4)
    modifies buf
    ensures forall k :: 0 <= k < cols ==> RowHolds(buf[..], s, rows, nb, bl4, g, b, k)
    ensures OnlyIn(BlockPatch(nb, bl4, g, b, 0, cols, true), buf[..], old(buf[..]), s)
  {
    NothingYet(BlockPatch(nb, bl4, g, b, 0, 0, true), buf[..], s);
    hide Full, OnlyIn, ColumnHolds, Stride, RowOk, RowHolds, ValueBase, ScaleBase;
    var i: nat := 0;
    while i + 4 <= cols
      invariant i <= cols && Full(buf[..], s)
      invariant forall k :: 0 <= k < i ==> RowHolds(buf[..], s, rows, nb, bl4, g, b, k)
      invariant OnlyIn(BlockPatch(nb, bl4, g, b, 0, i, true), buf[..], old(buf[..]), s)
    {
      ghost var before := buf[..];
      var r := first + i;
      PackTile(rows[r..r + 4], nb, bl4, dst, scales, i, buf, s, b, g);
      FullIsKept(buf[..], before, s, BlockPatch(nb, bl4, g, b, i, i + 4, true));
      forall k | 0 <= k < i + 4 ensures RowHolds(buf[..], s, rows, nb, bl4, g, b, k) {
        if k < i {
          RowKept(buf[..], before, s, rows, nb, bl4, g, b, k, BlockPatch(nb, bl4, g, b, i, i + 4, true));
        } else {
          assert rows[r..r + 4][k - i] == rows[RowIndex(s.nr, g, k)];
          RowIsHeld(buf[..], s, rows, nb, bl4, g, b, k);
        }
      }
      OnlyInJoin(BlockPatch(nb, bl4, g, b, 0, i + 4, true), BlockPatch(nb, bl4, g, b, 0, i, true), BlockPatch(nb, bl4, g, b, i, i + 4, true),
                 buf[..], before, old(buf[..]), s);
      i := i + 4;
    }
    while i < cols
      invariant i <= cols && Full(buf[..], s)
      invariant forall k :: 0 <= k < i ==> RowHolds(buf[..], s, rows, nb, bl4, g, b, k)
      invariant OnlyIn(BlockPatch(nb, bl4, g, b, 0, i, true), buf[..], old(buf[..]), s)
    {
      ghost var before := buf[..];
      RowIsOk(rows, nb, bl4, first + i);
      PackRowVector(rows[first + i], nb, bl4, dst, scales, i, buf, s, b, g);
      FullIsKept(buf[..], before, s, BlockPatch(nb, bl4, g, b, i, i + 1, true));
      forall k | 0 <= k < i + 1 ensures RowHolds(buf[..], s, rows, nb, bl4, g, b, k) {
        if k < i {
          RowKept(buf[..], before, s, rows, nb, bl4, g, b, k, BlockPatch(nb, bl4, g, b, i, i + 1, true));
        } else {
          RowIsHeld(buf[..], s, rows, nb, bl4, g, b, k);
        }
      }
      OnlyInJoin(BlockPatch(nb, bl4, g, b, 0, i + 1, true), BlockPatch(nb, bl4, g, b, 0, i, true), BlockPatch(nb, bl4, g, b, i, i + 1, true),
                 buf[..], before, old(buf[..]), s);
      i := i + 1;
    }
  }

  lemma {:induction false} RowIsHeld(w: seq<Word>, s: Shape, rows: seq<seq<SourceBlock>>, nb: nat, bl4: nat, g: nat, b: nat, k: nat)
    requires Rows(rows, nb, bl4) && s.lines == Lines(nb, bl4) && RowIndex(s.nr, g, k) < |rows|
    requires RowOk(rows[RowIndex(s.nr, g, k)], nb, bl4) && ColumnHolds(w, s, rows[RowIndex(s.nr, g, k)], nb, bl4, g, b, k)
    ensures RowHolds(w, s, rows, nb, bl4, g, b, k)
  {
    hide ColumnHolds;
  }

  /** Every cell of the buffer is as the pack leaves it. */
  ghost predicate AllPacked(rows: seq<seq<SourceBlock>>, nb: nat, bl4: nat, s: Shape, now: seq<Word>, before: seq<Word>)
    requires Rows(rows, nb, bl4) && s.lines == Lines(nb, bl4)
  {
    && Full(now, s) && Full(before, s)
    && forall g: nat, x: nat, i: nat :: InShape(s, g, x, i) ==> CellIs(rows, nb, bl4, s.nr, g, x, i, At(now, s, g, x, i), At(before, s, g, x, i))
  }

  /** Groups before `groups` are packed, the others are as before. */
  ghost predicate GroupsPacked(rows: seq<seq<SourceBlock>>, nb: nat, bl4: nat, s: Shape, now: seq<Word>, before: seq<Word>, groups: nat)
    requires Rows(rows, nb, bl4) && s.lines == Lines(nb, bl4)
  {
    && Full(now, s) && Full(before, s)
    && forall g: nat, x: nat, i: nat :: InShape(s, g, x, i) ==>
         if g < groups then CellIs(rows, nb, bl4, s.nr, g, x, i, At(now, s, g, x, i), At(before, s, g, x, i))
         else At(now, s, g, x, i) == At(before, s, g, x, i)
  }

  /** The rows a group has, all of them or those that are left. */
  function Columns(n: nat, g: nat, nr: nat): nat
    requires g * nr <= n
  {
    if n - g * nr < nr then n - g * nr else nr
  }

  /** All blocks of one group; the last group may have fewer than nr rows. */
  method PackGroup(rows: seq<seq<SourceBlock>>, nb: nat, bl4: nat, first: nat, base: nat, buf: array<Word>, s: Shape, ghost g: nat)
    requires Rows(rows, nb, bl4) && s.lines == Lines(nb, bl4) && g < s.groups && Full(buf[..], s)
    requires first == g * s.nr < |rows| && base == g * Stride(s)
    modifies buf
    ensures forall b, k :: 0 <= b < nb && 0 <= k < Columns(|rows|, g, s.nr) ==> RowHolds(buf[..], s, rows, nb, bl4, g, b, k)
    ensures OnlyIn(Patch(nb, bl4, g, 0, nb, 0, Columns(|rows|, g, s.nr), true), buf[..], old(buf[..]), s)
  {
    NothingYet(Patch(nb, bl4, g, 0, 0, 0, Columns(|rows|, g, s.nr), true), buf[..], s);
    hide RowHolds, OnlyIn, RowOk, Stride, Full;
    var cols := if |rows| - first < s.nr then |rows| - first else s.nr;
    var step := bl4 * s.nr;
    var dst, scales := base, base + nb * bl4 * s.nr;
    BasesStart(s, g, nb, bl4);
    for b := 0 to nb
      invariant Full(buf[..], s)
      invariant dst == ValueBase(s, g, b, bl4) && scales == ScaleBase(s, g, nb, b, bl4)
      invariant forall a, k :: 0 <= a < b && 0 <= k < cols ==> RowHolds(buf[..], s, rows, nb, bl4, g, a, k)
      invariant OnlyIn(Patch(nb, bl4, g, 0, b, 0, cols, true), buf[..], old(buf[..]), s)
    {
      hide Lines, Rows, Columns, ValueBase, ScaleBase;
      ghost var before := buf[..];
      PackBlock(rows, nb, bl4, first, dst, scales, cols, buf, s, b, g);
      BlockDone(buf[..], before, old(buf[..]), s, rows, nb, bl4, g, b, cols);
      BasesNext(s, g, nb, b, bl4);
      dst, scales := dst + step, scales + s.nr;
    }
  }

  /** One more block of a group. */
  lemma {:induction false} BlockDone(now: seq<Word>, mid: seq<Word>, before: seq<Word>, s: Shape, rows: seq<seq<SourceBlock>>,
                                     nb: nat, bl4: nat, g: nat, b: nat, cols: nat)
    requires Rows(rows, nb, bl4) && s.lines == Lines(nb, bl4)
    requires forall a, k :: 0 <= a < b && 0 <= k < cols ==> RowHolds(mid, s, rows, nb, bl4, g, a, k)
    requires forall k :: 0 <= k < cols ==> RowHolds(now, s, rows, nb, bl4, g, b, k)
    requires OnlyIn(BlockPatch(nb, bl4, g, b, 0, cols, true), now, mid, s)
    requires OnlyIn(Patch(nb, bl4, g, 0, b, 0, cols, true), mid, before, s)
    ensures Full(now, s)
    ensures forall a, k :: 0 <= a < b + 1 && 0 <= k < cols ==> RowHolds(now, s, rows, nb, bl4, g, a, k)
    ensures OnlyIn(Patch(nb, bl4, g, 0, b + 1, 0, cols, true), now, before, s)
  {
    hide RowHolds, OnlyIn, Rows, Full;
    FullIsKept(now, mid, s, BlockPatch(nb, bl4, g, b, 0, cols, true));
    BlocksKept(now, mid, s, rows, nb, bl4, g, b, cols);
    OnlyInJoin(Patch(nb, bl4, g, 0, b + 1, 0, cols, true), Patch(nb, bl4, g, 0, b, 0, cols, true), BlockPatch(nb, bl4, g, b, 0, cols, true),
               now, mid, before, s);
  }

  lemma {:induction false} BlocksKept(now: seq<Word>, before: seq<Word>, s: Shape, rows: seq<seq<SourceBlock>>, nb: nat, bl4: nat,
                                      g: nat, b: nat, cols: nat)
    requires Rows(rows, nb, bl4) && s.lines == Lines(nb, bl4)
    requires forall a, k :: 0 <= a < b && 0 <= k < cols ==> RowHolds(before, s, rows, nb, bl4, g, a, k)
    requires OnlyIn(BlockPatch(nb, bl4, g, b, 0, cols, true), now, before, s)
    ensures forall a, k :: 0 <= a < b && 0 <= k < cols ==> RowHolds(now, s, rows, nb, bl4, g, a, k)
  {
    hide RowHolds, OnlyIn, Rows;
    forall a, k | 0 <= a < b && 0 <= k < cols ensures RowHolds(now, s, rows, nb, bl4, g, a, k) {
      RowKept(now, before, s, rows, nb, bl4, g, a, k, BlockPatch(nb, bl4, g, b, 0, cols, true));
    }
  }

  /** One more group. */
  lemma {:induction false} GroupDone(now: seq<Word>, mid: seq<Word>, before: seq<Word>, s: Shape, rows: seq<seq<SourceBlock>>,
                                     nb: nat, bl4: nat, g: nat)
    requires Rows(rows, nb, bl4) && s.lines == Lines(nb, bl4) && g * s.nr < |rows|
    requires GroupsPacked(rows, nb, bl4, s, mid, before, g)
    requires forall b, k :: 0 <= b < nb && 0 <= k < Columns(|rows|, g, s.nr) ==> RowHolds(now, s, rows, nb, bl4, g, b, k)
    requires OnlyIn(Patch(nb, bl4, g, 0, nb, 0, Columns(|rows|, g, s.nr), true), now, mid, s)
    ensures GroupsPacked(rows, nb, bl4, s, now, before, g + 1)
  {
    hide Content, RowOk, BlockOf, At, Full;
    var p := Patch(nb, bl4, g, 0, nb, 0, Columns(|rows|, g, s.nr), true);
    forall g': nat, x: nat, i: nat | InShape(s, g', x, i)
      ensures if g' < g + 1 then CellIs(rows, nb, bl4, s.nr, g', x, i, At(now, s, g', x, i), At(before, s, g', x, i))
              else At(now, s, g', x, i) == At(before, s, g', x, i)
    {
      BlockInside(x, nb, bl4);
      if g' == g && i < p.hi {
        assert RowHolds(now, s, rows, nb, bl4, g, BlockOf(x, nb, bl4), i);
      } else {
        assert !In(p, g', x, i);
      }
    }
  }

  /** The vector path: groups of nr rows, block by block. */
  method PackVector(rows: seq<seq<SourceBlock>>, nb: nat, bl4: nat, buf: array<Word>, s: Shape)
    requires Rows(rows, nb, bl4) && s.lines == Lines(nb, bl4) && s.nr > 0 && s.nr % 4 == 0
    requires Full(buf[..], s) && |rows| <= s.groups * s.nr
    modifies buf
    ensures AllPacked(rows, nb, bl4, s, buf[..], old(buf[..]))
  {
    assert GroupsPacked(rows, nb, bl4, s, buf[..], buf[..], 0);
    hide GroupsPacked, RowHolds, OnlyIn, RowOk, Stride, Full, Columns;
    var first, base := 0, 0;
    ghost var g: nat := 0;
    while first < |rows|
      invariant Full(buf[..], s) && g <= s.groups && first == g * s.nr && base == g * Stride(s)
      invariant GroupsPacked(rows, nb, bl4, s, buf[..], old(buf[..]), g)
      decreases s.groups - g
    {
      ghost var before := buf[..];
      GroupExists(|rows|, s.nr, s.groups, g);
      PackGroup(rows, nb, bl4, first, base, buf, s, g);
      GroupDone(buf[..], before, old(buf[..]), s, rows, nb, bl4, g);
      FullIsKept(buf[..], before, s, Patch(nb, bl4, g, 0, nb, 0, Columns(|rows|, g, s.nr), true));
      NextLine(s.nr, g);
      NextLine(Stride(s), g);
      first, base, g := first + s.nr, base + Stride(s), g + 1;
    }
    GroupsAreAll(rows, nb, bl4, s, buf[..], old(buf[..]), g);
  }

  lemma {:induction false} GroupsAreAll(rows: seq<seq<SourceBlock>>, nb: nat, bl4: nat, s: Shape, now: seq<Word>, before: seq<Word>, groups: nat)
    requires Rows(rows, nb, bl4) && s.lines == Lines(nb, bl4) && GroupsPacked(rows, nb, bl4, s, now, before, groups)
    requires groups * s.nr >= |rows|
    ensures AllPacked(rows, nb, bl4, s, now, before)
  {
    hide At, Full, CellIs;
    forall g: nat, x: nat, i: nat | InShape(s, g, x, i) ensures CellIs(rows, nb, bl4, s.nr, g, x, i, At(now, s, g, x, i), At(before, s, g, x, i)) {
      if g >= groups {
        PastTheRows(s.nr, groups, g, i, |rows|);
        Untouched(rows, nb, bl4, s.nr, g, x, i, At(now, s, g, x, i));
      }
    }
  }

  lemma {:induction false} Untouched(rows: seq<seq<SourceBlock>>, nb: nat, bl4: nat, nr: nat, g: nat, x: nat, i: nat, w: Word)
    requires Rows(rows, nb, bl4) && x < Lines(nb, bl4) && RowIndex(nr, g, i) >= |rows|
    ensures CellIs(rows, nb, bl4, nr, g, x, i, w, w)
  {
  }

  /** Rows before r are packed, every other cell is as before. */
  ghost predicate RowsPacked(rows: seq<seq<SourceBlock>>, nb: nat, bl4: nat, s: Shape, now: seq<Word>, before: seq<Word>, r: nat)
    requires Rows(rows, nb, bl4) && s.lines == Lines(nb, bl4) && r <= |rows|
  {
    && Full(now, s) && Full(before, s)
    && forall g: nat, x: nat, i: nat :: InShape(s, g, x, i) ==>
         if RowIndex(s.nr, g, i) < r then CellIs(rows, nb, bl4, s.nr, g, x, i, At(now, s, g, x, i), At(before, s, g, x, i))
         else At(now, s, g, x, i) == At(before, s, g, x, i)
  }

  lemma {:induction false} NextGroup(r: nat, nr: nat)
    requires nr > 0
    ensures (r + 1) / nr == if (r + 1) % nr == 0 then r / nr + 1 else r / nr
  {
    var q, m := r / nr, r % nr;
    assert r == q * nr + m;
    if m + 1 == nr {
      assert r + 1 == (q + 1) * nr;
      DivMod(r + 1, nr, q + 1, 0);
    } else {
      DivMod(r + 1, nr, q, m + 1);
    }
  }

  lemma {:induction false} RowPlace(r: nat, nr: nat, g: nat, i: nat)
    requires nr > 0 && i < nr
    ensures RowIndex(nr, g, i) == r <==> g == r / nr && i == r % nr
  {
    RowIndexAt(nr, g, i);
    assert r == r / nr * nr + r % nr;
  }

  /** One row of the scalar path, block by block, into column `col`. */
  method PackOneRow(row: seq<SourceBlock>, nb: nat, bl4: nat, base: nat, col: nat, buf: array<Word>, s: Shape, ghost g: nat)
    requires bl4 > 0 && bl4 % 8 == 0 && RowOk(row, nb, bl4) && s.lines == Lines(nb, bl4) && g < s.groups && col < s.nr
    requires Full(buf[..], s) && base == g * Stride(s)
    modifies buf
    ensures forall b :: 0 <= b < nb ==> ColumnHolds(buf[..], s, row, nb, bl4, g, b, col)
    ensures OnlyIn(Patch(nb, bl4, g, 0, nb, col, col + 1, true), buf[..], old(buf[..]), s)
  {
    NothingYet(Patch(nb, bl4, g, 0, 0, col, col + 1, true), buf[..], s);
    hide ColumnHolds, OnlyIn, RowOk, Stride, Full;
    for b := 0 to nb
      invariant Full(buf[..], s)
      invariant forall a :: 0 <= a < b ==> ColumnHolds(buf[..], s, row, nb, bl4, g, a, col)
      invariant OnlyIn(Patch(nb, bl4, g, 0, b, col, col + 1, true), buf[..], old(buf[..]), s)
    {
      ghost var before := buf[..];
      PackRowScalar(row, nb, bl4, base, b, col, buf, s, g);
      FullIsKept(buf[..], before, s, BlockPatch(nb, bl4, g, b, col, col + 1, true));
      forall a | 0 <= a < b ensures ColumnHolds(buf[..], s, row, nb, bl4, g, a, col) {
        ColumnKept(buf[..], before, s, row, nb, bl4, g, a, col, BlockPatch(nb, bl4, g, b, col, col + 1, true));
      }
      OnlyInJoin(Patch(nb, bl4, g, 0, b + 1, col, col + 1, true), Patch(nb, bl4, g, 0, b, col, col + 1, true),
                 BlockPatch(nb, bl4, g, b, col, col + 1, true), buf[..], before, old(buf[..]), s);
    }
  }

  /** One more row. */
  lemma {:induction false} RowDone(now: seq<Word>, mid: seq<Word>, before: seq<Word>, s: Shape, rows: seq<seq<SourceBlock>>,
                                   nb: nat, bl4: nat, g: nat, col: nat, r: nat)
    requires Rows(rows, nb, bl4) && s.lines == Lines(nb, bl4) && col < s.nr && r < |rows| && g == r / s.nr && col == r % s.nr
    requires RowsPacked(rows, nb, bl4, s, mid, before, r) && RowOk(rows[r], nb, bl4)
    requires forall b :: 0 <= b < nb ==> ColumnHolds(now, s, rows[r], nb, bl4, g, b, col)
    requires OnlyIn(Patch(nb, bl4, g, 0, nb, col, col + 1, true), now, mid, s)
    ensures RowsPacked(rows, nb, bl4, s, now, before, r + 1)
  {
    hide Content, RowOk, BlockOf, At, Full;
    var p := Patch(nb, bl4, g, 0, nb, col, col + 1, true);
    forall g': nat, x: nat, i: nat | InShape(s, g', x, i)
      ensures if RowIndex(s.nr, g', i) < r + 1 then CellIs(rows, nb, bl4, s.nr, g', x, i, At(now, s, g', x, i), At(before, s, g', x, i))
              else At(now, s, g', x, i) == At(before, s, g', x, i)
    {
      RowPlace(r, s.nr, g', i);
      BlockInside(x, nb, bl4);
      if g' == g && i == col {
        assert ColumnHolds(now, s, rows[r], nb, bl4, g, BlockOf(x, nb, bl4), col);
      } else {
        assert !In(p, g', x, i);
      }
    }
  }

  /** The scalar path: row by row; the pointer moves on after every nr rows. */
  method PackScalar(rows: seq<seq<SourceBlock>>, nb: nat, bl4: nat, buf: array<Word>, s: Shape)
    requires Rows(rows, nb, bl4) && s.lines == Lines(nb, bl4) && s.nr > 0
    requires Full(buf[..], s) && |rows| <= s.groups * s.nr
    modifies buf
    ensures AllPacked(rows, nb, bl4, s, buf[..], old(buf[..]))
  {
    assert RowsPacked(rows, nb, bl4, s, buf[..], buf[..], 0);
    hide RowsPacked, ColumnHolds, OnlyIn, RowOk, Stride, Full;
    var base: nat := 0;
    var r: nat := 0;
    while r < |rows|
      invariant r <= |rows| && Full(buf[..], s) && base == r / s.nr * Stride(s)
      invariant RowsPacked(rows, nb, bl4, s, buf[..], old(buf[..]), r)
    {
      ghost var before := buf[..];
      ghost var g := r / s.nr;
      var col := r % s.nr;
      GroupOfRow(r, |rows|, s.nr, s.groups);
      RowIsOk(rows, nb, bl4, r);
      PackOneRow(rows[r], nb, bl4, base, col, buf, s, g);
      RowDone(buf[..], before, old(buf[..]), s, rows, nb, bl4, g, col, r);
      FullIsKept(buf[..], before, s, Patch(nb, bl4, g, 0, nb, col, col + 1, true));
      NextGroup(r, s.nr);
      NextLine(Stride(s), g);
      if (r + 1) % s.nr == 0 {
        base := base + Stride(s);
      }
      r := r + 1;
    }
    RowsAreAll(rows, nb, bl4, s, buf[..], old(buf[..]));
  }

  lemma {:induction false} GroupOfRow(r: nat, n: nat, nr: nat, groups: nat)
    requires nr > 0 && r < n <= groups * nr
    ensures 0 <= r / nr < groups && 0 <= r % nr < nr
  {
    assert r / nr * nr <= r;
    GroupExists(n, nr, groups, r / nr);
  }

  lemma {:induction false} RowsAreAll(rows: seq<seq<SourceBlock>>, nb: nat, bl4: nat, s: Shape, now: seq<Word>, before: seq<Word>)
    requires Rows(rows, nb, bl4) && s.lines == Lines(nb, bl4) && RowsPacked(rows, nb, bl4, s, now, before, |rows|)
    ensures AllPacked(rows, nb, bl4, s, now, before)
  {
    hide At, Full, CellIs;
    forall g: nat, x: nat, i: nat | InShape(s, g, x, i) ensures CellIs(rows, nb, bl4, s.nr, g, x, i, At(now, s, g, x, i), At(before, s, g, x, i)) {
      if RowIndex(s.nr, g, i) >= |rows| {
        Untouched(rows, nb, bl4, s.nr, g, x, i, At(now, s, g, x, i));
      }
    }
  }

  /** The contract both paths meet leaves no choice: from equal buffers they make equal buffers. */
  lemma {:induction false} PathsAgree(rows: seq<seq<SourceBlock>>, nb: nat, bl4: nat, s: Shape, before: seq<Word>, a: seq<Word>, b: seq<Word>)
    requires Rows(rows, nb, bl4) && s.lines == Lines(nb, bl4)
    requires AllPacked(rows, nb, bl4, s, a, before) && AllPacked(rows, nb, bl4, s, b, before)
    ensures a == b
  {
    hide CellIs;
    forall at | 0 <= at < |a| ensures a[at] == b[at] {
      var g, x, i := CellOf(s, at);
      SameCell(rows, nb, bl4, s.nr, g, x, i, At(before, s, g, x, i), At(a, s, g, x, i), At(b, s, g, x, i));
    }
  }

  /** Every word of the buffer is a cell. */
  lemma {:induction false} CellOf(s: Shape, at: nat) returns (g: nat, x: nat, i: nat)
    requires at < s.groups * Stride(s)
    ensures InShape(s, g, x, i) && Address(s, g, x, i) == at
  {
    var stride := Stride(s);
    Positive(at, s.groups, stride);
    Positive(0, s.lines, s.nr);
    g := at / stride;
    var rest := at % stride;
    x, i := rest / s.nr, rest % s.nr;
    QuotientBelow(at, stride, s.groups);
    QuotientBelow(rest, s.nr, s.lines);
  }

  lemma {:induction false} Positive(a: nat, n: nat, m: nat)
    requires a < n * m
    ensures m > 0
  {
  }

  lemma {:induction false} QuotientBelow(a: nat, m: nat, n: nat)
    requires m > 0 && a < n * m
    ensures a / m < n && a == a / m * m + a % m
  {
    var q := a / m;
    assert q >= n ==> q * m >= n * m;
  }

  lemma {:induction false} SameCell(rows: seq<seq<SourceBlock>>, nb: nat, bl4: nat, nr: nat, g: nat, x: nat, i: nat, before: Word, a: Word, b: Word)
    requires Rows(rows, nb, bl4) && x < Lines(nb, bl4)
    requires CellIs(rows, nb, bl4, nr, g, x, i, a, before) && CellIs(rows, nb, bl4, nr, g, x, i, b, before)
    ensures a == b
  {
  }

  /** Both paths on equal buffers. */
  method PackBoth(rows: seq<seq<SourceBlock>>, nb: nat, bl4: nat, buf: array<Word>, other: array<Word>, s: Shape)
    requires Rows(rows, nb, bl4) && s.lines == Lines(nb, bl4) && s.nr > 0 && s.nr % 4 == 0
    requires Full(buf[..], s) && |rows| <= s.groups * s.nr && buf != other && other[..] == buf[..]
    modifies buf, other
    ensures buf[..] == other[..]
  {
    hide Rows, Full, AllPacked;
    ghost var before := buf[..];
    PackVector(rows, nb, bl4, buf, s);
    PackScalar(rows, nb, bl4, other, s);
    PathsAgree(rows, nb, bl4, s, before, buf[..], other[..]);
  }
}
