/** The packed buffer in plain arithmetic: which word stands where, and which codes it holds. */
module KleidiLayout {
  import opened Common
  import opened KleidiPack
  import opened KleidiBuffer

  /** Code e of a byte string, two to a byte, low half first. */
  function Code(bytes: seq<bv8>, e: nat): bv8
    requires e / 2 < |bytes|
  {
    if e % 2 == 0 then bytes[e / 2] & 15 else bytes[e / 2] >> 4
  }

  lemma {:induction false} PairHalves(a: bv8, b: bv8)
    ensures LowPair(a, b) & 15 == a & 15 && LowPair(a, b) >> 4 == b & 15
    ensures HighPair(a, b) & 15 == a >> 4 && HighPair(a, b) >> 4 == b >> 4
  {
  }

  /** The sequential order has the low halves of all bytes first, then the high halves. */
  lemma {:induction false} SequentialIs(src: seq<bv8>, e: nat)
    requires |src| % 2 == 0 && e < 2 * |src|
    ensures Code(Sequential(src), e) == if e < |src| then src[e] & 15 else src[e - |src|] >> 4
  {
    hide LowPair, HighPair;
    var i := e / 2;
    assert Sequential(src)[i] == Converted(src, i);
    if i < |src| / 2 {
      PairHalves(src[2 * i], src[2 * i + 1]);
    } else {
      PairHalves(src[2 * i - |src|], src[2 * i + 1 - |src|]);
    }
  }

  /** The word of line x of row r: group r / nr, column r % nr. */
  function Spot(nr: nat, lines: nat, r: nat, x: nat): nat
    requires nr > 0
  {
    r / nr * (lines * nr) + x * nr + r % nr
  }

  lemma {:induction false} CellOfRow(rows: seq<seq<SourceBlock>>, nb: nat, bl4: nat, s: Shape, now: seq<Word>, before: seq<Word>, r: nat, x: nat)
    requires Rows(rows, nb, bl4) && s.lines == Lines(nb, bl4) && s.nr > 0 && |rows| <= s.groups * s.nr
    requires AllPacked(rows, nb, bl4, s, now, before) && r < |rows| && x < Lines(nb, bl4)
    ensures RowOk(rows[r], nb, bl4)
    ensures Spot(s.nr, nb * bl4 + nb, r, x) < |now| && now[Spot(s.nr, nb * bl4 + nb, r, x)] == Content(rows[r], nb, bl4, x)
  {
    hide Content, Full, RowOk;
    var g, i := r / s.nr, r % s.nr;
    GroupOfRow(r, |rows|, s.nr, s.groups);
    assert RowIndex(s.nr, g, i) == r;
    RowIsOk(rows, nb, bl4, r);
    AddressInside(s, g, x, i);
    assert InShape(s, g, x, i);
    assert CellIs(rows, nb, bl4, s.nr, g, x, i, At(now, s, g, x, i), At(before, s, g, x, i));
    FullLength(now, s);
    assert At(now, s, g, x, i) == now[Address(s, g, x, i)];
  }

  lemma {:induction false} FullLength(w: seq<Word>, s: Shape)
    requires Full(w, s)
    ensures |w| == s.groups * Stride(s)
  {
  }

  /**
   After either path: word q of block b of row r stands at line b * bl4 + q of its column and is bytes
   2 q and 2 q + 1 of the block in sequential order; its scale stands at line nb * bl4 + b.
   */
  lemma {:induction false} PackedAt(rows: seq<seq<SourceBlock>>, nb: nat, bl4: nat, s: Shape, now: seq<Word>, before: seq<Word>, r: nat, b: nat, q: nat)
    requires Rows(rows, nb, bl4) && s.lines == Lines(nb, bl4) && s.nr > 0 && |rows| <= s.groups * s.nr
    requires AllPacked(rows, nb, bl4, s, now, before) && r < |rows| && b < nb && q < bl4
    ensures RowOk(rows[r], nb, bl4) && |rows[r][b].bytes| == 2 * bl4
    ensures var lines, bytes := nb * bl4 + nb, Sequential(rows[r][b].bytes);
            var value, scale := Spot(s.nr, lines, r, b * bl4 + q), Spot(s.nr, lines, r, nb * bl4 + b);
            && value < |now| && now[value] == Word(bytes[2 * q], bytes[2 * q + 1])
            && scale < |now| && now[scale] == rows[r][b].scale
  {
    ValueLineAt(b, q, nb, bl4);
    CellOfRow(rows, nb, bl4, s, now, before, r, b * bl4 + q);
    CellOfRow(rows, nb, bl4, s, now, before, r, nb * bl4 + b);
    hide AllPacked, Sequential, Spot;
  }

  /** Words beyond the last row are as they were. */
  lemma {:induction false} BeyondTheRows(rows: seq<seq<SourceBlock>>, nb: nat, bl4: nat, s: Shape, now: seq<Word>, before: seq<Word>, r: nat, x: nat)
    requires Rows(rows, nb, bl4) && s.lines == Lines(nb, bl4) && s.nr > 0 && AllPacked(rows, nb, bl4, s, now, before)
    requires |rows| <= r < s.groups * s.nr && x < Lines(nb, bl4)
    ensures var at := Spot(s.nr, nb * bl4 + nb, r, x); at < |now| == |before| && now[at] == before[at]
  {
    hide Content, Full, RowOk;
    var g, i := r / s.nr, r % s.nr;
    GroupOfRow(r, s.groups * s.nr, s.nr, s.groups);
    assert RowIndex(s.nr, g, i) == r;
    AddressInside(s, g, x, i);
    assert InShape(s, g, x, i);
    assert CellIs(rows, nb, bl4, s.nr, g, x, i, At(now, s, g, x, i), At(before, s, g, x, i));
    FullLength(now, s);
    FullLength(before, s);
    assert At(now, s, g, x, i) == now[Address(s, g, x, i)] && At(before, s, g, x, i) == before[Address(s, g, x, i)];
  }
}
