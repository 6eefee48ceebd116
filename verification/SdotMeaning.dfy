/**
 What the SDOT kernels compute when float arithmetic is exact: the scaled dot product of a row
 with a column in natural order, one product per element.
 */
module SdotMeaning {
  import opened Common
  import opened SdotDot
  import opened SdotTiler

  /** Floats without rounding. */
  function Exact(): Floats<real> {
    Floats(0.0, (i: int) => i as real, (a: real, b: real) => a * b, (a: real, b: real) => a + b)
  }

  /** Element i of a row of packed nibbles: low nibble first, less 8. */
  function Nibble(pr: Bytes, i: nat): int
    requires i / 2 < |pr|
  {
    (if i % 2 == 0 then pr[i / 2] as int % 16 else pr[i / 2] as int / 16) - 8
  }

  /** The factor the two scales of element i make up, in either format. */
  function Factor(row: Row<real>, ascale: seq<real>, i: nat, n: nat): real
    requires Shaped(row, n) && |ascale| == Groups(row, n) && i < n
  {
    match row
    case G64(_, wscale) => wscale[i / 64] * ascale[i / 64]
    case G256(_, wsuper, subcode, third) => subcode[i / 64] as real * wsuper[i / 256] * third * ascale[i / 256]
  }

  function Factors(row: Row<real>, ascale: seq<real>, n: nat): (cs: seq<real>)
    requires Shaped(row, n) && |ascale| == Groups(row, n)
    ensures |cs| == n
  {
    seq(n, i requires 0 <= i < n => Factor(row, ascale, i, n))
  }

  /** Weight times activation, element by element. */
  function NibbleProducts(pr: Bytes, x: seq<int>): (ps: seq<int>)
    requires |x| == 2 * |pr|
    ensures |ps| == |x|
  {
    seq(|x|, i requires 0 <= i < |x| => Nibble(pr, i) * x[i])
  }

  function Times(k: int, c: real): real {
    k as real * c
  }

  /** The sum of the first m products, each under its own factor. */
  function Weighted(ps: seq<int>, cs: seq<real>, m: nat): real
    requires m <= |ps| == |cs|
  {
    if m == 0 then 0.0 else Weighted(ps, cs, m - 1) + Times(ps[m - 1], cs[m - 1])
  }

  /** The dot product of the first m elements. */
  function DotTo(row: Row<real>, x: seq<int>, ascale: seq<real>, m: nat): real
    requires Shaped(row, |x|) && |ascale| == Groups(row, |x|) && m <= |x|
  {
    Weighted(NibbleProducts(row.pr, x), Factors(row, ascale, |x|), m)
  }

  lemma {:induction false} Spread(a: int, b: int, c: real)
    ensures Times(a + b, c) == Times(a, c) + Times(b, c) && Times(0, c) == 0.0
  {
  }

  /** Over a stretch with one factor, the sum is the integer sum times the factor. */
  lemma {:induction false} StretchSum(ps: seq<int>, cs: seq<real>, lo: nat, k: nat, c: real)
    requires lo + k <= |ps| == |cs| && forall i :: lo <= i < lo + k ==> cs[i] == c
    ensures Weighted(ps, cs, lo + k) == Weighted(ps, cs, lo) + Times(Sum(ps, lo + k) - Sum(ps, lo), c)
  {
    hide Times;
    if k > 0 {
      StretchSum(ps, cs, lo, k - 1, c);
      Spread(Sum(ps, lo + k - 1) - Sum(ps, lo), ps[lo + k - 1], c);
    } else {
      Spread(0, 0, c);
    }
  }

  lemma {:induction false} SameProducts(pr: Bytes, x: seq<int>)
    requires |x| == 2 * |pr|
    ensures NaturalProducts(pr, x) == NibbleProducts(pr, x)
  {
  }

  /** One group of 64 under one factor. */
  lemma {:induction false} GroupOf64(row: Row<real>, split: seq<int>, x: seq<int>, ascale: seq<real>, g: nat, c: real)
    requires Shaped(row, |x|) && |ascale| == Groups(row, |x|) && SplitOf(split, x) && 64 * g + 64 <= |x|
    requires forall i :: 64 * g <= i < 64 * g + 64 ==> Factor(row, ascale, i, |x|) == c
    ensures 32 * g + 32 <= |row.pr|
    ensures DotTo(row, x, ascale, 64 * g + 64) == DotTo(row, x, ascale, 64 * g) + Times(Across(GroupDot(row.pr, split, g)), c)
  {
    hide Factor, NaturalProducts, NibbleProducts, Sum, GroupDot, SplitOf, Times, Weighted;
    GroupIsNatural(row.pr, split, x, g);
    SameProducts(row.pr, x);
    StretchSum(NibbleProducts(row.pr, x), Factors(row, ascale, |x|), 64 * g, 64, c);
  }

  lemma {:induction false} Factor64(row: Row<real>, ascale: seq<real>, g: nat, i: nat, n: nat)
    requires row.G64? && Shaped(row, n) && |ascale| == Groups(row, n) && 64 * g <= i < 64 * g + 64 <= n
    ensures Factor(row, ascale, i, n) == row.wscale[g] * ascale[g]
  {
    assert i / 64 == g;
  }

  lemma {:induction false} Factor256(row: Row<real>, ascale: seq<real>, gs: nat, sub: nat, i: nat, n: nat)
    requires row.G256? && Shaped(row, n) && |ascale| == Groups(row, n) && 256 * gs + 256 <= n && sub < 4
    requires 256 * gs + 64 * sub <= i < 256 * gs + 64 * sub + 64
    ensures Factor(row, ascale, i, n) == Four(row.subcode[4 * gs + sub] as real, row.wsuper[gs], row.third, ascale[gs])
  {
    assert i / 64 == 4 * gs + sub && i / 256 == gs;
  }

  lemma {:induction false} Reorder(int_: real, a: real, b: real)
    ensures int_ * a * b == int_ * (a * b)
  {
  }

  function Three(a: real, b: real, c: real): real {
    a * b * c
  }

  function Four(k: real, a: real, b: real, c: real): real {
    k * a * b * c
  }

  /** The scales of a subfold group but for the sub-code. */
  function Outer(row: Row<real>, ascale: seq<real>, gs: nat): real
    requires row.G256? && gs < |row.wsuper| && gs < |ascale|
  {
    Three(row.wsuper[gs], row.third, ascale[gs])
  }

  /** One group of 64 of a subfold group. */
  lemma {:induction false} SubfoldStep(row: Row<real>, split: seq<int>, x: seq<int>, ascale: seq<real>, gs: nat, n: nat)
    requires row.G256? && Shaped(row, |x|) && |ascale| == Groups(row, |x|) && SplitOf(split, x) && gs < |ascale| && n < 4
    ensures DotTo(row, x, ascale, 256 * gs + 64 * n + 64)
         == DotTo(row, x, ascale, 256 * gs + 64 * n)
          + Times(Across(GroupDot(row.pr, split, 4 * gs + n)) * row.subcode[4 * gs + n], Outer(row, ascale, gs))
  {
    hide Factor, DotTo, GroupDot, Across, Times, Three, Four;
    var code := row.subcode[4 * gs + n] as int;
    var c := Four(code as real, row.wsuper[gs], row.third, ascale[gs]);
    forall i | 64 * (4 * gs + n) <= i < 64 * (4 * gs + n) + 64 ensures Factor(row, ascale, i, |x|) == c {
      Factor256(row, ascale, gs, n, i, |x|);
    }
    GroupOf64(row, split, x, ascale, 4 * gs + n, c);
    CodeMoves(Across(GroupDot(row.pr, split, 4 * gs + n)), code, row.wsuper[gs], row.third, ascale[gs]);
    assert 64 * (4 * gs + n) == 256 * gs + 64 * n;
  }

  lemma {:induction false} ScalarNext(pr: Bytes, subcode: Bytes, col: seq<int>, gs: nat, n: nat)
    requires n < 4 && 128 * gs + 128 <= |pr| && 256 * gs + 256 <= |col| && 4 * gs + 4 <= |subcode|
    ensures FoldedScalar(pr, subcode, col, gs, n + 1)
         == FoldedScalar(pr, subcode, col, gs, n) + Across(GroupDot(pr, col, 4 * gs + n)) * subcode[4 * gs + n]
  {
    hide Across, GroupDot;
  }

  /** Four groups of 64 of a subfold group, by their sub-codes. */
  lemma {:induction false} Subfold(row: Row<real>, split: seq<int>, x: seq<int>, ascale: seq<real>, gs: nat, n: nat)
    requires row.G256? && Shaped(row, |x|) && |ascale| == Groups(row, |x|) && SplitOf(split, x) && gs < |ascale| && n <= 4
    ensures DotTo(row, x, ascale, 256 * gs + 64 * n)
         == DotTo(row, x, ascale, 256 * gs) + Times(FoldedScalar(row.pr, row.subcode, split, gs, n), Outer(row, ascale, gs))
  {
    hide DotTo, GroupDot, Across, Times, Outer, FoldedScalar;
    var before := FoldedScalar(row.pr, row.subcode, split, gs, if n > 0 then n - 1 else 0);
    if n > 0 {
      Subfold(row, split, x, ascale, gs, n - 1);
      SubfoldStep(row, split, x, ascale, gs, n - 1);
      ScalarNext(row.pr, row.subcode, split, gs, n - 1);
      Spread(before, Across(GroupDot(row.pr, split, 4 * gs + n - 1)) * row.subcode[4 * gs + n - 1], Outer(row, ascale, gs));
    } else {
      assert FoldedScalar(row.pr, row.subcode, split, gs, 0) == 0 by { ScalarStart(row.pr, row.subcode, split, gs); }
      Spread(0, 0, Outer(row, ascale, gs));
    }
  }

  lemma {:induction false} ScalarStart(pr: Bytes, subcode: Bytes, col: seq<int>, gs: nat)
    requires 128 * gs + 128 <= |pr| && 256 * gs + 256 <= |col| && 4 * gs + 4 <= |subcode|
    ensures FoldedScalar(pr, subcode, col, gs, 0) == 0
  {
  }

  lemma {:induction false} CodeMoves(v: int, code: int, a: real, b: real, c: real)
    ensures Times(v, Four(code as real, a, b, c)) == Times(v * code, Three(a, b, c))
  {
    Associate(code as real, a, b, c);
    assert (v * code) as real == v as real * code as real;
    Reorder(v as real, code as real, a * b * c);
  }

  lemma {:induction false} Associate(k: real, a: real, b: real, c: real)
    ensures k * a * b * c == k * (a * b * c)
  {
    assert k * a * b == k * (a * b);
  }

  /** One term of the chain is the group's share of the dot product. */
  lemma {:induction false} TermIsShare(row: Row<real>, split: seq<int>, x: seq<int>, ascale: seq<real>, g: nat)
    requires Shaped(row, |x|) && |ascale| == Groups(row, |x|) && SplitOf(split, x) && g < |ascale|
    ensures var size := GroupSize(row);
            && size * g + size <= |x|
            && DotTo(row, x, ascale, size * g + size)
               == DotTo(row, x, ascale, size * g) + Term(Exact(), row, g, GroupInt(row, split, g), ascale[g])
  {
    hide Factor, DotTo, GroupDot, Across, FoldedLanes, FoldedScalar;
    match row {
      case G64(pr, wscale) =>
        var c := wscale[g] * ascale[g];
        forall i | 64 * g <= i < 64 * g + 64 ensures Factor(row, ascale, i, |x|) == c {
          Factor64(row, ascale, g, i, |x|);
        }
        GroupOf64(row, split, x, ascale, g, c);
        Reorder(GroupInt(row, split, g) as real, wscale[g], ascale[g]);
      case G256(pr, wsuper, subcode, third) =>
        Subfold(row, split, x, ascale, g, 4);
        FoldsAgree(pr, subcode, split, g, 4);
        Associate(GroupInt(row, split, g) as real, wsuper[g], third, ascale[g]);
    }
  }

  /** Elements under one activation scale. */
  function GroupSize(row: Row<real>): nat {
    if row.G64? then 64 else 256
  }

  lemma {:induction false} GroupEnds(row: Row<real>, n: nat, g: nat)
    requires Shaped(row, n) && g < Groups(row, n)
    ensures GroupSize(row) * g + GroupSize(row) == GroupSize(row) * (g + 1) <= n
  {
  }

  /** The chain of terms is the dot product, group by group. */
  lemma {:induction false} ChainIsDot(row: Row<real>, split: seq<int>, x: seq<int>, ascale: seq<real>, n: nat)
    requires Shaped(row, |x|) && |ascale| == Groups(row, |x|) && SplitOf(split, x) && n <= |ascale|
    ensures GroupSize(row) * n <= |x| && Chain(Exact(), row, split, ascale, n) == DotTo(row, x, ascale, GroupSize(row) * n)
  {
    hide Term, GroupInt, DotTo, Groups, GroupSize, SplitAt;
    if n > 0 {
      ChainIsDot(row, split, x, ascale, n - 1);
      TermIsShare(row, split, x, ascale, n - 1);
      GroupEnds(row, |x|, n - 1);
    } else {
      assert DotTo(row, x, ascale, 0) == 0.0 by { DotStart(row, x, ascale); }
    }
  }

  lemma {:induction false} DotStart(row: Row<real>, x: seq<int>, ascale: seq<real>)
    requires Shaped(row, |x|) && |ascale| == Groups(row, |x|)
    ensures DotTo(row, x, ascale, 0) == 0.0
  {
  }

  lemma {:induction false} WholeRow(row: Row<real>, n: nat)
    requires Shaped(row, n)
    ensures GroupSize(row) * Groups(row, n) == n && n % 64 == 0
  {
    match row {
      case G64(_, _) => WholeBlocks(n, 64);
      case G256(_, _, _, _) => WholeBlocks(n, 256);
    }
  }

  lemma {:induction false} WholeBlocks(n: nat, size: nat)
    requires size in {64, 256} && n % size == 0
    ensures size * (n / size) == n && n % 64 == 0
  {
    if size == 256 {
      assert n == 64 * (4 * (n / 256));
    }
  }

  /** The whole chain is the whole dot product. */
  lemma {:induction false} RowIsDot(row: Row<real>, split: seq<int>, x: seq<int>, ascale: seq<real>)
    requires Shaped(row, |x|) && |ascale| == Groups(row, |x|) && SplitOf(split, x)
    ensures |split| == |x| && Chain(Exact(), row, split, ascale, |ascale|) == DotTo(row, x, ascale, |x|)
  {
    hide DotTo, Chain, Shaped, Groups, GroupSize;
    WholeRow(row, |x|);
    ChainIsDot(row, split, x, ascale, |ascale|);
  }

  /** Split once, then the single-column kernel: the dot product. */
  method DotExact(row: Row<real>, x: seq<int>, ascale: seq<real>) returns (dot: real)
    requires Shaped(row, |x|) && |ascale| == Groups(row, |x|)
    ensures dot == DotTo(row, x, ascale, |x|)
  {
    assert |x| % 32 == 0 by { WholeRow(row, |x|); }
    hide DotTo, Chain, SplitAt, Shaped, Groups;
    var split := SplitActivation(x);
    dot := DotRow(Exact(), row, split[..], ascale);
    RowIsDot(row, split[..], x, ascale);
  }

  /** The columns of xq are those of x, each one split. */
  ghost predicate SplitColumns(xq: seq<int>, x: seq<int>, n: nat, m: nat) {
    |xq| == |x| == m * n && forall c: nat :: c < m ==> ColumnSplit(xq, x, n, m, c)
  }

  ghost predicate ColumnSplit(xq: seq<int>, x: seq<int>, n: nat, m: nat, c: nat)
    requires |xq| == |x| == m * n && c < m
  {
    ColumnFits(n, c, m);
    SplitOf(Column(xq, n, c), Column(x, n, c))
  }

  /** A cell holds bias plus the dot product of column c. */
  ghost predicate CellIsDot(row: Row<real>, n: nat, x: seq<int>, ascale: seq<real>, bias: real, m: nat, y: seq<real>, at: nat, c: nat)
    requires Shaped(row, n) && |x| == m * n && |ascale| == m * Groups(row, n) && c < m
  {
    ColumnFits(n, c, m);
    ColumnFits(Groups(row, n), c, m);
    ColumnStart(n, c);
    ColumnStart(Groups(row, n), c);
    at < |y| && y[at] == bias + DotTo(row, Column(x, n, c), Column(ascale, Groups(row, n), c), n)
  }

  lemma {:induction false} WrittenIsDot(row: Row<real>, n: nat, xq: seq<int>, x: seq<int>, ascale: seq<real>, m: nat, bias: real,
                                        y: seq<real>, base: nat, ystep: nat, c: nat)
    requires Written(Exact(), row, n, xq, ascale, bias, m, y, base, ystep, c)
    requires Shaped(row, n) && c < m && |xq| == |x| == m * n && |ascale| == m * Groups(row, n) && ColumnSplit(xq, x, n, m, c)
    ensures CellIsDot(row, n, x, ascale, bias, m, y, base + c * ystep, c)
  {
    hide DotTo, Chain, SplitOf, Shaped, Groups;
    ColumnFits(n, c, m);
    ColumnFits(Groups(row, n), c, m);
    ColumnStart(n, c);
    ColumnStart(Groups(row, n), c);
    RowIsDot(row, Column(xq, n, c), Column(x, n, c), Column(ascale, Groups(row, n), c));
  }

  lemma {:induction false} InNoTile(base: nat, ystep: nat, m: nat, i: nat)
    requires forall c: nat :: c < m ==> i != base + c * ystep
    ensures !InTile(base, ystep, 0, m, i)
  {
  }

  /** The tiled kernel on split columns: column c's dot product plus the bias at base + c * ystep, other cells untouched. */
  method BatchExact(row: Row<real>, n: nat, xq: seq<int>, x: seq<int>, ascale: seq<real>, m: nat, bias: real,
                    y: array<real>, base: nat, ystep: nat)
    requires Shaped(row, n) && |ascale| == m * Groups(row, n) && SplitColumns(xq, x, n, m)
    requires ystep > 0 && base + m * ystep <= y.Length + ystep - 1
    modifies y
    ensures forall c: nat :: c < m ==> CellIsDot(row, n, x, ascale, bias, m, y[..], base + c * ystep, c)
    ensures forall i: nat :: i < y.Length && (forall c: nat :: c < m ==> i != base + c * ystep) ==> y[i] == old(y[i])
  {
    hide Shaped, Groups, Written, CellIsDot, ColumnSplit, InTile;
    ghost var log := RowBatch(Exact(), row, n, xq, ascale, m, bias, y, base, ystep);
    forall c: nat | c < m ensures CellIsDot(row, n, x, ascale, bias, m, y[..], base + c * ystep, c) {
      WrittenIsDot(row, n, xq, x, ascale, m, bias, y[..], base, ystep, c);
    }
    forall i: nat | i < y.Length && (forall c: nat :: c < m ==> i != base + c * ystep) ensures y[i] == old(y[i]) {
      InNoTile(base, ystep, m, i);
    }
  }
}
