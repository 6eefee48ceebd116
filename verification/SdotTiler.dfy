/**
 The float half of the SDOT kernels and the 8/4/2/1 column tiler. Float operations are
 uninterpreted, so equal results are equal bits.
 */
module SdotTiler {
  import opened Common
  import opened SdotDot

  datatype Floats<!F> = Floats(zero: F, fromInt: int -> F, mul: (F, F) -> F, add: (F, F) -> F)

  /** The weight format of a row: scales per 64, or sub-codes per 64 under a scale per 256. */
  datatype Row<F> =
    | G64(pr: Bytes, wscale: seq<F>)
    | G256(pr: Bytes, wsuper: seq<F>, subcode: Bytes, third: F)       // third: the constant 1 / 63

  predicate Shaped<F>(row: Row<F>, n: nat) {
    match row
    case G64(pr, wscale) => n % 64 == 0 && 2 * |pr| == n && |wscale| == n / 64
    case G256(pr, wsuper, subcode, _) => n % 256 == 0 && 2 * |pr| == n && |wsuper| == n / 256 && |subcode| == n / 64
  }

  function Groups<F>(row: Row<F>, n: nat): nat {
    if row.G64? then n / 64 else n / 256
  }

  /** The integer of group g for one column of n activations. */
  function GroupInt<F>(row: Row<F>, col: seq<int>, g: nat): int
    requires Shaped(row, |col|) && g < Groups(row, |col|)
  {
    match row
    case G64(pr, _) => Across(GroupDot(pr, col, g))
    case G256(pr, _, subcode, _) => Across(FoldedLanes(pr, subcode, col, g, 4))
  }

  predicate HasGroup<F>(row: Row<F>, g: nat) {
    match row case G64(_, w) => g < |w| case G256(_, w, _, _) => g < |w|
  }

  /** What group g adds, with activation scale a: products from the left. */
  function Term<F>(f: Floats<F>, row: Row<F>, g: nat, int_: int, a: F): F
    requires HasGroup(row, g)
  {
    match row
    case G64(_, wscale) => f.mul(f.mul(f.fromInt(int_), wscale[g]), a)
    case G256(_, wsuper, _, third) => f.mul(f.mul(f.mul(f.fromInt(int_), wsuper[g]), third), a)
  }

  /** The single-column kernel: groups in order, one running float. */
  function Chain<F>(f: Floats<F>, row: Row<F>, col: seq<int>, ascale: seq<F>, n: nat): F
    requires Shaped(row, |col|) && |ascale| == Groups(row, |col|) && n <= |ascale|
  {
    if n == 0 then f.zero
    else f.add(Chain(f, row, col, ascale, n - 1), Term(f, row, n - 1, GroupInt(row, col, n - 1), ascale[n - 1]))
  }

  // ---- columns ----

  /** Column c of the activations of a step, `size` entries each. */
  function Column<T>(xs: seq<T>, size: nat, c: nat): seq<T>
    requires (c + 1) * size <= |xs|
  {
    ColumnStart(size, c);
    xs[c * size..(c + 1) * size]
  }

  lemma {:induction false} ColumnStart(size: nat, c: nat)
    ensures (c + 1) * size == c * size + size
  {
  }

  lemma {:induction false} ColumnFits(size: nat, c: nat, m: nat)
    requires c < m
    ensures (c + 1) * size <= m * size
  {
  }

  /** A stretch of a column, addressed from the start of all columns. */
  lemma {:induction false} ColumnSlice<T>(xs: seq<T>, size: nat, c: nat, lo: nat, hi: nat)
    requires (c + 1) * size <= |xs| && lo <= hi <= size
    ensures c * size + hi <= |xs| && |Column(xs, size, c)| == size
    ensures xs[c * size + lo..c * size + hi] == Column(xs, size, c)[lo..hi]
  {
    ColumnStart(size, c);
    var a, b := c * size, (c + 1) * size;
    assert b == a + size && Column(xs, size, c) == xs[a..b];
    SliceOfSlice(xs, a, b, lo, hi);
  }

  lemma {:induction false} SliceOfSlice<T>(xs: seq<T>, a: nat, b: nat, lo: nat, hi: nat)
    requires a <= b <= |xs| && lo <= hi <= b - a
    ensures xs[a..b][lo..hi] == xs[a + lo..a + hi]
  {
    forall k | 0 <= k < hi - lo ensures xs[a..b][lo..hi][k] == xs[a + lo..a + hi][k] {
      assert xs[a..b][lo..hi][k] == xs[a..b][lo + k] == xs[a + lo + k];
    }
  }

  /** M columns of activations and of their scales. */
  ghost predicate Columns<F>(row: Row<F>, n: nat, xq: seq<int>, ascale: seq<F>, m: nat) {
    Shaped(row, n) && |xq| == m * n && |ascale| == m * Groups(row, n)
  }

  /** What the single-column kernel gives for column c, with the bias added. */
  function ColumnResult<F>(f: Floats<F>, row: Row<F>, n: nat, xq: seq<int>, ascale: seq<F>, bias: F, c: nat): F
    requires Shaped(row, n) && (c + 1) * n <= |xq| && (c + 1) * Groups(row, n) <= |ascale|
  {
    ColumnStart(n, c);
    ColumnStart(Groups(row, n), c);
    f.add(bias, Chain(f, row, Column(xq, n, c), Column(ascale, Groups(row, n), c), Groups(row, n)))
  }

  // ---- one row, one column ----

  method GroupSum64(pr: Bytes, col: seq<int>, g: nat) returns (v: Lanes)
    requires 32 * g + 32 <= |pr| && 64 * g + 64 <= |col|
    ensures v == GroupDot(pr, col, g)
  {
    hide VDot;
    v := ZERO;
    ghost var first := ChunkDot(ZERO, pr, col, 2 * g);
    for b := 0 to 2
      invariant v == if b == 0 then ZERO else if b == 1 then first else ChunkDot(first, pr, col, 2 * g + 1)
    {
      var lo, hi := LowNibbles(pr, 32 * g + 16 * b), HighNibbles(pr, 32 * g + 16 * b);
      var at := 64 * g + 32 * b;
      v := VDot(v, lo, col[at..at + 16]);
      v := VDot(v, hi, col[at + 16..at + 32]);
    }
  }

  /** A group of either format; the four groups of a subfold group in the V form. */
  method GroupSum<F>(row: Row<F>, col: seq<int>, g: nat) returns (s: int)
    requires Shaped(row, |col|) && g < Groups(row, |col|)
    ensures s == GroupInt(row, col, g)
  {
    hide GroupDot, MulAdd;
    match row {
      case G64(pr, _) =>
        var v := GroupSum64(pr, col, g);
        s := Across(v);
      case G256(pr, _, subcode, _) =>
        var combined := ZERO;
        for sub := 0 to 4
          invariant combined == FoldedLanes(pr, subcode, col, g, sub)
        {
          var v := GroupSum64(pr, col, 4 * g + sub);
          combined := MulAdd(combined, v, subcode[4 * g + sub]);
        }
        s := Across(combined);
    }
  }

  /** q4_dot_sdot_row and q4_dot_sdot_row_g256sf_v. */
  method DotRow<F>(f: Floats<F>, row: Row<F>, col: seq<int>, ascale: seq<F>) returns (acc: F)
    requires Shaped(row, |col|) && |ascale| == Groups(row, |col|)
    ensures acc == Chain(f, row, col, ascale, |ascale|)
  {
    hide GroupInt, Term;
    acc := f.zero;
    for g := 0 to |ascale|
      invariant acc == Chain(f, row, col, ascale, g)
    {
      var s := GroupSum(row, col, g);
      acc := f.add(acc, Term(f, row, g, s, ascale[g]));
    }
  }

  // ---- the integers of a tile ----

  /** Lanes of group g after its first b chunks. */
  function GroupPrefix(pr: Bytes, col: seq<int>, g: nat, b: nat): Lanes
    requires 32 * g + 32 <= |pr| && 64 * g + 64 <= |col| && b <= 2
  {
    if b == 0 then ZERO else ChunkDot(GroupPrefix(pr, col, g, b - 1), pr, col, 2 * g + b - 1)
  }

  lemma {:induction false} GroupPrefixEnds(pr: Bytes, col: seq<int>, g: nat)
    requires 32 * g + 32 <= |pr| && 64 * g + 64 <= |col|
    ensures GroupPrefix(pr, col, g, 2) == GroupDot(pr, col, g)
  {
    hide ChunkDot;
    assert GroupPrefix(pr, col, g, 1) == ChunkDot(ZERO, pr, col, 2 * g);
  }

  /** ac[c] holds the first b chunks of group g for column c0 + c. */
  ghost predicate LanesHold(pr: Bytes, n: nat, xq: seq<int>, m: nat, c0: nat, ac: seq<Lanes>, g: nat, b: nat)
    requires 2 * |pr| == n && |xq| == m * n && c0 + |ac| <= m && 32 * g + 32 <= |pr| && b <= 2
  {
    forall c :: 0 <= c < |ac| ==> LaneIs(pr, n, xq, m, c0 + c, ac[c], g, b)
  }

  ghost predicate LaneIs(pr: Bytes, n: nat, xq: seq<int>, m: nat, c: nat, v: Lanes, g: nat, b: nat)
    requires 2 * |pr| == n && |xq| == m * n && c < m && 32 * g + 32 <= |pr| && b <= 2
  {
    ColumnFits(n, c, m);
    ColumnStart(n, c);
    v == GroupPrefix(pr, Column(xq, n, c), g, b)
  }

  /** One chunk for one column: the sixteen low and the sixteen high nibbles against its 32 activations. */
  method ColumnChunk(pr: Bytes, n: nat, xq: seq<int>, m: nat, c: nat, g: nat, b: nat, lo: seq<int>, hi: seq<int>, acc: Lanes)
      returns (v: Lanes)
    requires 2 * |pr| == n && |xq| == m * n && c < m && 32 * g + 32 <= |pr| && b < 2
    requires lo == LowNibbles(pr, 32 * g + 16 * b) && hi == HighNibbles(pr, 32 * g + 16 * b)
    requires |lo| == 16 && |hi| == 16
    requires LaneIs(pr, n, xq, m, c, acc, g, b)
    ensures LaneIs(pr, n, xq, m, c, v, g, b + 1)
  {
    hide VDot, LowNibbles, HighNibbles;
    ColumnFits(n, c, m);
    ColumnStart(n, c);
    ghost var col := Column(xq, n, c);
    var sp := c * n + 64 * g + 32 * b;
    ColumnSlice(xq, n, c, 64 * g + 32 * b, 64 * g + 32 * b + 16);
    ColumnSlice(xq, n, c, 64 * g + 32 * b + 16, 64 * g + 32 * b + 32);
    v := VDot(acc, lo, xq[sp..sp + 16]);
    v := VDot(v, hi, xq[sp + 16..sp + 32]);
    assert v == ChunkDot(acc, pr, col, 2 * g + b);
  }

  /**
   One group of 64 for mc columns: every chunk of weights is unpacked once and multiplied into
   the accumulator of each column.
   */
  method TileLanes(pr: Bytes, n: nat, xq: seq<int>, m: nat, c0: nat, mc: nat, g: nat) returns (ac: seq<Lanes>)
    requires 2 * |pr| == n && |xq| == m * n && c0 + mc <= m && 32 * g + 32 <= |pr|
    ensures |ac| == mc && LanesHold(pr, n, xq, m, c0, ac, g, 2)
  {
    hide ChunkDot;
    ac := seq(mc, _ => ZERO);
    for b := 0 to 2
      invariant |ac| == mc && LanesHold(pr, n, xq, m, c0, ac, g, b)
    {
      var lo, hi := LowNibbles(pr, 32 * g + 16 * b), HighNibbles(pr, 32 * g + 16 * b);
      for c := 0 to mc
        invariant |ac| == mc
        invariant forall d :: 0 <= d < c ==> LaneIs(pr, n, xq, m, c0 + d, ac[d], g, b + 1)
        invariant forall d :: c <= d < mc ==> LaneIs(pr, n, xq, m, c0 + d, ac[d], g, b)
      {
        hide LaneIs, LowNibbles, HighNibbles;
        var v := ColumnChunk(pr, n, xq, m, c0 + c, g, b, lo, hi, ac[c]);
        ac := ac[c := v];
      }
    }
  }

  /** combined[c] holds the first `sub` groups of 64 of group g, each scaled by its sub-code. */
  ghost predicate FoldsHold(pr: Bytes, subcode: Bytes, n: nat, xq: seq<int>, m: nat, c0: nat, combined: seq<Lanes>, g: nat, sub: nat)
    requires 2 * |pr| == n && |xq| == m * n && c0 + |combined| <= m && 128 * g + 128 <= |pr| && 4 * g + 4 <= |subcode| && sub <= 4
  {
    forall c :: 0 <= c < |combined| ==> FoldIs(pr, subcode, n, xq, m, c0 + c, combined[c], g, sub)
  }

  ghost predicate FoldIs(pr: Bytes, subcode: Bytes, n: nat, xq: seq<int>, m: nat, c: nat, v: Lanes, g: nat, sub: nat)
    requires 2 * |pr| == n && |xq| == m * n && c < m && 128 * g + 128 <= |pr| && 4 * g + 4 <= |subcode| && sub <= 4
  {
    ColumnFits(n, c, m);
    ColumnStart(n, c);
    v == FoldedLanes(pr, subcode, Column(xq, n, c), g, sub)
  }

  lemma {:induction false} FoldNext(pr: Bytes, subcode: Bytes, n: nat, xq: seq<int>, m: nat, c: nat, v: Lanes, lanes: Lanes, g: nat, sub: nat)
    requires 2 * |pr| == n && |xq| == m * n && c < m && 128 * g + 128 <= |pr| && 4 * g + 4 <= |subcode| && sub < 4
    requires FoldIs(pr, subcode, n, xq, m, c, v, g, sub) && LaneIs(pr, n, xq, m, c, lanes, 4 * g + sub, 2)
    ensures FoldIs(pr, subcode, n, xq, m, c, MulAdd(v, lanes, subcode[4 * g + sub]), g, sub + 1)
  {
    hide GroupDot, MulAdd, GroupPrefix;
    ColumnFits(n, c, m);
    ColumnStart(n, c);
    GroupPrefixEnds(pr, Column(xq, n, c), 4 * g + sub);
  }

  lemma {:induction false} FoldsStart(pr: Bytes, subcode: Bytes, n: nat, xq: seq<int>, m: nat, c0: nat, combined: seq<Lanes>, g: nat)
    requires 2 * |pr| == n && |xq| == m * n && c0 + |combined| <= m && 128 * g + 128 <= |pr| && 4 * g + 4 <= |subcode|
    requires forall c :: 0 <= c < |combined| ==> combined[c] == ZERO
    ensures FoldsHold(pr, subcode, n, xq, m, c0, combined, g, 0)
  {
    hide GroupDot, MulAdd;
  }

  /** The V form of a group of 256 for mc columns: all four lane sums are scaled and added before any is reduced. */
  method TileFolds(pr: Bytes, subcode: Bytes, n: nat, xq: seq<int>, m: nat, c0: nat, mc: nat, g: nat) returns (combined: seq<Lanes>)
    requires 2 * |pr| == n && |xq| == m * n && c0 + mc <= m && 128 * g + 128 <= |pr| && 4 * g + 4 <= |subcode|
    ensures |combined| == mc && FoldsHold(pr, subcode, n, xq, m, c0, combined, g, 4)
  {
    hide FoldIs, MulAdd, LaneIs;
    combined := seq(mc, _ => ZERO);
    FoldsStart(pr, subcode, n, xq, m, c0, combined, g);
    for sub := 0 to 4
      invariant |combined| == mc && FoldsHold(pr, subcode, n, xq, m, c0, combined, g, sub)
    {
      var ac := TileLanes(pr, n, xq, m, c0, mc, 4 * g + sub);
      var sc := subcode[4 * g + sub];
      for c := 0 to mc
        invariant |combined| == mc
        invariant forall d :: 0 <= d < c ==> FoldIs(pr, subcode, n, xq, m, c0 + d, combined[d], g, sub + 1)
        invariant forall d :: c <= d < mc ==> FoldIs(pr, subcode, n, xq, m, c0 + d, combined[d], g, sub)
      {
        FoldNext(pr, subcode, n, xq, m, c0 + c, combined[c], ac[c], g, sub);
        combined := combined[c := MulAdd(combined[c], ac[c], sc)];
      }
    }
  }

  /** s is the integer of group g for column c. */
  ghost predicate IntIs<F>(row: Row<F>, n: nat, xq: seq<int>, m: nat, c: nat, s: int, g: nat)
    requires Shaped(row, n) && |xq| == m * n && c < m && g < Groups(row, n)
  {
    ColumnFits(n, c, m);
    ColumnStart(n, c);
    s == GroupInt(row, Column(xq, n, c), g)
  }

  /** The reduced integers of group g for mc columns. */
  method TileInts<F>(row: Row<F>, n: nat, xq: seq<int>, m: nat, c0: nat, mc: nat, g: nat) returns (ints: seq<int>)
    requires Shaped(row, n) && |xq| == m * n && c0 + mc <= m && g < Groups(row, n)
    ensures |ints| == mc && forall c :: 0 <= c < mc ==> IntIs(row, n, xq, m, c0 + c, ints[c], g)
  {
    hide LaneIs, FoldIs, GroupInt, Across;
    GroupInside(row, n, g);
    match row {
      case G64(pr, _) =>
        var ac := TileLanes(pr, n, xq, m, c0, mc, g);
        ints := seq(mc, c requires 0 <= c < mc => Across(ac[c]));
        forall c | 0 <= c < mc ensures IntIs(row, n, xq, m, c0 + c, ints[c], g) {
          IntOfLanes(row, n, xq, m, c0 + c, ac[c], g);
        }
      case G256(pr, _, subcode, _) =>
        var combined := TileFolds(pr, subcode, n, xq, m, c0, mc, g);
        ints := seq(mc, c requires 0 <= c < mc => Across(combined[c]));
        forall c | 0 <= c < mc ensures IntIs(row, n, xq, m, c0 + c, ints[c], g) {
          IntOfFold(row, n, xq, m, c0 + c, combined[c], g);
        }
    }
  }

  lemma {:induction false} GroupInside<F>(row: Row<F>, n: nat, g: nat)
    requires Shaped(row, n) && g < Groups(row, n)
    ensures match row
            case G64(pr, _) => 32 * g + 32 <= |pr|
            case G256(pr, _, subcode, _) => 128 * g + 128 <= |pr| && 4 * g + 4 <= |subcode|
    ensures HasGroup(row, g)
  {
  }

  lemma {:induction false} IntOfLanes<F>(row: Row<F>, n: nat, xq: seq<int>, m: nat, c: nat, v: Lanes, g: nat)
    requires Shaped(row, n) && row.G64? && |xq| == m * n && c < m && g < Groups(row, n) && 32 * g + 32 <= |row.pr|
    requires LaneIs(row.pr, n, xq, m, c, v, g, 2)
    ensures IntIs(row, n, xq, m, c, Across(v), g)
  {
    hide GroupDot, GroupPrefix, Across;
    ColumnFits(n, c, m);
    ColumnStart(n, c);
    GroupPrefixEnds(row.pr, Column(xq, n, c), g);
  }

  lemma {:induction false} IntOfFold<F>(row: Row<F>, n: nat, xq: seq<int>, m: nat, c: nat, v: Lanes, g: nat)
    requires Shaped(row, n) && row.G256? && |xq| == m * n && c < m && g < Groups(row, n)
    requires 128 * g + 128 <= |row.pr| && 4 * g + 4 <= |row.subcode|
    requires FoldIs(row.pr, row.subcode, n, xq, m, c, v, g, 4)
    ensures IntIs(row, n, xq, m, c, Across(v), g)
  {
    hide FoldedLanes, Across;
    ColumnFits(n, c, m);
    ColumnStart(n, c);
  }

  // ---- a tile of columns ----

  /** Columns c0 to c0 + mc at once, every column with its own accumulator. `log` lists the cells written, in order. */
  method Tile<F(0)>(f: Floats<F>, row: Row<F>, n: nat, xq: seq<int>, ascale: seq<F>, m: nat, bias: F,
                    y: array<F>, base: nat, ystep: nat, c0: nat, mc: nat, ghost log: seq<int>) returns (ghost log': seq<int>)
    requires Columns(row, n, xq, ascale, m) && c0 + mc <= m && ystep > 0 && base + m * ystep <= y.Length + ystep - 1
    modifies y
    ensures forall c :: c0 <= c < c0 + mc ==> Written(f, row, n, xq, ascale, bias, m, y[..], base, ystep, c)
    ensures forall i :: 0 <= i < y.Length && !InTile(base, ystep, c0, mc, i) ==> y[i] == old(y[i])
    ensures log' == log + Cells(base, ystep, c0, mc)
  {
    hide GroupInt, Term, Written, Chain, Cell;
    var ng := Groups(row, n);
    var facc := seq(mc, _ => f.zero);
    ChainsStart(f, row, n, xq, ascale, m, c0, mc, facc);
    for g := 0 to ng
      invariant |facc| == mc && Chains(f, row, n, xq, ascale, m, c0, facc, g) && y[..] == old(y[..])
    {
      facc := TileGroup(f, row, n, xq, ascale, m, c0, facc, g);
    }
    log' := log;
    for c := 0 to mc
      invariant forall d :: c0 <= d < c0 + c ==> Written(f, row, n, xq, ascale, bias, m, y[..], base, ystep, d)
      invariant forall i :: 0 <= i < y.Length && !InTile(base, ystep, c0, mc, i) ==> y[i] == old(y[i])
      invariant log' == log + Cells(base, ystep, c0, c)
    {
      log' := StoreColumn(f, row, n, xq, ascale, m, bias, y, base, ystep, c0, mc, c, facc, log');
      assert Cells(base, ystep, c0, c + 1) == Cells(base, ystep, c0, c) + [Cell(base, ystep, c0 + c)];
    }
  }

  /** y's cell of column c. */
  function Cell(base: nat, ystep: nat, c: nat): nat {
    base + c * ystep
  }

  /** The cells of columns c0 to c0 + mc, in order. */
  ghost function Cells(base: nat, ystep: nat, c0: nat, mc: nat): seq<int> {
    seq(mc, c requires 0 <= c < mc => Cell(base, ystep, c0 + c))
  }

  predicate InTile(base: nat, ystep: nat, c0: nat, mc: nat, i: int) {
    exists c :: c0 <= c < c0 + mc && i == Cell(base, ystep, c)
  }

  ghost predicate Written<F>(f: Floats<F>, row: Row<F>, n: nat, xq: seq<int>, ascale: seq<F>, bias: F, m: nat,
                             y: seq<F>, base: nat, ystep: nat, c: nat)
  {
    && Columns(row, n, xq, ascale, m) && c < m && Cell(base, ystep, c) < |y|
    && (ColumnFits(n, c, m); ColumnFits(Groups(row, n), c, m);
        y[Cell(base, ystep, c)] == ColumnResult(f, row, n, xq, ascale, bias, c))
  }

  /** facc[c] is the chain of column c0 + c up to group g. */
  ghost predicate Chains<F>(f: Floats<F>, row: Row<F>, n: nat, xq: seq<int>, ascale: seq<F>, m: nat, c0: nat, facc: seq<F>, g: nat)
    requires Columns(row, n, xq, ascale, m) && c0 + |facc| <= m && g <= Groups(row, n)
  {
    forall c :: 0 <= c < |facc| ==> facc[c] == ChainOf(f, row, n, xq, ascale, m, c0 + c, g)
  }

  ghost function ChainOf<F>(f: Floats<F>, row: Row<F>, n: nat, xq: seq<int>, ascale: seq<F>, m: nat, c: nat, g: nat): F
    requires Columns(row, n, xq, ascale, m) && c < m && g <= Groups(row, n)
  {
    ColumnFits(n, c, m);
    ColumnFits(Groups(row, n), c, m);
    ColumnStart(n, c);
    ColumnStart(Groups(row, n), c);
    Chain(f, row, Column(xq, n, c), Column(ascale, Groups(row, n), c), g)
  }

  lemma {:induction false} ChainsStart<F>(f: Floats<F>, row: Row<F>, n: nat, xq: seq<int>, ascale: seq<F>, m: nat, c0: nat, mc: nat, facc: seq<F>)
    requires Columns(row, n, xq, ascale, m) && c0 + mc <= m && |facc| == mc && forall c :: 0 <= c < mc ==> facc[c] == f.zero
    ensures Chains(f, row, n, xq, ascale, m, c0, facc, 0)
  {
  }

  /** One group: the integers of all columns, then one term added to each column's float. */
  method TileGroup<F>(f: Floats<F>, row: Row<F>, n: nat, xq: seq<int>, ascale: seq<F>, m: nat, c0: nat, facc: seq<F>, g: nat)
    returns (next: seq<F>)
    requires Columns(row, n, xq, ascale, m) && c0 + |facc| <= m && g < Groups(row, n)
    requires Chains(f, row, n, xq, ascale, m, c0, facc, g)
    ensures |next| == |facc| && Chains(f, row, n, xq, ascale, m, c0, next, g + 1)
  {
    hide GroupInt, Term, IntIs, HasGroup;
    var ng := Groups(row, n);
    assert |ascale| == m * ng && HasGroup(row, g) by {
      GroupInside(row, n, g);
    }
    var ints := TileInts(row, n, xq, m, c0, |facc|, g);
    next := facc;
    for c := 0 to |facc|
      invariant |next| == |facc|
      invariant forall d :: c <= d < |facc| ==> next[d] == facc[d]
      invariant forall d :: 0 <= d < c ==> next[d] == ChainOf(f, row, n, xq, ascale, m, c0 + d, g + 1)
    {
      hide Columns, Shaped, Groups, ChainOf;
      ColumnFits(ng, c0 + c, m);
      ColumnStart(ng, c0 + c);
      var at := (c0 + c) * ng + g;
      NextInChain(f, row, n, xq, ascale, m, c0 + c, g, ng, at, ints[c]);
      next := next[c := f.add(next[c], Term(f, row, g, ints[c], ascale[at]))];
    }
  }

  /** A column's chain grows by the term of its own integer and scale. */
  lemma {:induction false} NextInChain<F>(f: Floats<F>, row: Row<F>, n: nat, xq: seq<int>, ascale: seq<F>, m: nat, c: nat, g: nat,
                                          ng: nat, at: nat, s: int)
    requires Columns(row, n, xq, ascale, m) && c < m && g < ng == Groups(row, n)
    requires IntIs(row, n, xq, m, c, s, g)
    requires HasGroup(row, g) && at == c * ng + g < |ascale|
    ensures ChainOf(f, row, n, xq, ascale, m, c, g + 1)
         == f.add(ChainOf(f, row, n, xq, ascale, m, c, g), Term(f, row, g, s, ascale[at]))
  {
    hide GroupInt, Term, Groups, Shaped, HasGroup, Chain;
    ColumnFits(n, c, m);
    ColumnFits(ng, c, m);
    ColumnStart(n, c);
    ColumnStart(ng, c);
    var col, scale := Column(xq, n, c), Column(ascale, ng, c);
    assert |col| == n && |scale| == ng;
    ChainStep(f, row, col, scale, g);
    assert scale[g] == ascale[at];
  }

  lemma {:induction false} ChainStep<F>(f: Floats<F>, row: Row<F>, col: seq<int>, ascale: seq<F>, g: nat)
    requires Shaped(row, |col|) && g < |ascale| == Groups(row, |col|) && HasGroup(row, g)
    ensures Chain(f, row, col, ascale, g + 1) == f.add(Chain(f, row, col, ascale, g), Term(f, row, g, GroupInt(row, col, g), ascale[g]))
  {
    hide GroupInt, Term;
  }

  lemma {:induction false} CellOrder(base: nat, ystep: nat, c: nat, d: nat)
    requires ystep > 0 && c < d
    ensures Cell(base, ystep, c) < Cell(base, ystep, d)
  {
    assert (c + 1) * ystep <= d * ystep;
  }

  lemma {:induction false} CellFits(base: nat, ystep: nat, c: nat, m: nat, size: nat)
    requires ystep > 0 && c < m && base + m * ystep <= size + ystep - 1
    ensures Cell(base, ystep, c) < size
  {
    assert (c + 1) * ystep <= m * ystep;
  }

  /** The one place where a kernel writes its output. */
  method Store<F>(y: array<F>, at: nat, v: F, ghost log: seq<int>) returns (ghost log': seq<int>)
    requires at < y.Length
    modifies y
    ensures y[..] == old(y[..])[at := v] && log' == log + [at]
  {
    y[at] := v;
    log' := log + [at];
  }

  method StoreColumn<F>(f: Floats<F>, row: Row<F>, n: nat, xq: seq<int>, ascale: seq<F>, m: nat, bias: F, y: array<F>,
                        base: nat, ystep: nat, c0: nat, mc: nat, c: nat, facc: seq<F>, ghost log: seq<int>) returns (ghost log': seq<int>)
    requires Columns(row, n, xq, ascale, m) && c0 + mc <= m && ystep > 0 && base + m * ystep <= y.Length + ystep - 1
    requires c < mc == |facc| && Chains(f, row, n, xq, ascale, m, c0, facc, Groups(row, n))
    requires forall d :: c0 <= d < c0 + c ==> Written(f, row, n, xq, ascale, bias, m, y[..], base, ystep, d)
    modifies y
    ensures forall d :: c0 <= d < c0 + c + 1 ==> Written(f, row, n, xq, ascale, bias, m, y[..], base, ystep, d)
    ensures forall i :: 0 <= i < y.Length && !InTile(base, ystep, c0, mc, i) ==> y[i] == old(y[i])
    ensures log' == log + [Cell(base, ystep, c0 + c)]
  {
    hide Chain, Cell, Columns, Groups;
    CellFits(base, ystep, c0 + c, m, y.Length);
    ghost var before := y[..];
    var v := f.add(bias, facc[c]);
    var at := Cell(base, ystep, c0 + c);
    log' := Store(y, at, v, log);
    assert forall i :: 0 <= i < y.Length ==> y[i] == y[..][i] == (if i == at then v else before[i]);
    assert InTile(base, ystep, c0, mc, at);
    forall d | c0 <= d < c0 + c + 1 ensures Written(f, row, n, xq, ascale, bias, m, y[..], base, ystep, d) {
      if d < c0 + c {
        assert Written(f, row, n, xq, ascale, bias, m, before, base, ystep, d);
        CellOrder(base, ystep, d, c0 + c);
      }
    }
  }

  // ---- the dispatcher ----

  /** Cells that belong to no column of the step stay as they are. */
  predicate OnlyColumns<F(==)>(a: seq<F>, b: seq<F>, base: nat, ystep: nat, c: nat) {
    |a| == |b| && forall i :: 0 <= i < |a| && !InTile(base, ystep, 0, c, i) ==> a[i] == b[i]
  }

  /**
   q4_sdot_row_batch and its g256sf twin: greedy tiles of 8, 4, 2, 1. `log` lists the cells that
   are stored to, in order: the cell of each column 0..M, once.
   */
  method RowBatch<F(0)>(f: Floats<F>, row: Row<F>, n: nat, xq: seq<int>, ascale: seq<F>, m: nat, bias: F,
                        y: array<F>, base: nat, ystep: nat) returns (ghost log: seq<int>)
    requires Columns(row, n, xq, ascale, m) && ystep > 0 && base + m * ystep <= y.Length + ystep - 1
    modifies y
    ensures forall c :: 0 <= c < m ==> Written(f, row, n, xq, ascale, bias, m, y[..], base, ystep, c)
    ensures forall i :: 0 <= i < y.Length && !InTile(base, ystep, 0, m, i) ==> y[i] == old(y[i])
    ensures log == Cells(base, ystep, 0, m)
    ensures forall i, j :: 0 <= i < j < |log| ==> log[i] != log[j]
  {
    hide Written, Columns, InTile, Cell;
    var c0 := 0;
    log := [];
    var size := 8;
    while size > 0
      invariant size == 8 || size == 4 || size == 2 || size == 1 || size == 0
      invariant c0 <= m && (size == 4 ==> m - c0 < 8) && (size == 2 ==> m - c0 < 4) && (size == 1 ==> m - c0 < 2) && (size == 0 ==> c0 == m)
      invariant forall c :: 0 <= c < c0 ==> Written(f, row, n, xq, ascale, bias, m, y[..], base, ystep, c)
      invariant OnlyColumns(y[..], old(y[..]), base, ystep, c0)
      invariant log == Cells(base, ystep, 0, c0)
    {
      while m - c0 >= size
        invariant c0 <= m
        invariant forall c :: 0 <= c < c0 ==> Written(f, row, n, xq, ascale, bias, m, y[..], base, ystep, c)
        invariant OnlyColumns(y[..], old(y[..]), base, ystep, c0)
        invariant log == Cells(base, ystep, 0, c0)
        decreases m - c0
      {
        ghost var before := y[..];
        log := Tile(f, row, n, xq, ascale, m, bias, y, base, ystep, c0, size, log);
        TileKeepsEarlier(f, row, n, xq, ascale, bias, m, before, y[..], base, ystep, c0, size);
        StillOnlyColumns(y[..], before, old(y[..]), base, ystep, c0, size);
        assert Cells(base, ystep, 0, c0 + size) == Cells(base, ystep, 0, c0) + Cells(base, ystep, c0, size);
        c0 := c0 + size;
      }
      size := size / 2;
    }
    forall i, j | 0 <= i < j < |log| ensures log[i] != log[j] {
      CellOrder(base, ystep, i, j);
    }
  }

  lemma {:induction false} TileKeepsEarlier<F>(f: Floats<F>, row: Row<F>, n: nat, xq: seq<int>, ascale: seq<F>, bias: F, m: nat,
                            before: seq<F>, after: seq<F>, base: nat, ystep: nat, c0: nat, mc: nat)
    requires |after| == |before| && ystep > 0
    requires forall i :: 0 <= i < |after| && !InTile(base, ystep, c0, mc, i) ==> after[i] == before[i]
    requires forall c :: 0 <= c < c0 ==> Written(f, row, n, xq, ascale, bias, m, before, base, ystep, c)
    ensures forall c :: 0 <= c < c0 ==> Written(f, row, n, xq, ascale, bias, m, after, base, ystep, c)
  {
    hide Columns, ColumnResult, Cell;
    forall c | 0 <= c < c0 ensures Written(f, row, n, xq, ascale, bias, m, after, base, ystep, c) {
      assert Written(f, row, n, xq, ascale, bias, m, before, base, ystep, c);
      if InTile(base, ystep, c0, mc, Cell(base, ystep, c)) {
        var d :| c0 <= d < c0 + mc && Cell(base, ystep, c) == Cell(base, ystep, d);
        CellOrder(base, ystep, c, d);
        assert false;
      }
    }
  }

  lemma {:induction false} StillOnlyColumns<F>(after: seq<F>, before: seq<F>, first: seq<F>, base: nat, ystep: nat, c0: nat, mc: nat)
    requires |after| == |before| && OnlyColumns(before, first, base, ystep, c0)
    requires forall i :: 0 <= i < |after| && !InTile(base, ystep, c0, mc, i) ==> after[i] == before[i]
    ensures OnlyColumns(after, first, base, ystep, c0 + mc)
  {
    hide Cell;
    forall i | 0 <= i < |after| && !InTile(base, ystep, 0, c0 + mc, i) ensures after[i] == first[i] {
      assert !InTile(base, ystep, c0, mc, i) && !InTile(base, ystep, 0, c0, i);
    }
  }
}
