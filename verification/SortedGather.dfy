/**
 Routing rows to experts: directly, or sorted by expert so that each expert's rows are adjacent,
 and then put back. The expert's own arithmetic is uninterpreted.
 */
module SortedGather {
  import opened Common

  /** order lists every index below n once. */
  predicate Permutation(order: seq<nat>, n: nat) {
    && |order| == n
    && (forall i :: 0 <= i < n ==> order[i] < n)
    && (forall i, j :: 0 <= i < j < n ==> order[i] != order[j])
  }

  /** Any result argsort may return; ties in any order. */
  predicate IsArgsort(keys: seq<nat>, order: seq<nat>) {
    && Permutation(order, |keys|)
    && forall i, j :: 0 <= i < j < |keys| ==> keys[order[i]] <= keys[order[j]]
  }

  predicate Inverse(order: seq<nat>, inv: seq<nat>) {
    && |order| == |inv|
    && forall j :: 0 <= j < |inv| ==> InverseAt(order, inv, j)
  }

  predicate InverseAt(order: seq<nat>, inv: seq<nat>, j: nat)
    requires j < |inv|
  {
    inv[j] < |order| && order[inv[j]] == j
  }

  lemma {:induction false} AtLeastIndex(a: seq<nat>, i: nat)
    requires i < |a| && forall j, k :: 0 <= j < k < |a| ==> a[j] < a[k]
    ensures a[i] >= i
  {
    if i > 0 {
      AtLeastIndex(a, i - 1);
    }
  }

  lemma {:induction false} AtMostIndex(a: seq<nat>, n: nat, i: nat)
    requires i < |a| == n && (forall j, k :: 0 <= j < k < n ==> a[j] < a[k]) && forall j :: 0 <= j < n ==> a[j] < n
    ensures a[i] <= i
    decreases n - i
  {
    if i < n - 1 {
      AtMostIndex(a, n, i + 1);
    }
  }

  /** Sorting the indices of a permutation gives its inverse. */
  lemma {:induction false} ArgsortOfArgsortIsInverse(order: seq<nat>, inv: seq<nat>)
    requires Permutation(order, |order|) && IsArgsort(order, inv)
    ensures Inverse(order, inv)
  {
    var n := |order|;
    var a := seq(n, j requires 0 <= j < n => order[inv[j]]);
    forall j, k | 0 <= j < k < n ensures a[j] < a[k] {
      assert inv[j] != inv[k];
      if inv[j] < inv[k] {
        assert order[inv[j]] != order[inv[k]];
      } else {
        assert order[inv[k]] != order[inv[j]];
      }
    }
    forall j | 0 <= j < n ensures InverseAt(order, inv, j) {
      AtLeastIndex(a, j);
      AtMostIndex(a, n, j);
    }
  }

  // ---- array algebra ----

  predicate Indexes(idx: seq<nat>, n: nat) {
    forall i :: 0 <= i < |idx| ==> idx[i] < n
  }

  function Take<T>(xs: seq<T>, idx: seq<nat>): seq<T>
    requires Indexes(idx, |xs|)
  {
    seq(|idx|, i requires 0 <= i < |idx| => xs[idx[i]])
  }

  function FloorDivide(idx: seq<nat>, k: nat): seq<nat>
    requires k > 0
  {
    seq(|idx|, i requires 0 <= i < |idx| => idx[i] / k)
  }

  predicate Matrix<T>(rows: seq<seq<T>>, a: nat, k: nat) {
    |rows| == a && forall r :: 0 <= r < a ==> |rows[r]| == k
  }

  /** reshape(rows, {A * K}) */
  function Flat<T>(rows: seq<seq<T>>, a: nat, k: nat): seq<T>
    requires Matrix(rows, a, k)
  {
    seq(a * k, j requires 0 <= j < a * k => CellInside(a, k, j); rows[j / k][j % k])
  }

  lemma {:induction false} CellInside(a: nat, k: nat, j: nat)
    requires j < a * k
    ensures k > 0 && j / k < a && j % k < k
  {
    var q := j / k;
    assert q * k <= j;
    assert q >= a ==> q * k >= a * k;
  }

  lemma {:induction false} RowsBelow(r: nat, a: nat, k: nat)
    requires r < a
    ensures r * k + k <= a * k
  {
    assert (r + 1) * k <= a * k;
  }

  lemma {:induction false} CellIndex(a: nat, k: nat, r: nat, c: nat)
    requires r < a && c < k
    ensures r * k + c < a * k && (r * k + c) / k == r && (r * k + c) % k == c
  {
    RowsBelow(r, a, k);
    DivMod(r * k + c, k, r, c);
  }

  /** reshape(flat, {A, K}) */
  function Unflat<T>(flat: seq<T>, a: nat, k: nat): seq<seq<T>>
    requires |flat| == a * k
  {
    seq(a, r requires 0 <= r < a => seq(k, c requires 0 <= c < k => CellIndex(a, k, r, c); flat[r * k + c]))
  }

  // ---- the expert ----

  /** gate, up and down projections of one row by one expert, and the gated product between them. */
  datatype Experts<!X, !M, !Y> = Experts(gate: (X, nat) -> M, up: (X, nat) -> M, gated: (M, M) -> M, down: (M, nat) -> Y)

  /** What one row gets from one expert. */
  function Expert<X, M, Y>(f: Experts<X, M, Y>, x: X, e: nat): Y {
    f.down(f.gated(f.gate(x, e), f.up(x, e)), e)
  }

  /** One gather: row i goes to expert idx[i]. */
  function Gather<X, Y>(f: (X, nat) -> Y, xs: seq<X>, idx: seq<nat>): seq<Y>
    requires |xs| == |idx|
  {
    seq(|xs|, i requires 0 <= i < |xs| => f(xs[i], idx[i]))
  }

  function Pairwise<M>(g: (M, M) -> M, xs: seq<M>, ys: seq<M>): seq<M>
    requires |xs| == |ys|
  {
    seq(|xs|, i requires 0 <= i < |xs| => g(xs[i], ys[i]))
  }

  /** Every (row, choice) by itself: the gather broadcasts a row over its choices. */
  function Direct<X, M, Y>(f: Experts<X, M, Y>, h: seq<X>, topIdx: seq<seq<nat>>, k: nat): seq<seq<Y>>
    requires Matrix(topIdx, |h|, k)
  {
    var a := |h|;
    var gate := seq(a, r requires 0 <= r < a => seq(k, c requires 0 <= c < k => f.gate(h[r], topIdx[r][c])));
    var up := seq(a, r requires 0 <= r < a => seq(k, c requires 0 <= c < k => f.up(h[r], topIdx[r][c])));
    var inner := Pairwise(f.gated, Flat(gate, a, k), Flat(up, a, k));
    Unflat(Gather(f.down, inner, Flat(topIdx, a, k)), a, k)
  }

  /** The rows in the order of their experts. */
  function SortedDown<X, M, Y>(f: Experts<X, M, Y>, h: seq<X>, flatIdx: seq<nat>, k: nat, order: seq<nat>): (r: seq<Y>)
    requires k > 0 && |flatIdx| == |h| * k && Permutation(order, |flatIdx|)
    ensures |r| == |flatIdx|
  {
    RowSelInside(order, |h|, k);
    var rowSel := FloorDivide(order, k);
    var xs, idx := Take(h, rowSel), Take(flatIdx, order);
    var inner := Pairwise(f.gated, Gather(f.gate, xs, idx), Gather(f.up, xs, idx));
    Gather(f.down, inner, idx)
  }

  /** Sorted by expert and put back, with order and inv as argsort returned them. */
  function Sorted<X, M, Y>(f: Experts<X, M, Y>, h: seq<X>, topIdx: seq<seq<nat>>, k: nat, order: seq<nat>, inv: seq<nat>): seq<seq<Y>>
    requires k > 0 && Matrix(topIdx, |h|, k) && IsArgsort(Flat(topIdx, |h|, k), order) && IsArgsort(order, inv)
  {
    Unflat(Take(SortedDown(f, h, Flat(topIdx, |h|, k), k, order), inv), |h|, k)
  }

  lemma {:induction false} RowSelInside(order: seq<nat>, a: nat, k: nat)
    requires k > 0 && Permutation(order, a * k)
    ensures Indexes(FloorDivide(order, k), a)
  {
    forall i | 0 <= i < |order| ensures order[i] / k < a {
      CellInside(a, k, order[i]);
    }
  }

  lemma {:induction false} DirectAt<X, M, Y>(f: Experts<X, M, Y>, h: seq<X>, topIdx: seq<seq<nat>>, k: nat, r: nat, c: nat)
    requires Matrix(topIdx, |h|, k) && r < |h| && c < k
    ensures Matrix(Direct(f, h, topIdx, k), |h|, k)
    ensures Direct(f, h, topIdx, k)[r][c] == Expert(f, h[r], topIdx[r][c])
  {
    CellIndex(|h|, k, r, c);
  }

  /** Position i of the sorted run serves the flat cell order[i]: floor division recovers its row. */
  lemma {:induction false} SortedDownAt<X, M, Y>(f: Experts<X, M, Y>, h: seq<X>, flatIdx: seq<nat>, k: nat, order: seq<nat>, i: nat)
    requires k > 0 && |flatIdx| == |h| * k && Permutation(order, |flatIdx|) && i < |flatIdx|
    ensures order[i] / k < |h|
    ensures SortedDown(f, h, flatIdx, k, order)[i] == Expert(f, h[order[i] / k], flatIdx[order[i]])
  {
    CellInside(|h|, k, order[i]);
    RowSelInside(order, |h|, k);
  }

  lemma {:induction false} SortedAt<X, M, Y>(f: Experts<X, M, Y>, h: seq<X>, topIdx: seq<seq<nat>>, k: nat, order: seq<nat>, inv: seq<nat>, r: nat, c: nat)
    requires Matrix(topIdx, |h|, k) && IsArgsort(Flat(topIdx, |h|, k), order) && IsArgsort(order, inv)
    requires r < |h| && c < k
    ensures Matrix(Sorted(f, h, topIdx, k, order, inv), |h|, k)
    ensures Sorted(f, h, topIdx, k, order, inv)[r][c] == Expert(f, h[r], topIdx[r][c])
  {
    hide SortedDown;
    ArgsortOfArgsortIsInverse(order, inv);
    CellIndex(|h|, k, r, c);
    var j := r * k + c;
    assert InverseAt(order, inv, j);
    SortedDownAt(f, h, Flat(topIdx, |h|, k), k, order, inv[j]);
  }

  /** The two paths give every row and choice the same result, whatever argsort does with ties. */
  lemma {:induction false} SortedIsDirect<X, M, Y>(f: Experts<X, M, Y>, h: seq<X>, topIdx: seq<seq<nat>>, k: nat, order: seq<nat>, inv: seq<nat>)
    requires k > 0 && Matrix(topIdx, |h|, k) && IsArgsort(Flat(topIdx, |h|, k), order) && IsArgsort(order, inv)
    ensures Sorted(f, h, topIdx, k, order, inv) == Direct(f, h, topIdx, k)
  {
    hide SortedDown, IsArgsort, Flat, Gather, Pairwise, Take, Expert;
    var s, d := Sorted(f, h, topIdx, k, order, inv), Direct(f, h, topIdx, k);
    forall r | 0 <= r < |h| ensures s[r] == d[r] {
      forall c | 0 <= c < k ensures s[r][c] == d[r][c] {
        SortedAt(f, h, topIdx, k, order, inv, r, c);
        DirectAt(f, h, topIdx, k, r, c);
      }
    }
  }

  /** The sort threshold decides only which path runs. */
  function Routed<X, M, Y>(f: Experts<X, M, Y>, h: seq<X>, topIdx: seq<seq<nat>>, k: nat, threshold: int,
                           order: seq<nat>, inv: seq<nat>): seq<seq<Y>>
    requires k > 0 && Matrix(topIdx, |h|, k) && IsArgsort(Flat(topIdx, |h|, k), order) && IsArgsort(order, inv)
  {
    if |h| * k >= threshold then Sorted(f, h, topIdx, k, order, inv) else Direct(f, h, topIdx, k)
  }

  lemma {:induction false} ThresholdDoesNotMatter<X, M, Y>(f: Experts<X, M, Y>, h: seq<X>, topIdx: seq<seq<nat>>, k: nat, threshold: int,
                                        order: seq<nat>, inv: seq<nat>, r: nat, c: nat)
    requires Matrix(topIdx, |h|, k) && IsArgsort(Flat(topIdx, |h|, k), order) && IsArgsort(order, inv)
    requires r < |h| && c < k
    ensures Matrix(Routed(f, h, topIdx, k, threshold, order, inv), |h|, k)
    ensures Routed(f, h, topIdx, k, threshold, order, inv)[r][c] == Expert(f, h[r], topIdx[r][c])
  {
    hide Sorted, Direct, IsArgsort, Flat;
    SortedAt(f, h, topIdx, k, order, inv, r, c);
    DirectAt(f, h, topIdx, k, r, c);
  }

  // ---- the choice of experts ----

  predicate SortsReals(keys: seq<real>, order: seq<nat>) {
    && Permutation(order, |keys|)
    && forall i, j :: 0 <= i < j < |keys| ==> keys[order[i]] <= keys[order[j]]
  }

  /** The last k of the argsort are k different experts, and no other expert scores higher than any of them. */
  lemma {:induction false} TopChoices(scores: seq<real>, order: seq<nat>, k: nat, i: nat, e: nat)
    requires SortsReals(scores, order) && k <= |scores| && |scores| - k <= i < |scores|
    requires e < |scores| && e !in order[|scores| - k..]
    ensures order[i] < |scores| && scores[e] <= scores[order[i]]
  {
    var n := |scores|;
    Onto(order, n, e);
    assert Reached(order, n, e);
    var j :| 0 <= j < n && order[j] == e;
    assert forall i :: n - k <= i < n ==> order[i] in order[n - k..];
  }

  function UpTo(n: nat): set<nat> {
    if n == 0 then {} else UpTo(n - 1) + {n - 1}
  }

  lemma {:induction false} UpToHolds(n: nat)
    ensures |UpTo(n)| == n && forall x: nat :: x in UpTo(n) <==> x < n
  {
    if n > 0 {
      UpToHolds(n - 1);
    }
  }

  function TakenUpTo(order: seq<nat>, n: nat): set<nat>
    requires n <= |order|
  {
    if n == 0 then {} else TakenUpTo(order, n - 1) + {order[n - 1]}
  }

  predicate Reached(order: seq<nat>, n: nat, x: nat)
    requires n <= |order|
  {
    exists j :: 0 <= j < n && order[j] == x
  }

  lemma {:induction false} ReachedOneMore(order: seq<nat>, n: nat, x: nat)
    requires 0 < n <= |order|
    ensures Reached(order, n, x) <==> Reached(order, n - 1, x) || order[n - 1] == x
  {
  }

  lemma {:induction false} TakenHolds(order: seq<nat>, n: nat)
    requires n <= |order| && forall i, j :: 0 <= i < j < n ==> order[i] != order[j]
    ensures |TakenUpTo(order, n)| == n
    ensures forall x: nat :: x in TakenUpTo(order, n) <==> Reached(order, n, x)
  {
    hide Reached;
    if n > 0 {
      TakenHolds(order, n - 1);
      forall x: nat ensures x in TakenUpTo(order, n) <==> Reached(order, n, x) {
        ReachedOneMore(order, n, x);
      }
      LastIsNew(order, n);
    } else {
      forall x: nat ensures !Reached(order, 0, x) {
        NothingReached(order, x);
      }
    }
  }

  lemma {:induction false} NothingReached(order: seq<nat>, x: nat)
    ensures !Reached(order, 0, x)
  {
  }

  lemma {:induction false} LastIsNew(order: seq<nat>, n: nat)
    requires 0 < n <= |order| && forall i, j :: 0 <= i < j < n ==> order[i] != order[j]
    ensures !Reached(order, n - 1, order[n - 1])
  {
  }

  lemma {:induction false} ReachedIsBelow(order: seq<nat>, n: nat, x: nat)
    requires Permutation(order, n) && Reached(order, n, x)
    ensures x < n
  {
  }

  /** A permutation reaches every index. */
  lemma {:induction false} Onto(order: seq<nat>, n: nat, e: nat)
    requires Permutation(order, n) && e < n
    ensures Reached(order, n, e)
  {
    hide Reached;
    TakenHolds(order, n);
    UpToHolds(n);
    forall x: nat | x in TakenUpTo(order, n) ensures x in UpTo(n) {
      ReachedIsBelow(order, n, x);
    }
    if e !in TakenUpTo(order, n) {
      SubsetSize(TakenUpTo(order, n) + {e}, UpTo(n));
      assert false;
    }
  }

  lemma {:induction false} SubsetSize(a: set<nat>, b: set<nat>)
    requires a <= b
    ensures |a| <= |b|
    decreases a
  {
    if a != {} {
      var x :| x in a;
      SubsetSize(a - {x}, b - {x});
    }
  }

  /** Whatever path runs, row r and choice c get the chosen expert's down projection of the gated product of its gate and up projections of row r. */
  lemma {:induction false} ResultIs<X, M, Y>(f: Experts<X, M, Y>, h: seq<X>, topIdx: seq<seq<nat>>, k: nat, threshold: int,
                           order: seq<nat>, inv: seq<nat>, r: nat, c: nat)
    requires Matrix(topIdx, |h|, k) && IsArgsort(Flat(topIdx, |h|, k), order) && IsArgsort(order, inv)
    requires r < |h| && c < k
    ensures Matrix(Routed(f, h, topIdx, k, threshold, order, inv), |h|, k)
    ensures var e := topIdx[r][c];
            Routed(f, h, topIdx, k, threshold, order, inv)[r][c] == f.down(f.gated(f.gate(h[r], e), f.up(h[r], e)), e)
  {
    hide Routed, IsArgsort, Flat;
    ThresholdDoesNotMatter(f, h, topIdx, k, threshold, order, inv, r, c);
  }
}
