/**
 What byte-pair merging is meant to compute, independent of how the tokenizer does it:
 repeatedly merge the adjacent pair of lowest rank, leftmost first, until no adjacent
 pair has a rank.
 */
module GreedyMerge {
  import opened Common

  const SPACE: Byte := 0x20

  /** Size of the scratch key the tokenizer builds for one merge-table lookup. */
  const KEY_BUFFER := 512

  /** Rank of the pair (l, r): the index of "l r" in the merge list, if it fits the key buffer and a C int. */
  function Rank(merges: map<Bytes, nat>, l: Bytes, r: Bytes): Option<nat> {
    var key := l + [SPACE] + r;
    if |l| + 1 + |r| < KEY_BUFFER && key in merges && merges[key] < 0x8000_0000 then Some(merges[key]) else None
  }

  function PairRank(merges: map<Bytes, nat>, ps: seq<Bytes>, k: int): Option<nat> {
    if 0 <= k < |ps| - 1 then Rank(merges, ps[k], ps[k + 1]) else None
  }

  /** Pair k goes before pair j: a lower rank, or the same rank and not further right. */
  predicate Beats(merges: map<Bytes, nat>, ps: seq<Bytes>, k: nat, j: nat) {
    var rk, rj := PairRank(merges, ps, k), PairRank(merges, ps, j);
    rk.Some? && (rj.Some? ==> rk.value < rj.value || (rk.value == rj.value && k <= j))
  }

  /** Pair k is the next one to merge. */
  ghost predicate IsBest(merges: map<Bytes, nat>, ps: seq<Bytes>, k: nat) {
    k < |ps| - 1 && forall j :: 0 <= j < |ps| - 1 ==> Beats(merges, ps, k, j)
  }

  lemma {:induction false} NewBest(merges: map<Bytes, nat>, ps: seq<Bytes>, b: nat, last: nat)
    requires PairRank(merges, ps, b).Some? && PairRank(merges, ps, last).Some? && b < last
    requires !Beats(merges, ps, b, last) && forall j :: 0 <= j < last ==> Beats(merges, ps, b, j)
    ensures forall j :: 0 <= j <= last ==> Beats(merges, ps, last, j)
  {
    forall j | 0 <= j <= last
      ensures Beats(merges, ps, last, j)
    {
      assert j < last ==> Beats(merges, ps, b, j);
    }
  }

  /** The pair to merge next among the first `n` pairs. */
  function BestBelow(merges: map<Bytes, nat>, ps: seq<Bytes>, n: nat): (r: Option<nat>)
    requires n == 0 || n < |ps|
    ensures r.None? ==> forall j :: 0 <= j < n ==> PairRank(merges, ps, j).None?
    ensures r.Some? ==> r.value < n && PairRank(merges, ps, r.value).Some?
    ensures r.Some? ==> forall j :: 0 <= j < n ==> Beats(merges, ps, r.value, j)
  {
    if n == 0 then None
    else
      var b := BestBelow(merges, ps, n - 1);
      if PairRank(merges, ps, n - 1).None? || (b.Some? && Beats(merges, ps, b.value, n - 1)) then b
      else
        if b.Some? then NewBest(merges, ps, b.value, n - 1); Some(n - 1) else Some(n - 1)
  }

  function Best(merges: map<Bytes, nat>, ps: seq<Bytes>): (r: Option<nat>)
    ensures r.None? <==> forall j :: 0 <= j < |ps| - 1 ==> PairRank(merges, ps, j).None?
    ensures r.Some? ==> r.value < |ps| - 1 && IsBest(merges, ps, r.value)
  {
    BestBelow(merges, ps, if |ps| == 0 then 0 else |ps| - 1)
  }

  lemma {:induction false} BestIsUnique(merges: map<Bytes, nat>, ps: seq<Bytes>, k: nat)
    requires IsBest(merges, ps, k)
    ensures Best(merges, ps) == Some(k)
  {
    assert Beats(merges, ps, k, k);
    var b := Best(merges, ps).value;
    assert Beats(merges, ps, k, b) && Beats(merges, ps, b, k);
  }

  function MergeAt(ps: seq<Bytes>, k: nat): (qs: seq<Bytes>)
    requires k < |ps| - 1
    ensures |qs| == |ps| - 1
    ensures forall j {:trigger qs[j]} :: 0 <= j < |qs| ==> qs[j] == MergedPiece(ps, k, j)
  {
    seq(|ps| - 1, j requires 0 <= j < |ps| - 1 => MergedPiece(ps, k, j))
  }

  function MergedPiece(ps: seq<Bytes>, k: nat, j: nat): Bytes
    requires k < |ps| - 1 && j < |ps| - 1
  {
    if j < k then ps[j] else if j == k then ps[k] + ps[k + 1] else ps[j + 1]
  }

  /** The pieces the merge rules leave. */
  function Greedy(merges: map<Bytes, nat>, ps: seq<Bytes>): (qs: seq<Bytes>)
    decreases |ps|
  {
    var b := Best(merges, ps);
    if b.None? then ps else Greedy(merges, MergeAt(ps, b.value))
  }

  /** Ranked adjacent pairs among the first `n` pairs. */
  function RankedPairs(merges: map<Bytes, nat>, ps: seq<Bytes>, n: nat): (c: nat)
    ensures c <= n
  {
    if n == 0 then 0
    else RankedPairs(merges, ps, n - 1) + (if PairRank(merges, ps, n - 1).Some? then 1 else 0)
  }

  /** Ranked pairs that a merge at k creates: the merged piece with its left and its right neighbour. */
  function NewPairs(merges: map<Bytes, nat>, ps: seq<Bytes>, k: nat): (c: nat)
    requires k < |ps| - 1
    ensures c <= 2
  {
    var qs := MergeAt(ps, k);
    (if PairRank(merges, qs, k - 1).Some? then 1 else 0) + (if PairRank(merges, qs, k).Some? then 1 else 0)
  }

  /** Candidates the rest of the merging will still add. */
  function LaterAdds(merges: map<Bytes, nat>, ps: seq<Bytes>): (c: nat)
    ensures ps != [] ==> c <= 2 * (|ps| - 1)
    decreases |ps|
  {
    var b := Best(merges, ps);
    if b.None? then 0
    else NewPairs(merges, ps, b.value) + LaterAdds(merges, MergeAt(ps, b.value))
  }

  /** One merge of the greedy rule. */
  lemma {:induction false} GreedyStep(merges: map<Bytes, nat>, ps: seq<Bytes>, k: nat)
    requires Best(merges, ps) == Some(k)
    ensures Greedy(merges, ps) == Greedy(merges, MergeAt(ps, k))
    ensures LaterAdds(merges, ps) == NewPairs(merges, ps, k) + LaterAdds(merges, MergeAt(ps, k))
  {
  }

  /** All candidates that merging the pieces ever adds. */
  function TotalAdds(merges: map<Bytes, nat>, ps: seq<Bytes>): (c: nat)
    ensures ps != [] ==> c <= 3 * (|ps| - 1)
  {
    RankedPairs(merges, ps, if ps == [] then 0 else |ps| - 1) + LaterAdds(merges, ps)
  }

  function Concat(ps: seq<Bytes>): Bytes {
    if ps == [] then [] else ps[0] + Concat(ps[1..])
  }

  lemma {:induction false} MergeKeepsText(ps: seq<Bytes>, k: nat)
    requires k < |ps| - 1
    ensures Concat(MergeAt(ps, k)) == Concat(ps)
  {
    var qs := MergeAt(ps, k);
    if k == 0 {
      assert qs[1..] == ps[1..][1..];
    } else {
      MergeKeepsText(ps[1..], k - 1);
      assert qs[1..] == MergeAt(ps[1..], k - 1);
    }
  }

  /** Merging neither loses nor invents text. */
  lemma {:induction false} GreedyKeepsText(merges: map<Bytes, nat>, ps: seq<Bytes>)
    ensures Concat(Greedy(merges, ps)) == Concat(ps)
    decreases |ps|
  {
    var b := Best(merges, ps);
    if b.Some? {
      MergeKeepsText(ps, b.value);
      GreedyKeepsText(merges, MergeAt(ps, b.value));
    }
  }

  /** The merging stops only when no adjacent pair has a rank. */
  lemma {:induction false} GreedyResult(merges: map<Bytes, nat>, ps: seq<Bytes>)
    ensures var qs := Greedy(merges, ps); forall j :: 0 <= j < |qs| - 1 ==> Rank(merges, qs[j], qs[j + 1]).None?
    ensures ps != [] ==> 1 <= |Greedy(merges, ps)| <= |ps|
    decreases |ps|
  {
    var b := Best(merges, ps);
    if b.None? {
      forall j | 0 <= j < |ps| - 1
        ensures Rank(merges, ps[j], ps[j + 1]).None?
      {
        assert PairRank(merges, ps, j).None?;
      }
    } else {
      GreedyResult(merges, MergeAt(ps, b.value));
    }
  }
}
