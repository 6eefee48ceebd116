/**
 The merge loop of the tokenizer: symbols in a doubly linked list over one word,
 candidate merges in an append-only list, stale candidates recognised only by a size
 check when they are picked. `MergeWord` is proved to compute exactly `MergeSpec`,
 which is stated with the greedy rule alone.
 */
module BpeMerge {
  import opened Common
  import opened GreedyMerge
  import opened StrIntMaps

  const MAX_SYMBOLS := 8192
  const MAX_CANDIDATES := 16384

  /** What an encoding step returns: ids, the -1 of a full buffer, or the fatal exit on inconsistent tables. */
  datatype Outcome = Written(ids: seq<nat>) | Refused | Fatal

  // ---- specification ----

  function CharLen(lead: Byte): (n: nat)
    ensures 1 <= n <= 4
  {
    if 0xC0 <= lead < 0xE0 then 2 else if 0xE0 <= lead < 0xF0 then 3 else if 0xF0 <= lead < 0xF8 then 4 else 1
  }

  /** The word cut after each UTF-8 character, by lead byte alone; a truncated last character is kept short. */
  function SplitChars(w: Bytes): (ps: seq<Bytes>) {
    if w == [] then []
    else
      var c := if CharLen(w[0]) <= |w| then CharLen(w[0]) else |w|;
      [w[..c]] + SplitChars(w[c..])
  }

  lemma {:induction false} SplitCharsText(w: Bytes)
    ensures Concat(SplitChars(w)) == w
    ensures w != [] ==> SplitChars(w) != []
  {
    if w != [] {
      var c := if CharLen(w[0]) <= |w| then CharLen(w[0]) else |w|;
      SplitCharsText(w[c..]);
      assert SplitChars(w)[1..] == SplitChars(w[c..]);
      assert w == w[..c] + w[c..];
    }
  }

  function Prepend(ids: seq<nat>, o: Outcome): Outcome {
    if o.Written? then Written(ids + o.ids) else o
  }

  lemma {:induction false} PrependTwice(ids: seq<nat>, more: seq<nat>, o: Outcome)
    ensures Prepend(ids, Prepend(more, o)) == Prepend(ids + more, o)
  {
    assert o.Written? ==> ids + (more + o.ids) == (ids + more) + o.ids;
  }

  /** Ids of the pieces, in order: a piece without an id is fatal, a piece beyond the cap is refused. */
  function Emit(vocab: map<Bytes, nat>, ps: seq<Bytes>, cap: int): Outcome {
    if ps == [] then Written([])
    else if ps[0] !in vocab then Fatal
    else if cap <= 0 then Refused
    else Prepend([vocab[ps[0]]], Emit(vocab, ps[1..], cap - 1))
  }

  function MergeSpec(merges: map<Bytes, nat>, vocab: map<Bytes, nat>, word: Bytes, cap: int): Outcome {
    var ps := SplitChars(word);
    if |ps| > MAX_SYMBOLS || TotalAdds(merges, ps) > MAX_CANDIDATES then Refused
    else Emit(vocab, Greedy(merges, ps), cap)
  }

  /** The candidate list cannot overflow on a word of at most 5462 characters. */
  lemma {:induction false} ShortWordsNeverOverflow(merges: map<Bytes, nat>, vocab: map<Bytes, nat>, word: Bytes, cap: int)
    requires |SplitChars(word)| <= 5462
    ensures MergeSpec(merges, vocab, word, cap) == Emit(vocab, Greedy(merges, SplitChars(word)), cap)
  {
  }

  // ---- linked symbols and candidates ----

  datatype Symbol = Symbol(prev: int, next: int, start: nat, n: nat)
  datatype Candidate = Candidate(left: int, right: int, rank: nat, size: nat, alive: bool)

  ghost predicate InRange(S: seq<Symbol>, live: seq<nat>) {
    forall k :: 0 <= k < |live| ==> live[k] < |S|
  }

  ghost predicate Increasing(live: seq<nat>) {
    forall j, k :: 0 <= j < k < |live| ==> live[j] < live[k]
  }

  /** Exactly the symbols listed in `live` are non-empty. */
  ghost predicate Occupied(S: seq<Symbol>, live: seq<nat>)
    requires InRange(S, live)
  {
    && (forall k :: 0 <= k < |live| ==> S[live[k]].n > 0)
    && (forall i :: 0 <= i < |S| && S[i].n > 0 ==> i in live)
  }

  /** The symbol at place k of `live` is linked to its neighbours and ends where the next one starts. */
  ghost predicate NodeOk(word: Bytes, S: seq<Symbol>, live: seq<nat>, k: nat)
    requires k < |live| && InRange(S, live)
  {
    var s := S[live[k]];
    && s.prev == (if k == 0 then -1 else live[k - 1])
    && s.next == (if k + 1 == |live| then -1 else live[k + 1])
    && s.start + s.n == (if k + 1 == |live| then |word| else S[live[k + 1]].start)
    && s.start + s.n <= |word|
  }

  ghost predicate StartsIncrease(S: seq<Symbol>) {
    forall i, j :: 0 <= i < j < |S| ==> S[i].start < S[j].start
  }

  /** `live` lists the non-empty symbols in order; they tile the word and the links follow them. */
  ghost predicate Linked(word: Bytes, S: seq<Symbol>, live: seq<nat>) {
    && |live| > 0 && InRange(S, live) && Increasing(live) && Occupied(S, live)
    && StartsIncrease(S)
    && S[live[0]].start == 0
    && (forall k :: 0 <= k < |live| ==> NodeOk(word, S, live, k))
  }

  function Text(word: Bytes, s: Symbol): Bytes {
    if s.start + s.n <= |word| then word[s.start..s.start + s.n] else []
  }

  /** The texts of the live symbols, in order. */
  ghost function Pieces(word: Bytes, S: seq<Symbol>, live: seq<nat>): (ps: seq<Bytes>)
    requires InRange(S, live)
    ensures |ps| == |live|
    ensures forall k {:trigger ps[k]} :: 0 <= k < |live| ==> ps[k] == Text(word, S[live[k]])
  {
    seq(|live|, k requires 0 <= k < |live| => Text(word, S[live[k]]))
  }

  /**
   What stays true of a candidate from the moment it is added: it records the rank of the
   text its two symbols had then, and each of the two has since only grown or become empty.
   */
  ghost predicate CandidateOk(word: Bytes, merges: map<Bytes, nat>, S: seq<Symbol>, c: Candidate) {
    && 0 <= c.left < c.right < |S|
    && var from, mid := S[c.left].start, S[c.right].start;
    && from < mid < from + c.size <= |word|
    && (S[c.left].n > 0 ==> S[c.left].n >= mid - from)
    && (S[c.right].n > 0 ==> S[c.right].n >= from + c.size - mid)
    && Rank(merges, word[from..mid], word[mid..from + c.size]) == Some(c.rank)
  }

  ghost predicate CandidatesOk(word: Bytes, merges: map<Bytes, nat>, S: seq<Symbol>, C: seq<Candidate>) {
    forall i :: 0 <= i < |C| && C[i].alive ==> CandidateOk(word, merges, S, C[i])
  }

  /** The test the loop makes on a picked candidate. */
  predicate SizeCheck(S: seq<Symbol>, c: Candidate)
    requires 0 <= c.left < |S| && 0 <= c.right < |S|
  {
    S[c.left].n != 0 && S[c.right].n != 0 && S[c.left].n + S[c.right].n == c.size
  }

  /** The lazy size check is exact: it accepts precisely the candidates whose two symbols are
      still adjacent and still hold the text they were ranked for. */
  lemma {:induction false} SizeCheckIsExact(word: Bytes, merges: map<Bytes, nat>, S: seq<Symbol>, live: seq<nat>, c: Candidate)
    requires Linked(word, S, live) && CandidateOk(word, merges, S, c)
    ensures SizeCheck(S, c) <==>
      exists k :: 0 <= k < |live| - 1 && live[k] == c.left && live[k + 1] == c.right
        && S[c.left].n == S[c.right].start - S[c.left].start
        && S[c.right].n == S[c.left].start + c.size - S[c.right].start
  {
    if SizeCheck(S, c) {
      var k :| 0 <= k < |live| && live[k] == c.left;
      var m :| 0 <= m < |live| && live[m] == c.right;
      assert k < m;
      assert NodeOk(word, S, live, k);
      assert k + 1 <= m && live[k + 1] <= live[m];
    }
  }

  /** Every ranked adjacent pair among the first `n` has an alive candidate. */
  ghost predicate Covered(word: Bytes, merges: map<Bytes, nat>, S: seq<Symbol>, live: seq<nat>, C: seq<Candidate>, n: nat)
    requires InRange(S, live)
  {
    forall k :: 0 <= k < n && PairRank(merges, Pieces(word, S, live), k).Some? ==> HasCandidate(S, live, C, k)
  }

  ghost predicate HasCandidate(S: seq<Symbol>, live: seq<nat>, C: seq<Candidate>, k: nat)
    requires InRange(S, live)
  {
    k + 1 < |live| && exists i :: 0 <= i < |C| && IsCandidateFor(S, live, C[i], k)
  }

  ghost predicate IsCandidateFor(S: seq<Symbol>, live: seq<nat>, c: Candidate, k: nat)
    requires k + 1 < |live| && InRange(S, live)
  {
    c.alive && c.left == live[k] && c.right == live[k + 1] && c.size == S[live[k]].n + S[live[k + 1]].n
  }

  function AliveCount(C: seq<Candidate>): (n: nat) {
    if C == [] then 0 else AliveCount(C[..|C| - 1]) + (if C[|C| - 1].alive then 1 else 0)
  }

  lemma {:induction false} AliveCountKill(C: seq<Candidate>, i: nat)
    requires i < |C| && C[i].alive
    ensures AliveCount(C[i := C[i].(alive := false)]) == AliveCount(C) - 1
  {
    var D := C[i := C[i].(alive := false)];
    if i < |C| - 1 {
      AliveCountKill(C[..|C| - 1], i);
      assert D[..|C| - 1] == C[..|C| - 1][i := C[i].(alive := false)];
    } else {
      assert D[..|C| - 1] == C[..|C| - 1];
    }
  }

  /** Candidate b is picked: no alive candidate has a lower rank, or the same rank further left. */
  ghost predicate Picked(C: seq<Candidate>, b: nat) {
    && b < |C| && C[b].alive
    && forall i :: 0 <= i < |C| && C[i].alive ==>
         C[b].rank < C[i].rank || (C[b].rank == C[i].rank && C[b].left <= C[i].left)
  }

  /** A live pair's candidate still carries that pair's rank. */
  lemma {:induction false} CandidateRank(word: Bytes, merges: map<Bytes, nat>, S: seq<Symbol>, live: seq<nat>, c: Candidate, k: nat)
    requires InRange(S, live) && k + 1 < |live|
    requires NodeOk(word, S, live, k) && NodeOk(word, S, live, k + 1)
    requires CandidateOk(word, merges, S, c) && IsCandidateFor(S, live, c, k)
    ensures PairRank(merges, Pieces(word, S, live), k) == Some(c.rank)
  {
  }

  /** A candidate that passes the check names exactly the pair the greedy rule merges next. */
  lemma {:induction false} PickedIsBest(word: Bytes, merges: map<Bytes, nat>, S: seq<Symbol>, live: seq<nat>, C: seq<Candidate>, b: nat)
      returns (k: nat)
    requires Linked(word, S, live) && CandidatesOk(word, merges, S, C)
    requires Covered(word, merges, S, live, C, |live| - 1)
    requires Picked(C, b) && SizeCheck(S, C[b])
    ensures k < |live| - 1 && live[k] == C[b].left && live[k + 1] == C[b].right
    ensures Best(merges, Pieces(word, S, live)) == Some(k)
  {
    var ps := Pieces(word, S, live);
    SizeCheckIsExact(word, merges, S, live, C[b]);
    k :| 0 <= k < |live| - 1 && live[k] == C[b].left && live[k + 1] == C[b].right;
    CandidateRank(word, merges, S, live, C[b], k);
    forall j | 0 <= j < |ps| - 1
      ensures Beats(merges, ps, k, j)
    {
      if PairRank(merges, ps, j).Some? {
        PickedBeats(word, merges, S, live, C, b, k, j);
      }
    }
    BestIsUnique(merges, ps, k);
  }

  lemma {:induction false} PickedBeats(word: Bytes, merges: map<Bytes, nat>, S: seq<Symbol>, live: seq<nat>, C: seq<Candidate>, b: nat, k: nat, j: nat)
    requires InRange(S, live) && Increasing(live) && k + 1 < |live| && j + 1 < |live|
    requires NodeOk(word, S, live, j) && NodeOk(word, S, live, j + 1)
    requires CandidatesOk(word, merges, S, C) && HasCandidate(S, live, C, j)
    requires Picked(C, b) && C[b].left == live[k] && PairRank(merges, Pieces(word, S, live), k) == Some(C[b].rank)
    ensures Beats(merges, Pieces(word, S, live), k, j)
  {
    var i :| 0 <= i < |C| && IsCandidateFor(S, live, C[i], j);
    CandidateRank(word, merges, S, live, C[i], j);
  }

  /** A candidate that fails the check is no adjacent pair's candidate: dropping it leaves every pair covered. */
  lemma {:induction false} DropStale(word: Bytes, merges: map<Bytes, nat>, S: seq<Symbol>, live: seq<nat>, C: seq<Candidate>, b: nat)
    requires Linked(word, S, live) && CandidatesOk(word, merges, S, C)
    requires Covered(word, merges, S, live, C, |live| - 1)
    requires b < |C| && C[b].alive && !SizeCheck(S, C[b])
    ensures Covered(word, merges, S, live, C[b := C[b].(alive := false)], |live| - 1)
  {
    var D := C[b := C[b].(alive := false)];
    forall k | 0 <= k < |live| - 1 && PairRank(merges, Pieces(word, S, live), k).Some?
      ensures HasCandidate(S, live, D, k)
    {
      assert HasCandidate(S, live, C, k);
      var i :| 0 <= i < |C| && IsCandidateFor(S, live, C[i], k);
      assert i != b;
      assert D[i] == C[i];
    }
  }

  /** Symbol i after r is merged into l: the size and link updates of one merge, seen at one index. */
  function MergedSymbol(S: seq<Symbol>, l: nat, r: nat, i: nat): Symbol
    requires l < |S| && r < |S| && i < |S|
  {
    var s := S[i];
    Symbol(if i == S[r].next then l else s.prev,
           if i == l then S[r].next else s.next,
           s.start,
           if i == l then S[l].n + S[r].n else if i == r then 0 else s.n)
  }

  function MergeSymbols(S: seq<Symbol>, l: nat, r: nat): (T: seq<Symbol>)
    requires l < |S| && r < |S|
    ensures |T| == |S|
    ensures forall i {:trigger T[i]} :: 0 <= i < |S| ==> T[i] == MergedSymbol(S, l, r, i)
  {
    seq(|S|, i requires 0 <= i < |S| => MergedSymbol(S, l, r, i))
  }

  ghost function RemoveAt(live: seq<nat>, k: nat): (r: seq<nat>)
    requires k < |live|
    ensures |r| == |live| - 1
    ensures forall j {:trigger r[j]} :: 0 <= j < |live| - 1 ==> r[j] == (if j < k then live[j] else live[j + 1])
  {
    seq(|live| - 1, j requires 0 <= j < |live| - 1 => if j < k then live[j] else live[j + 1])
  }

  lemma {:induction false} MergeKeepsOccupied(S: seq<Symbol>, live: seq<nat>, k: nat)
    requires InRange(S, live) && Increasing(live) && Occupied(S, live) && k < |live| - 1
    ensures var T, live' := MergeSymbols(S, live[k], live[k + 1]), RemoveAt(live, k + 1);
      InRange(T, live') && Increasing(live') && Occupied(T, live')
  {
    var T, live' := MergeSymbols(S, live[k], live[k + 1]), RemoveAt(live, k + 1);
    forall i | 0 <= i < |T| && T[i].n > 0
      ensures i in live'
    {
      var j :| 0 <= j < |live| && live[j] == i;
      assert live'[if j <= k then j else j - 1] == i;
    }
  }

  lemma {:induction false} MergeKeepsNode(word: Bytes, S: seq<Symbol>, live: seq<nat>, k: nat, j: nat)
    requires InRange(S, live) && Increasing(live) && k < |live| - 1 && j < |live| - 1
    requires InRange(MergeSymbols(S, live[k], live[k + 1]), RemoveAt(live, k + 1))
    requires NodeOk(word, S, live, k) && NodeOk(word, S, live, k + 1)
    requires NodeOk(word, S, live, if j <= k then j else j + 1)
    ensures NodeOk(word, MergeSymbols(S, live[k], live[k + 1]), RemoveAt(live, k + 1), j)
  {
  }

  lemma {:induction false} MergeKeepsLinks(word: Bytes, S: seq<Symbol>, live: seq<nat>, k: nat)
    requires Linked(word, S, live) && k < |live| - 1
    ensures Linked(word, MergeSymbols(S, live[k], live[k + 1]), RemoveAt(live, k + 1))
  {
    assert NodeOk(word, S, live, k) && NodeOk(word, S, live, k + 1);
    var T, live' := MergeSymbols(S, live[k], live[k + 1]), RemoveAt(live, k + 1);
    MergeKeepsOccupied(S, live, k);
    assert StartsIncrease(T);
    forall j | 0 <= j < |live'|
      ensures NodeOk(word, T, live', j)
    {
      assert NodeOk(word, S, live, if j <= k then j else j + 1);
      MergeKeepsNode(word, S, live, k, j);
    }
  }

  lemma {:induction false} MergePieceAt(word: Bytes, S: seq<Symbol>, live: seq<nat>, k: nat, j: nat)
    requires InRange(S, live) && Increasing(live) && k < |live| - 1 && j < |live| - 1
    requires NodeOk(word, S, live, k) && NodeOk(word, S, live, k + 1)
    ensures Text(word, MergedSymbol(S, live[k], live[k + 1], if j <= k then live[j] else live[j + 1]))
      == (if j < k then Text(word, S[live[j]])
          else if j == k then Text(word, S[live[k]]) + Text(word, S[live[k + 1]])
          else Text(word, S[live[j + 1]]))
  {
    if j == k {
      JoinTexts(word, S[live[k]], S[live[k + 1]]);
    }
  }

  lemma {:induction false} MergePieces(word: Bytes, S: seq<Symbol>, live: seq<nat>, k: nat)
    requires InRange(S, live) && Increasing(live) && k < |live| - 1
    requires NodeOk(word, S, live, k) && NodeOk(word, S, live, k + 1)
    ensures InRange(MergeSymbols(S, live[k], live[k + 1]), RemoveAt(live, k + 1))
    ensures Pieces(word, MergeSymbols(S, live[k], live[k + 1]), RemoveAt(live, k + 1))
      == MergeAt(Pieces(word, S, live), k)
  {
    forall j | 0 <= j < |live| - 1
      ensures Pieces(word, MergeSymbols(S, live[k], live[k + 1]), RemoveAt(live, k + 1))[j]
        == MergedPiece(Pieces(word, S, live), k, j)
    {
      MergePieceAt(word, S, live, k, j);
    }
  }

  lemma {:induction false} JoinTexts(word: Bytes, a: Symbol, b: Symbol)
    requires a.start + a.n == b.start && b.start + b.n <= |word|
    ensures Text(word, a.(n := a.n + b.n)) == Text(word, a) + Text(word, b)
  {
  }

  lemma {:induction false} MergeKeepsCandidates(word: Bytes, merges: map<Bytes, nat>, S: seq<Symbol>, live: seq<nat>, C: seq<Candidate>, k: nat)
    requires Linked(word, S, live) && k < |live| - 1 && CandidatesOk(word, merges, S, C)
    ensures CandidatesOk(word, merges, MergeSymbols(S, live[k], live[k + 1]), C)
  {
    assert NodeOk(word, S, live, k);
    var T := MergeSymbols(S, live[k], live[k + 1]);
    forall i | 0 <= i < |C| && C[i].alive
      ensures CandidateOk(word, merges, T, C[i])
    {
      assert CandidateOk(word, merges, S, C[i]);
      assert forall x :: 0 <= x < |S| ==> T[x].start == S[x].start && (T[x].n > 0 ==> T[x].n >= S[x].n > 0);
    }
  }

  /** A pair that does not touch the merged piece keeps its rank. */
  lemma {:induction false} OtherPairsKeepRank(merges: map<Bytes, nat>, ps: seq<Bytes>, k: nat, j: nat)
    requires k < |ps| - 1 && j + 2 < |ps| && j != k && j + 1 != k
    ensures PairRank(merges, MergeAt(ps, k), j) == PairRank(merges, ps, if j < k then j else j + 1)
  {
  }

  /** ... and its candidate. */
  lemma {:induction false} OtherPairsKeepCandidate(S: seq<Symbol>, live: seq<nat>, c: Candidate, k: nat, j: nat)
    requires InRange(S, live) && Increasing(live) && k < |live| - 1
    requires InRange(MergeSymbols(S, live[k], live[k + 1]), RemoveAt(live, k + 1))
    requires j + 2 < |live| && j != k && j + 1 != k
    requires IsCandidateFor(S, live, c, if j < k then j else j + 1)
    ensures IsCandidateFor(MergeSymbols(S, live[k], live[k + 1]), RemoveAt(live, k + 1), c, j)
    ensures c.left != live[k]
  {
  }

  /** After a merge at k, every ranked pair except the two that touch the merged piece is still covered. */
  lemma {:induction false} MergeKeepsCover(word: Bytes, merges: map<Bytes, nat>, S: seq<Symbol>, live: seq<nat>, C: seq<Candidate>, k: nat, b: nat, j: nat)
    requires InRange(S, live) && Increasing(live) && k < |live| - 1
    requires Covered(word, merges, S, live, C, |live| - 1)
    requires b < |C| && C[b].left == live[k]
    requires InRange(MergeSymbols(S, live[k], live[k + 1]), RemoveAt(live, k + 1))
    requires j + 2 < |live| && j != k && j + 1 != k
    requires PairRank(merges, MergeAt(Pieces(word, S, live), k), j).Some?
    ensures HasCandidate(MergeSymbols(S, live[k], live[k + 1]), RemoveAt(live, k + 1), C[b := C[b].(alive := false)], j)
  {
    var o := if j < k then j else j + 1;
    OtherPairsKeepRank(merges, Pieces(word, S, live), k, j);
    assert HasCandidate(S, live, C, o);
    var i :| 0 <= i < |C| && IsCandidateFor(S, live, C[i], o);
    OtherPairsKeepCandidate(S, live, C[i], k, j);
    assert C[b := C[b].(alive := false)][i] == C[i];
  }
}
