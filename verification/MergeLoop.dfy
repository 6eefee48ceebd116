/**
 `bpe_merge_word` itself: the symbol and candidate buffers updated in place, proved
 against the specification in BpeMerge.
 */
module MergeLoop {
  import opened Common
  import opened GreedyMerge
  import opened StrIntMaps
  import opened BpeMerge

  /** The two lookup tables of a loaded vocabulary. */
  class BpeTables {
    const vocabMap: StrIntMap
    const mergeMap: StrIntMap

    constructor (vocabMap: StrIntMap, mergeMap: StrIntMap)
      ensures this.vocabMap == vocabMap && this.mergeMap == mergeMap
    {
      this.vocabMap := vocabMap;
      this.mergeMap := mergeMap;
    }

    ghost predicate Valid()
      reads vocabMap, mergeMap, vocabMap.entries, mergeMap.entries
    {
      vocabMap.Valid() && mergeMap.Valid()
    }

    ghost function Vocab(): map<Bytes, nat>
      reads vocabMap
    {
      vocabMap.Contents
    }

    ghost function Merges(): map<Bytes, nat>
      reads mergeMap
    {
      mergeMap.Contents
    }

    method FindRank(l: Bytes, r: Bytes) returns (rank: Option<nat>)
      requires Valid()
      ensures rank == Rank(Merges(), l, r)
    {
      if |l| + 1 + |r| >= KEY_BUFFER {
        return None;
      }
      rank := mergeMap.Get(l + [SPACE] + r);
      if rank.Some? && rank.value >= 0x8000_0000 {
        rank := None;
      }
    }
  }

  /** The candidates one attempt to add the pair (l, r) appends. */
  function BigramCandidates(merges: map<Bytes, nat>, word: Bytes, S: seq<Symbol>, l: int, r: int): (cs: seq<Candidate>)
    requires l < |S| && r < |S|
    ensures |cs| <= 1
  {
    if l < 0 || r < 0 then []
    else
      var rank := Rank(merges, Text(word, S[l]), Text(word, S[r]));
      if rank.Some? then [Candidate(l, r, rank.value, S[l].n + S[r].n, true)] else []
  }

  /** The reused symbol and candidate buffers. */
  class MergeBuffers {
    const syms: array<Symbol>
    const cand: array<Candidate>
    var nSyms: nat
    var nCand: nat

    constructor ()
      ensures Valid() && fresh(syms) && fresh(cand) && nSyms == nCand == 0
    {
      syms := new Symbol[MAX_SYMBOLS](_ => Symbol(-1, -1, 0, 0));
      cand := new Candidate[MAX_CANDIDATES](_ => Candidate(0, 0, 0, 0, false));
      nSyms, nCand := 0, 0;
    }

    ghost predicate Valid()
      reads this
    {
      && syms.Length == MAX_SYMBOLS && cand.Length == MAX_CANDIDATES
      && nSyms <= MAX_SYMBOLS && nCand <= MAX_CANDIDATES
    }

    ghost function Syms(): seq<Symbol>
      requires Valid()
      reads this, syms
    {
      syms[..nSyms]
    }

    ghost function Cands(): seq<Candidate>
      requires Valid()
      reads this, cand
    {
      cand[..nCand]
    }

    method PushSymbol(s: Symbol)
      requires Valid() && nSyms < MAX_SYMBOLS
      modifies this`nSyms, syms
      ensures Valid() && Syms() == old(Syms()) + [s]
    {
      syms[nSyms] := s;
      nSyms := nSyms + 1;
    }

    method PushCandidate(c: Candidate)
      requires Valid() && nCand < MAX_CANDIDATES
      modifies this`nCand, cand
      ensures Valid() && Cands() == old(Cands()) + [c]
    {
      cand[nCand] := c;
      nCand := nCand + 1;
    }

    /** Cuts the word into symbols linked in order. */
    method LoadSymbols(word: Bytes) returns (ok: bool)
      requires Valid()
      modifies this`nSyms, syms
      ensures Valid()
      ensures ok <==> |SplitChars(word)| <= MAX_SYMBOLS
      ensures ok ==> nSyms == |SplitChars(word)|
      ensures ok && word != [] ==> Linked(word, Syms(), Upto(nSyms))
      ensures ok && word != [] ==> Pieces(word, Syms(), Upto(nSyms)) == SplitChars(word)
    {
      hide SplitChars, Linked, Pieces, CutUpTo;
      nSyms := 0;
      var i := 0;
      CutNothing(word);
      while i < |word|
        invariant i <= |word| && Valid()
        invariant CutUpTo(word, Syms(), i)
      {
        if nSyms >= MAX_SYMBOLS {
          CutOne(word, Syms(), i, i + CutLen(word, i));
          return false;
        }
        var clen := CharLen(word[i]);
        if i + clen > |word| {
          clen := |word| - i;
        }
        CutOne(word, Syms(), i, i + clen);
        PushSymbol(Symbol(nSyms - 1, if i + clen < |word| then nSyms + 1 else -1, i, clen));
        i := i + clen;
      }
      CutAll(word, Syms());
      ok := true;
    }

    /** TRY_ADD_BIGRAM: false when the candidate buffer is full. */
    method TryAddBigram(v: BpeTables, word: Bytes, l: int, r: int) returns (ok: bool)
      requires Valid() && v.Valid()
      requires l < nSyms && r < nSyms
      requires v.mergeMap.entries as object != cand && v.vocabMap.entries as object != cand
      requires l >= 0 ==> syms[l].start + syms[l].n <= |word|
      requires r >= 0 ==> syms[r].start + syms[r].n <= |word|
      modifies this`nCand, cand
      ensures Valid()
      ensures ok == (old(nCand) + |BigramCandidates(v.Merges(), word, Syms(), l, r)| <= MAX_CANDIDATES)
      ensures ok ==> Cands() == old(Cands()) + BigramCandidates(v.Merges(), word, Syms(), l, r)
    {
      hide StrIntMap.Valid, Rank;
      ghost var added := BigramCandidates(v.Merges(), word, Syms(), l, r);
      if l >= 0 && r >= 0 {
        var lt, rt := word[syms[l].start..syms[l].start + syms[l].n], word[syms[r].start..syms[r].start + syms[r].n];
        assert lt == Text(word, Syms()[l]) && rt == Text(word, Syms()[r]);
        var rank := v.FindRank(lt, rt);
        if rank.Some? {
          assert added == [Candidate(l, r, rank.value, syms[l].n + syms[r].n, true)];
          if nCand >= MAX_CANDIDATES {
            return false;
          }
          PushCandidate(Candidate(l, r, rank.value, syms[l].n + syms[r].n, true));
        }
      }
      ok := true;
    }

    /** The alive candidate of lowest rank, leftmost among equals. */
    method PickBest() returns (best: int)
      requires Valid()
      ensures best < 0 ==> forall i :: 0 <= i < nCand ==> !Cands()[i].alive
      ensures best >= 0 ==> Picked(Cands(), best)
    {
      best := -1;
      for i := 0 to nCand
        invariant best < i
        invariant best < 0 ==> forall j :: 0 <= j < i ==> !cand[j].alive
        invariant best >= 0 ==> Picked(cand[..i], best)
      {
        if !cand[i].alive {
          continue;
        }
        if best < 0 || cand[i].rank < cand[best].rank
           || (cand[i].rank == cand[best].rank && cand[i].left < cand[best].left) {
          best := i;
        }
      }
    }

    /** Appends symbol r to symbol l and unlinks r. */
    method MergePair(l: nat, r: nat)
      requires Valid() && l < r < nSyms && l != syms[r].next < nSyms && r != syms[r].next
      requires syms[r].next >= -1
      modifies syms
      ensures Syms() == MergeSymbols(old(Syms()), l, r)
    {
      ghost var S := Syms();
      syms[l] := syms[l].(n := syms[l].n + syms[r].n);
      syms[r] := syms[r].(n := 0);
      syms[l] := syms[l].(next := syms[r].next);
      if syms[r].next >= 0 {
        syms[syms[r].next] := syms[syms[r].next].(prev := l);
      }
      forall i | 0 <= i < nSyms
        ensures syms[i] == MergedSymbol(S, l, r, i)
      {
      }
      assert Syms() == MergeSymbols(S, l, r);
    }
  }

  function Upto(n: nat): (s: seq<nat>)
    ensures |s| == n
    ensures forall k {:trigger s[k]} :: 0 <= k < n ==> s[k] == k
  {
    seq(n, k requires 0 <= k < n => k)
  }

  /** Symbol k as the cutting loop leaves it when `i` bytes have been cut. */
  ghost predicate FreshSymbol(word: Bytes, S: seq<Symbol>, k: nat, i: nat)
    requires k < |S|
  {
    var s := S[k];
    && s.prev == k - 1 && s.n > 0 && s.start + s.n <= |word|
    && s.next == (if s.start + s.n < |word| then k + 1 else -1)
    && (k == 0 ==> s.start == 0)
    && s.start + s.n == (if k + 1 == |S| then i else S[k + 1].start)
  }

  ghost predicate AllFresh(word: Bytes, S: seq<Symbol>, i: nat) {
    (S == [] ==> i == 0) && forall k :: 0 <= k < |S| ==> FreshSymbol(word, S, k, i)
  }

  function Texts(word: Bytes, S: seq<Symbol>): (ps: seq<Bytes>)
    ensures |ps| == |S|
    ensures forall k {:trigger ps[k]} :: 0 <= k < |S| ==> ps[k] == Text(word, S[k])
  {
    seq(|S|, k requires 0 <= k < |S| => Text(word, S[k]))
  }

  /** The size of the character cut at i. */
  function CutLen(word: Bytes, i: nat): (c: nat)
    requires i < |word|
    ensures 1 <= c <= |word| - i
  {
    if i + CharLen(word[i]) > |word| then |word| - i else CharLen(word[i])
  }

  /** The symbol cut at i, and its links. */
  function CutSymbol(word: Bytes, k: nat, i: nat): Symbol
    requires i < |word|
  {
    Symbol(k - 1, if i + CutLen(word, i) < |word| then k + 1 else -1, i, CutLen(word, i))
  }

  /** Cutting one more character. */
  lemma {:induction false} PushFresh(word: Bytes, S: seq<Symbol>, i: nat, end: nat)
    requires i < |word| && AllFresh(word, S, i) && end == i + CutLen(word, i)
    ensures AllFresh(word, S + [CutSymbol(word, |S|, i)], end)
  {
    var T := S + [CutSymbol(word, |S|, i)];
    forall k | 0 <= k < |T|
      ensures FreshSymbol(word, T, k, end)
    {
      if k < |S| {
        assert FreshSymbol(word, S, k, i);
      } else if k > 0 {
        assert FreshSymbol(word, S, k - 1, i);
      }
    }
  }

  lemma {:induction false} PushText(word: Bytes, S: seq<Symbol>, i: nat, end: nat)
    requires i < |word| && end == i + CutLen(word, i)
    ensures Texts(word, S) + SplitChars(word[i..]) == Texts(word, S + [CutSymbol(word, |S|, i)]) + SplitChars(word[end..])
  {
    var t := CutSymbol(word, |S|, i);
    FirstCut(word, i, end);
    hide SplitChars, CutSymbol, CutLen, Texts, Text;
    assert Texts(word, S + [t]) == Texts(word, S) + [Text(word, t)];
  }

  lemma {:induction false} FirstCut(word: Bytes, i: nat, end: nat)
    requires i < |word| && end == i + CutLen(word, i)
    ensures forall k: nat :: SplitChars(word[i..]) == [Text(word, CutSymbol(word, k, i))] + SplitChars(word[end..])
  {
    hide CharLen;
    var w := word[i..];
    assert w[CutLen(word, i)..] == word[end..];
    assert forall k: nat :: w[..CutLen(word, i)] == Text(word, CutSymbol(word, k, i));
  }

  /** The symbols `S` are the characters of the first `i` bytes. */
  ghost predicate CutUpTo(word: Bytes, S: seq<Symbol>, i: nat)
    requires i <= |word|
  {
    AllFresh(word, S, i) && SplitChars(word) == Texts(word, S) + SplitChars(word[i..])
  }

  lemma {:induction false} CutNothing(word: Bytes)
    ensures CutUpTo(word, [], 0)
  {
    assert word[0..] == word && Texts(word, []) == [];
  }

  lemma {:induction false} CutOne(word: Bytes, S: seq<Symbol>, i: nat, end: nat)
    requires i < |word| && end == i + CutLen(word, i) && CutUpTo(word, S, i)
    ensures CutUpTo(word, S + [CutSymbol(word, |S|, i)], end)
    ensures |SplitChars(word)| > |S|
  {
    PushFresh(word, S, i, end);
    PushText(word, S, i, end);
  }

  lemma {:induction false} CutAll(word: Bytes, S: seq<Symbol>)
    requires CutUpTo(word, S, |word|)
    ensures |S| == |SplitChars(word)|
    ensures word != [] ==> Linked(word, S, Upto(|S|)) && Pieces(word, S, Upto(|S|)) == SplitChars(word)
  {
    assert Texts(word, S) + [] == Texts(word, S);
    if word != [] {
      FreshSymbolsAreLinked(word, S);
    }
  }

  lemma {:induction false} FreshStarts(word: Bytes, S: seq<Symbol>, i: nat, j: nat)
    requires i < j < |S| && AllFresh(word, S, |word|)
    ensures S[i].start < S[j].start
    decreases j
  {
    assert FreshSymbol(word, S, j - 1, |word|);
    if i < j - 1 {
      FreshStarts(word, S, i, j - 1);
    }
  }

  lemma {:induction false} FreshSymbolsAreLinked(word: Bytes, S: seq<Symbol>)
    requires |S| > 0 && AllFresh(word, S, |word|)
    ensures Linked(word, S, Upto(|S|))
    ensures Pieces(word, S, Upto(|S|)) == Texts(word, S)
  {
    hide FreshSymbol, NodeOk, Text;
    var live := Upto(|S|);
    assert S[0].start == 0 by { FirstIsFresh(word, S); }
    forall i, j | 0 <= i < j < |S|
      ensures S[i].start < S[j].start
    {
      FreshStarts(word, S, i, j);
    }
    forall k | 0 <= k < |S|
      ensures S[k].n > 0 && k in live && NodeOk(word, S, live, k)
    {
      assert live[k] == k;
      FreshNode(word, S, k);
    }
    assert Pieces(word, S, live) == Texts(word, S);
  }

  lemma {:induction false} FirstIsFresh(word: Bytes, S: seq<Symbol>)
    requires |S| > 0 && AllFresh(word, S, |word|)
    ensures S[0].start == 0
  {
    assert FreshSymbol(word, S, 0, |word|);
  }

  lemma {:induction false} FreshNode(word: Bytes, S: seq<Symbol>, k: nat)
    requires k < |S| && AllFresh(word, S, |word|)
    ensures S[k].n > 0 && InRange(S, Upto(|S|)) && NodeOk(word, S, Upto(|S|), k)
  {
    assert FreshSymbol(word, S, k, |word|);
    if k + 1 < |S| {
      assert FreshSymbol(word, S, k + 1, |word|);
    }
  }

  // ---- the loop invariant and its steps ----

  ghost predicate Progress(word: Bytes, merges: map<Bytes, nat>, ps0: seq<Bytes>,
                           S: seq<Symbol>, C: seq<Candidate>, live: seq<nat>) {
    && Linked(word, S, live)
    && CandidatesOk(word, merges, S, C)
    && Covered(word, merges, S, live, C, |live| - 1)
    && Greedy(merges, Pieces(word, S, live)) == Greedy(merges, ps0)
    && |C| + LaterAdds(merges, Pieces(word, S, live)) == TotalAdds(merges, ps0)
  }

  /** Trying a live adjacent pair adds a candidate exactly when the pair has a rank, and the right one. */
  lemma {:induction false} AddedPair(word: Bytes, merges: map<Bytes, nat>, S: seq<Symbol>, live: seq<nat>, k: nat)
    requires Linked(word, S, live) && k + 1 < |live|
    ensures var added := BigramCandidates(merges, word, S, live[k], live[k + 1]);
      && |added| == (if PairRank(merges, Pieces(word, S, live), k).Some? then 1 else 0)
      && (|added| == 1 ==> CandidateOk(word, merges, S, added[0]) && IsCandidateFor(S, live, added[0], k))
  {
    assert NodeOk(word, S, live, k) && NodeOk(word, S, live, k + 1);
    assert S[live[k]].start < S[live[k + 1]].start;
  }

  lemma {:induction false} RankedPairsGrow(merges: map<Bytes, nat>, ps: seq<Bytes>, m: nat, n: nat)
    requires m <= n
    ensures RankedPairs(merges, ps, m) <= RankedPairs(merges, ps, n)
  {
    if m < n {
      RankedPairsGrow(merges, ps, m, n - 1);
    }
  }

  lemma {:induction false} NoneCovered(word: Bytes, merges: map<Bytes, nat>, S: seq<Symbol>, live: seq<nat>)
    requires InRange(S, live)
    ensures Covered(word, merges, S, live, [], 0) && CandidatesOk(word, merges, S, [])
  {
  }

  /** Trying one more pair of the initial word. */
  lemma {:induction false} CoverOneMore(word: Bytes, merges: map<Bytes, nat>, S: seq<Symbol>, live: seq<nat>, C: seq<Candidate>, k: nat)
    requires Linked(word, S, live) && k + 1 < |live|
    requires CandidatesOk(word, merges, S, C) && Covered(word, merges, S, live, C, k)
    ensures var D := C + BigramCandidates(merges, word, S, live[k], live[k + 1]);
      CandidatesOk(word, merges, S, D) && Covered(word, merges, S, live, D, k + 1)
  {
    var added := BigramCandidates(merges, word, S, live[k], live[k + 1]);
    var D := C + added;
    AddedPair(word, merges, S, live, k);
    CandidatesAppend(word, merges, S, C, added);
    forall j | 0 <= j < k + 1 && PairRank(merges, Pieces(word, S, live), j).Some?
      ensures HasCandidate(S, live, D, j)
    {
      if j < k {
        CandidateAppend(S, live, C, added, j);
      } else {
        assert D[|C|] == added[0];
      }
    }
  }

  lemma {:induction false} CandidatesAppend(word: Bytes, merges: map<Bytes, nat>, S: seq<Symbol>, C: seq<Candidate>, added: seq<Candidate>)
    requires CandidatesOk(word, merges, S, C) && CandidatesOk(word, merges, S, added)
    ensures CandidatesOk(word, merges, S, C + added)
  {
  }

  lemma {:induction false} CandidateAppend(S: seq<Symbol>, live: seq<nat>, C: seq<Candidate>, added: seq<Candidate>, k: nat)
    requires InRange(S, live) && HasCandidate(S, live, C, k)
    ensures HasCandidate(S, live, C + added, k)
  {
    var i :| 0 <= i < |C| && IsCandidateFor(S, live, C[i], k);
    assert (C + added)[i] == C[i];
  }

  lemma {:induction false} StaleStep(word: Bytes, merges: map<Bytes, nat>, ps0: seq<Bytes>, S: seq<Symbol>, C: seq<Candidate>, live: seq<nat>, b: nat)
    requires Progress(word, merges, ps0, S, C, live)
    requires b < |C| && C[b].alive && !SizeCheck(S, C[b])
    ensures Progress(word, merges, ps0, S, C[b := C[b].(alive := false)], live)
  {
    DropStale(word, merges, S, live, C, b);
  }

  /** Symbol l and the symbols linked to it lie inside the word. */
  ghost predicate NeighboursInside(word: Bytes, T: seq<Symbol>, l: nat)
    requires l < |T|
  {
    && T[l].prev < |T| && T[l].next < |T|
    && T[l].start + T[l].n <= |word|
    && (T[l].prev >= 0 ==> T[T[l].prev].start + T[T[l].prev].n <= |word|)
    && (T[l].next >= 0 ==> T[T[l].next].start + T[T[l].next].n <= |word|)
  }

  lemma {:induction false} NodeInside(word: Bytes, T: seq<Symbol>, live: seq<nat>, k: nat)
    requires Linked(word, T, live) && k < |live|
    ensures NeighboursInside(word, T, live[k])
  {
    assert NodeOk(word, T, live, k);
    assert k > 0 ==> NodeOk(word, T, live, k - 1);
    assert k + 1 < |live| ==> NodeOk(word, T, live, k + 1);
  }

  /** What a merge leaves before its two new pairs are tried. */
  lemma {:induction false} MergeStep(word: Bytes, merges: map<Bytes, nat>, ps0: seq<Bytes>, S: seq<Symbol>, C: seq<Candidate>, live: seq<nat>, b: nat)
      returns (k: nat)
    requires Progress(word, merges, ps0, S, C, live)
    requires Picked(C, b) && SizeCheck(S, C[b])
    ensures k + 1 < |live| && live[k] == C[b].left && live[k + 1] == C[b].right
    ensures Best(merges, Pieces(word, S, live)) == Some(k)
    ensures var T, live' := MergeSymbols(S, live[k], live[k + 1]), RemoveAt(live, k + 1);
      && Linked(word, T, live')
      && Pieces(word, T, live') == MergeAt(Pieces(word, S, live), k)
      && CandidatesOk(word, merges, T, C[b := C[b].(alive := false)])
      && NodeOk(word, T, live', k) && live'[k] == live[k]
      && NeighboursInside(word, T, live[k])
    ensures S[live[k + 1]].next == -1 || live[k + 1] < S[live[k + 1]].next < |S|
  {
    hide StartsIncrease, Occupied, CandidateOk, Covered, Rank, Greedy, LaterAdds, TotalAdds;
    k := PickedIsBest(word, merges, S, live, C, b);
    MergeKeepsLinks(word, S, live, k);
    assert NodeOk(word, S, live, k) && NodeOk(word, S, live, k + 1);
    MergePieces(word, S, live, k);
    MergeKeepsCandidates(word, merges, S, live, C, k);
    NodeInside(word, MergeSymbols(S, live[k], live[k + 1]), RemoveAt(live, k + 1), k);
  }

  /** The candidates the loop adds after a merge at k. */
  function AddedAfterMerge(merges: map<Bytes, nat>, word: Bytes, T: seq<Symbol>, l: nat): seq<Candidate>
    requires l < |T| && T[l].prev < |T| && T[l].next < |T|
  {
    BigramCandidates(merges, word, T, T[l].prev, l) + BigramCandidates(merges, word, T, l, T[l].next)
  }

  /** The attempt to the left of piece k finds the pair (k - 1, k) exactly when it has a rank. */
  lemma {:induction false} AttemptBefore(word: Bytes, merges: map<Bytes, nat>, T: seq<Symbol>, live: seq<nat>, k: nat)
    requires Linked(word, T, live) && k < |live| && NodeOk(word, T, live, k)
    ensures var A := BigramCandidates(merges, word, T, T[live[k]].prev, live[k]);
            var hit := PairRank(merges, Pieces(word, T, live), k - 1).Some?;
            && |A| == (if hit then 1 else 0) && CandidatesOk(word, merges, T, A)
            && (hit ==> IsCandidateFor(T, live, A[0], k - 1)) && forall i :: 0 <= i < |A| ==> A[i].alive
  {
    hide StartsIncrease, Occupied, CandidateOk, IsCandidateFor, Rank;
    if k > 0 {
      AddedPair(word, merges, T, live, k - 1);
    }
  }

  /** The attempt to the right of piece k finds the pair (k, k + 1) exactly when it has a rank. */
  lemma {:induction false} AttemptAfter(word: Bytes, merges: map<Bytes, nat>, T: seq<Symbol>, live: seq<nat>, k: nat)
    requires Linked(word, T, live) && k < |live| && NodeOk(word, T, live, k)
    ensures var A := BigramCandidates(merges, word, T, live[k], T[live[k]].next);
            var hit := PairRank(merges, Pieces(word, T, live), k).Some?;
            && |A| == (if hit then 1 else 0) && CandidatesOk(word, merges, T, A)
            && (hit ==> IsCandidateFor(T, live, A[0], k)) && forall i :: 0 <= i < |A| ==> A[i].alive
  {
    hide StartsIncrease, Occupied, CandidateOk, IsCandidateFor, Rank;
    if k + 1 < |live| {
      AddedPair(word, merges, T, live, k);
    }
  }

  lemma {:induction false} AddedAfterMergeOk(word: Bytes, merges: map<Bytes, nat>, T: seq<Symbol>, live: seq<nat>, k: nat)
    requires Linked(word, T, live) && k < |live| && NodeOk(word, T, live, k)
    ensures var added := AddedAfterMerge(merges, word, T, live[k]); var ps := Pieces(word, T, live);
      && CandidatesOk(word, merges, T, added)
      && |added| == (if PairRank(merges, ps, k - 1).Some? then 1 else 0) + (if PairRank(merges, ps, k).Some? then 1 else 0)
      && (PairRank(merges, ps, k - 1).Some? ==> HasCandidate(T, live, added, k - 1))
      && (PairRank(merges, ps, k).Some? ==> HasCandidate(T, live, added, k))
      && forall i :: 0 <= i < |added| ==> added[i].alive
  {
    hide Rank, Pieces, BigramCandidates, IsCandidateFor, CandidatesOk, StartsIncrease, Occupied;
    var A1 := BigramCandidates(merges, word, T, T[live[k]].prev, live[k]);
    var A2 := BigramCandidates(merges, word, T, live[k], T[live[k]].next);
    AttemptBefore(word, merges, T, live, k);
    AttemptAfter(word, merges, T, live, k);
    if PairRank(merges, Pieces(word, T, live), k - 1).Some? {
      assert IsCandidateFor(T, live, (A1 + A2)[0], k - 1);
    }
    if PairRank(merges, Pieces(word, T, live), k).Some? {
      assert IsCandidateFor(T, live, (A1 + A2)[|A1|], k);
    }
    CandidatesAppend(word, merges, T, A1, A2);
  }

  /** After a merge at k and its two new attempts, every ranked pair is covered again. */
  lemma {:induction false} MergeCovers(word: Bytes, merges: map<Bytes, nat>, S: seq<Symbol>, C: seq<Candidate>, live: seq<nat>, b: nat, k: nat,
                    T: seq<Symbol>, live': seq<nat>, added: seq<Candidate>)
    requires k + 1 < |live| && InRange(S, live) && Increasing(live) && Covered(word, merges, S, live, C, |live| - 1)
    requires b < |C| && live[k] == C[b].left
    requires T == MergeSymbols(S, live[k], live[k + 1]) && live' == RemoveAt(live, k + 1) && InRange(T, live')
    requires Pieces(word, T, live') == MergeAt(Pieces(word, S, live), k)
    requires PairRank(merges, Pieces(word, T, live'), k - 1).Some? ==> HasCandidate(T, live', added, k - 1)
    requires PairRank(merges, Pieces(word, T, live'), k).Some? ==> HasCandidate(T, live', added, k)
    ensures Covered(word, merges, T, live', C[b := C[b].(alive := false)] + added, |live'| - 1)
  {
    hide PairRank, HasCandidate, MergedSymbol, MergedPiece, Increasing, Pieces, MergeAt, MergeSymbols, RemoveAt;
    var D := C[b := C[b].(alive := false)];
    forall j | 0 <= j < |live'| - 1 && PairRank(merges, Pieces(word, T, live'), j).Some?
      ensures HasCandidate(T, live', D + added, j)
    {
      if j == k || j + 1 == k {
        CandidatePrepend(T, live', D, added, j);
      } else {
        MergeKeepsCover(word, merges, S, live, C, k, b, j);
        CandidateAppend(T, live', D, added, j);
      }
    }
  }

  lemma {:induction false} CandidatePrepend(S: seq<Symbol>, live: seq<nat>, C: seq<Candidate>, added: seq<Candidate>, k: nat)
    requires InRange(S, live) && HasCandidate(S, live, added, k)
    ensures HasCandidate(S, live, C + added, k)
  {
    var i :| 0 <= i < |added| && IsCandidateFor(S, live, added[i], k);
    assert (C + added)[|C| + i] == added[i];
  }

  lemma {:induction false} MergeDone(word: Bytes, merges: map<Bytes, nat>, ps0: seq<Bytes>, S: seq<Symbol>, C: seq<Candidate>, live: seq<nat>,
                  b: nat, k: nat, T: seq<Symbol>, live': seq<nat>)
    requires Progress(word, merges, ps0, S, C, live)
    requires b < |C| && k + 1 < |live| && live[k] == C[b].left
    requires Best(merges, Pieces(word, S, live)) == Some(k)
    requires T == MergeSymbols(S, live[k], live[k + 1]) && live' == RemoveAt(live, k + 1)
    requires Linked(word, T, live') && NodeOk(word, T, live', k)
    requires Pieces(word, T, live') == MergeAt(Pieces(word, S, live), k)
    requires CandidatesOk(word, merges, T, C[b := C[b].(alive := false)])
    ensures |AddedAfterMerge(merges, word, T, live'[k])| == NewPairs(merges, Pieces(word, S, live), k)
    ensures TotalAdds(merges, ps0) >= |C| + NewPairs(merges, Pieces(word, S, live), k)
    ensures Progress(word, merges, ps0, T, C[b := C[b].(alive := false)] + AddedAfterMerge(merges, word, T, live'[k]), live')
  {
    hide StartsIncrease, Occupied, CandidatesOk, CandidateOk, Greedy, LaterAdds, TotalAdds, MergedSymbol, Increasing, Covered;
    hide PairRank, HasCandidate, Pieces, MergedPiece, BigramCandidates;
    var added := AddedAfterMerge(merges, word, T, live'[k]);
    GreedyStep(merges, Pieces(word, S, live), k);
    AddedAfterMergeOk(word, merges, T, live', k);
    CandidatesAppend(word, merges, T, C[b := C[b].(alive := false)], added);
    MergeCovers(word, merges, S, C, live, b, k, T, live', added);
  }

  lemma {:induction false} PickedInRange(word: Bytes, merges: map<Bytes, nat>, ps0: seq<Bytes>, S: seq<Symbol>, C: seq<Candidate>, live: seq<nat>, b: nat)
    requires Progress(word, merges, ps0, S, C, live) && Picked(C, b)
    ensures b < |C| && C[b].alive && 0 <= C[b].left < C[b].right < |S|
  {
    assert CandidateOk(word, merges, S, C[b]);
  }

  lemma {:induction false} AddedAlive(merges: map<Bytes, nat>, word: Bytes, T: seq<Symbol>, l: nat)
    requires l < |T| && T[l].prev < |T| && T[l].next < |T|
    ensures forall i :: 0 <= i < |AddedAfterMerge(merges, word, T, l)| ==> AddedAfterMerge(merges, word, T, l)[i].alive
  {
  }

  lemma {:induction false} AliveCountAppend(C: seq<Candidate>, added: seq<Candidate>)
    requires forall i :: 0 <= i < |added| ==> added[i].alive
    ensures AliveCount(C + added) == AliveCount(C) + |added|
  {
    if added == [] {
      assert C + added == C;
    } else {
      AliveCountAppend(C, added[..|added| - 1]);
      assert (C + added)[..|C + added| - 1] == C + added[..|added| - 1];
    }
  }

  /** Nothing alive is left: the pieces are final and no candidate will be added. */
  lemma {:induction false} NothingAlive(word: Bytes, merges: map<Bytes, nat>, ps0: seq<Bytes>, S: seq<Symbol>, C: seq<Candidate>, live: seq<nat>)
    requires Progress(word, merges, ps0, S, C, live)
    requires forall i :: 0 <= i < |C| ==> !C[i].alive
    ensures Linked(word, S, live) && Pieces(word, S, live) == Greedy(merges, ps0) && |C| == TotalAdds(merges, ps0)
  {
    var ps := Pieces(word, S, live);
    forall j | 0 <= j < |ps| - 1
      ensures PairRank(merges, ps, j).None?
    {
    }
  }

  // ---- bpe_merge_word ----

  method MergeWord(v: BpeTables, word: Bytes, cap: int) returns (r: Outcome)
    requires v.Valid()
    ensures r == MergeSpec(v.Merges(), v.Vocab(), word, cap)
  {
    var w := new MergeBuffers();
    var ok := w.LoadSymbols(word);
    ghost var merges, ps0 := v.Merges(), SplitChars(word);
    if !ok {
      return Refused;
    }
    if w.nSyms == 0 {
      SplitCharsText(word);
      assert Greedy(merges, ps0) == [];
      return Written([]);
    }
    ok := AddInitialPairs(v, w, word);
    if !ok {
      return Refused;
    }
    ghost var live;
    ok, live := MergeAll(v, w, word);
    if !ok {
      return Refused;
    }
    r := EmitIds(v, w, word, live, cap);
  }

  method AddInitialPairs(v: BpeTables, w: MergeBuffers, word: Bytes) returns (ok: bool)
    requires v.Valid() && w.Valid() && w.nSyms > 0
    requires v.mergeMap.entries as object != w.cand && v.vocabMap.entries as object != w.cand
    requires w.nCand == 0
    requires Linked(word, w.Syms(), Upto(w.nSyms)) && Pieces(word, w.Syms(), Upto(w.nSyms)) == SplitChars(word)
    modifies w`nCand, w.cand
    ensures v.Valid() && w.Valid()
    ensures !ok ==> TotalAdds(v.Merges(), SplitChars(word)) > MAX_CANDIDATES
    ensures ok ==> Progress(word, v.Merges(), SplitChars(word), w.Syms(), w.Cands(), Upto(w.nSyms))
  {
    hide StrIntMap.Valid, Linked, CandidatesOk, Covered, PairRank, NodeOk, BigramCandidates, Pieces, LaterAdds, Greedy;
    ghost var merges, ps, live, S := v.Merges(), SplitChars(word), Upto(w.nSyms), w.Syms();
    assert Covered(word, merges, S, live, [], 0) && CandidatesOk(word, merges, S, []) by {
      NoneCovered(word, merges, S, live);
    }
    for i := 0 to w.nSyms - 1
      invariant v.Valid() && w.Valid() && w.Syms() == S && v.Merges() == merges
      invariant CandidatesOk(word, merges, S, w.Cands()) && Covered(word, merges, S, live, w.Cands(), i)
      invariant w.nCand == RankedPairs(merges, ps, i)
    {
      NodeInside(word, S, live, i);
      NodeInside(word, S, live, i + 1);
      assert w.syms[i] == S[live[i]] && w.syms[i + 1] == S[live[i + 1]];
      AddedPair(word, merges, S, live, i);
      CoverOneMore(word, merges, S, live, w.Cands(), i);
      RankedPairsGrow(merges, ps, i + 1, w.nSyms - 1);
      ok := w.TryAddBigram(v, word, i, i + 1);
      if !ok {
        return;
      }
    }
    ok := true;
  }

  method MergeAll(v: BpeTables, w: MergeBuffers, word: Bytes) returns (ok: bool, ghost live: seq<nat>)
    requires v.Valid() && w.Valid()
    requires v.mergeMap.entries as object != w.cand && v.vocabMap.entries as object != w.cand
    requires v.mergeMap.entries as object != w.syms && v.vocabMap.entries as object != w.syms
    requires w.syms as object != w.cand
    requires Progress(word, v.Merges(), SplitChars(word), w.Syms(), w.Cands(), Upto(w.nSyms))
    modifies w`nCand, w.cand, w.syms
    ensures v.Valid() && w.Valid()
    ensures ok == (TotalAdds(v.Merges(), SplitChars(word)) <= MAX_CANDIDATES)
    ensures ok ==> Linked(word, w.Syms(), live) && Pieces(word, w.Syms(), live) == Greedy(v.Merges(), SplitChars(word))
  {
    hide StrIntMap.Valid, Linked, CandidatesOk, Covered, Greedy, LaterAdds, TotalAdds, Progress;
    ghost var merges, ps0 := v.Merges(), SplitChars(word);
    live := Upto(w.nSyms);
    while true
      invariant v.Valid() && w.Valid() && v.Merges() == merges
      invariant Progress(word, merges, ps0, w.Syms(), w.Cands(), live)
      decreases 2 * |live| + AliveCount(w.Cands())
    {
      var best := w.PickBest();
      if best < 0 {
        NothingAlive(word, merges, ps0, w.Syms(), w.Cands(), live);
        return true, live;
      }
      ok, live := TakeCandidate(v, w, word, best, live);
      if !ok {
        return;
      }
    }
  }

  /** One turn of the merge loop with the picked candidate. */
  method TakeCandidate(v: BpeTables, w: MergeBuffers, word: Bytes, best: nat, ghost live: seq<nat>)
      returns (ok: bool, ghost live': seq<nat>)
    requires v.Valid() && w.Valid()
    requires v.mergeMap.entries as object != w.cand && v.vocabMap.entries as object != w.cand
    requires v.mergeMap.entries as object != w.syms && v.vocabMap.entries as object != w.syms
    requires w.syms as object != w.cand
    requires Progress(word, v.Merges(), SplitChars(word), w.Syms(), w.Cands(), live)
    requires Picked(w.Cands(), best)
    modifies w`nCand, w.cand, w.syms
    ensures v.Valid() && w.Valid() && v.Merges() == old(v.Merges())
    ensures !ok ==> TotalAdds(v.Merges(), SplitChars(word)) > MAX_CANDIDATES
    ensures ok ==> Progress(word, v.Merges(), SplitChars(word), w.Syms(), w.Cands(), live')
    ensures ok ==> 2 * |live'| + AliveCount(w.Cands()) < 2 * |live| + AliveCount(old(w.Cands()))
  {
    hide StrIntMap.Valid, Linked, Progress, CandidatesOk, NodeOk, NewPairs, MergedSymbol, BigramCandidates, Pieces, TotalAdds;
    hide MergeSymbols, MergeAt, Best, Picked, SplitChars, AliveCount;
    ghost var merges, ps0, S, C := v.Merges(), SplitChars(word), w.Syms(), w.Cands();
    live' := live;
    PickedInRange(word, merges, ps0, S, C, live, best);
    AliveCountKill(C, best);
    w.cand[best] := w.cand[best].(alive := false);
    ghost var D := C[best := C[best].(alive := false)];
    assert w.Cands() == D;
    var l, r := w.cand[best].left, w.cand[best].right;
    assert w.syms[l] == S[l] && w.syms[r] == S[r];
    if w.syms[l].n == 0 || w.syms[r].n == 0 || w.syms[l].n + w.syms[r].n != w.cand[best].size {
      StaleStep(word, merges, ps0, S, C, live, best);
      return true, live;
    }
    ghost var k := MergeStep(word, merges, ps0, S, C, live, best);
    w.MergePair(l, r);
    live' := RemoveAt(live, k + 1);
    ghost var T := w.Syms();
    MergeDone(word, merges, ps0, S, C, live, best, k, T, live');
    AddedAlive(merges, word, T, l);
    AliveCountAppend(D, AddedAfterMerge(merges, word, T, l));
    ok := w.TryAddBigram(v, word, w.syms[l].prev, l);
    if !ok {
      return;
    }
    ok := w.TryAddBigram(v, word, l, w.syms[l].next);
    assert ok ==> w.Cands() == D + AddedAfterMerge(merges, word, T, l);
  }

  method EmitIds(v: BpeTables, w: MergeBuffers, word: Bytes, ghost live: seq<nat>, cap: int) returns (r: Outcome)
    requires v.Valid() && w.Valid() && Linked(word, w.Syms(), live)
    ensures r == Emit(v.Vocab(), Pieces(word, w.Syms(), live), cap)
  {
    hide StrIntMap.Valid, Emit, Prepend, Pieces;
    ghost var vocab, S, ps := v.Vocab(), w.Syms(), Pieces(word, w.Syms(), live);
    var ids: seq<nat> := [];
    assert ps[0..] == ps;
    PrependNothing(Emit(vocab, ps, cap));
    PiecesLength(word, S, live);
    for i := 0 to w.nSyms
      invariant |ids| <= |live|
      invariant forall k :: 0 <= k < |live| ==> (k < |ids| <==> live[k] < i)
      invariant Emit(vocab, ps, cap) == Prepend(ids, Emit(vocab, ps[|ids|..], cap - |ids|))
    {
      assert w.syms[i] == S[i];
      if w.syms[i].n == 0 {
        assert forall k :: 0 <= k < |live| ==> live[k] != i;
        continue;
      }
      ghost var e := |ids|;
      EmitOrder(S, live, i, e);
      assert NodeOk(word, S, live, e);
      PieceIs(word, S, live, e);
      EmitNext(vocab, ps, e, ids, cap - e);
      var id := v.vocabMap.Get(word[w.syms[i].start..w.syms[i].start + w.syms[i].n]);
      if id.None? {
        return Fatal;
      }
      if |ids| >= cap {
        return Refused;
      }
      ids := ids + [id.value];
    }
    assert |ids| == |live|;
    EmitEnd(vocab, ps, ids, cap - |ids|);
    r := Written(ids);
  }

  lemma {:induction false} PiecesLength(word: Bytes, S: seq<Symbol>, live: seq<nat>)
    requires Linked(word, S, live)
    ensures |Pieces(word, S, live)| == |live|
  {
  }

  lemma {:induction false} PieceIs(word: Bytes, S: seq<Symbol>, live: seq<nat>, e: nat)
    requires Linked(word, S, live) && e < |live|
    ensures |Pieces(word, S, live)| == |live| && live[e] < |S| && S[live[e]].start + S[live[e]].n <= |word|
    ensures Pieces(word, S, live)[e] == word[S[live[e]].start..S[live[e]].start + S[live[e]].n]
  {
    assert NodeOk(word, S, live, e);
  }

  lemma {:induction false} PrependNothing(o: Outcome)
    ensures Prepend([], o) == o
  {
    assert o.Written? ==> [] + o.ids == o.ids;
  }

  /** One piece: its id, or the reason there is none. */
  lemma {:induction false} EmitNext(vocab: map<Bytes, nat>, ps: seq<Bytes>, e: nat, ids: seq<nat>, cap: int)
    requires e < |ps|
    ensures Prepend(ids, Emit(vocab, ps[e..], cap))
         == if ps[e] !in vocab then Fatal else if cap <= 0 then Refused
            else Prepend(ids + [vocab[ps[e]]], Emit(vocab, ps[e + 1..], cap - 1))
  {
    assert ps[e..][0] == ps[e] && ps[e..][1..] == ps[e + 1..];
    if ps[e] in vocab && cap > 0 {
      PrependTwice(ids, [vocab[ps[e]]], Emit(vocab, ps[e + 1..], cap - 1));
    }
  }

  lemma {:induction false} EmitEnd(vocab: map<Bytes, nat>, ps: seq<Bytes>, ids: seq<nat>, cap: int)
    ensures Prepend(ids, Emit(vocab, ps[|ps|..], cap)) == Written(ids)
  {
    assert ids + [] == ids;
  }

  /** The first non-empty symbol at or after i is the next live one. */
  lemma {:induction false} EmitOrder(S: seq<Symbol>, live: seq<nat>, i: nat, e: nat)
    requires InRange(S, live) && Increasing(live) && Occupied(S, live)
    requires i < |S| && S[i].n > 0 && e <= |live|
    requires forall k :: 0 <= k < |live| ==> (k < e <==> live[k] < i)
    ensures e < |live| && live[e] == i
  {
    var k :| 0 <= k < |live| && live[k] == i;
    assert e <= k && live[e] <= live[k];
  }
}
