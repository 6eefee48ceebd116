/**
 A reference semantics for the pre-tokenizer patterns: a backtracking matcher that
 lists every end position a pattern can reach, in the order a leftmost-first engine
 tries them. The engine's match is the first of the list.
 */
module Regex {
  import opened Common

  datatype Pattern =
    | Rep(p: nat -> bool, lo: nat, hi: Option<nat>)   // greedy repetition of a character class
    | Cat(first: Pattern, second: Pattern)
    | Alt(left: Pattern, right: Pattern)
    | NotAhead(p: nat -> bool)                        // (?!p)

  function RepEnds(p: nat -> bool, lo: nat, hi: Option<nat>, s: seq<nat>, i: nat): seq<nat>
    decreases |s| - i
  {
    (if i < |s| && p(s[i]) && hi != Some(0)
     then RepEnds(p, if lo == 0 then 0 else lo - 1, if hi.None? then None else Some(hi.value - 1), s, i + 1)
     else [])
    + (if lo == 0 then [i] else [])
  }

  function Ends(r: Pattern, s: seq<nat>, i: nat): seq<nat>
    decreases r, 0
  {
    match r
    case Rep(p, lo, hi) => RepEnds(p, lo, hi, s, i)
    case Cat(a, b) => CatEnds(b, s, Ends(a, s, i))
    case Alt(a, b) => Ends(a, s, i) + Ends(b, s, i)
    case NotAhead(p) => if i < |s| && p(s[i]) then [] else [i]
  }

  /** The ends of `b` from each of the positions `es`, in order. */
  function CatEnds(b: Pattern, s: seq<nat>, es: seq<nat>): seq<nat>
    decreases b, 1 + |es|
  {
    if es == [] then [] else Ends(b, s, es[0]) + CatEnds(b, s, es[1..])
  }

  /** The match a leftmost-first engine reports at i. */
  function Match(r: Pattern, s: seq<nat>, i: nat): Option<nat> {
    var es := Ends(r, s, i);
    if es == [] then None else Some(es[0])
  }

  // ---- the lists in closed form ----

  /** The end of the run of characters in class p that starts at i, of length at most hi. */
  function RunEnd(p: nat -> bool, hi: Option<nat>, s: seq<nat>, i: nat): (e: nat)
    requires i <= |s|
    ensures i <= e <= |s|
    ensures forall k :: i <= k < e ==> p(s[k])
    ensures hi.Some? ==> e <= i + hi.value
    ensures e < |s| && (hi.None? || e < i + hi.value) ==> !p(s[e])
    decreases |s| - i
  {
    if i < |s| && p(s[i]) && hi != Some(0)
    then RunEnd(p, if hi.None? then None else Some(hi.value - 1), s, i + 1)
    else i
  }

  function Descending(from: int, to: nat): seq<nat>
    decreases from - to
  {
    if from < to then [] else [from] + Descending(from - 1, to)
  }

  lemma {:induction false} DescendingAppend(from: nat, to: nat)
    requires from >= to
    ensures Descending(from, to) == Descending(from, to + 1) + [to]
    decreases from
  {
    if from > to {
      DescendingAppend(from - 1, to);
    }
  }

  /** A greedy repetition tries its longest run first and gives back one character at a time. */
  lemma {:induction false} RepEndsAre(p: nat -> bool, lo: nat, hi: Option<nat>, s: seq<nat>, i: nat)
    requires i <= |s|
    ensures RepEnds(p, lo, hi, s, i) == Descending(RunEnd(p, hi, s, i), i + lo)
    decreases |s| - i
  {
    hide RunEnd, Descending;
    if i < |s| && p(s[i]) && hi != Some(0) {
      RepEndsAre(p, if lo == 0 then 0 else lo - 1, if hi.None? then None else Some(hi.value - 1), s, i + 1);
      RunEndStep(p, hi, s, i);
      DescendingAppend(RunEnd(p, hi, s, i), i);
      Nothing(RepEnds(p, lo, hi, s, i));
    } else {
      RunEndStop(p, hi, s, i);
      DescendingHere(i, lo);
    }
  }

  lemma {:induction false} Nothing(a: seq<nat>)
    ensures a + [] == a
  {
  }

  lemma {:induction false} DescendingHere(i: nat, lo: nat)
    ensures Descending(i, i + lo) == if lo == 0 then [i] else []
  {
  }

  lemma {:induction false} RunEndStop(p: nat -> bool, hi: Option<nat>, s: seq<nat>, i: nat)
    requires i <= |s| && !(i < |s| && p(s[i]) && hi != Some(0))
    ensures RunEnd(p, hi, s, i) == i
  {
  }

  lemma {:induction false} RunEndStep(p: nat -> bool, hi: Option<nat>, s: seq<nat>, i: nat)
    requires i < |s| && p(s[i]) && hi != Some(0)
    ensures RunEnd(p, hi, s, i) == RunEnd(p, if hi.None? then None else Some(hi.value - 1), s, i + 1)
  {
  }

  // ---- laws used to read the patterns ----

  lemma {:induction false} RepMatch(p: nat -> bool, lo: nat, hi: Option<nat>, s: seq<nat>, i: nat)
    requires i <= |s|
    ensures Match(Rep(p, lo, hi), s, i) == if RunEnd(p, hi, s, i) >= i + lo then Some(RunEnd(p, hi, s, i)) else None
  {
    RepEndsAre(p, lo, hi, s, i);
  }

  lemma {:induction false} AltMatch(a: Pattern, b: Pattern, s: seq<nat>, i: nat)
    ensures Match(Alt(a, b), s, i) == if Match(a, s, i).Some? then Match(a, s, i) else Match(b, s, i)
  {
  }

  /** The longest run is kept when the rest of the pattern matches after it. */
  lemma {:induction false} CatMatchLongest(p: nat -> bool, lo: nat, hi: Option<nat>, b: Pattern, s: seq<nat>, i: nat)
    requires i <= |s| && RunEnd(p, hi, s, i) >= i + lo && Match(b, s, RunEnd(p, hi, s, i)).Some?
    ensures Match(Cat(Rep(p, lo, hi), b), s, i) == Match(b, s, RunEnd(p, hi, s, i))
  {
    CatMatchBacktrack(p, lo, hi, b, s, i, RunEnd(p, hi, s, i));
  }

  /** Otherwise characters are given back one at a time, down to position e, the first where the rest matches. */
  lemma {:induction false} CatMatchBacktrack(p: nat -> bool, lo: nat, hi: Option<nat>, b: Pattern, s: seq<nat>, i: nat, e: nat)
    requires i <= |s| && i + lo <= e <= RunEnd(p, hi, s, i)
    requires Match(b, s, e).Some?
    requires forall k :: e < k <= RunEnd(p, hi, s, i) ==> Match(b, s, k).None?
    ensures Match(Cat(Rep(p, lo, hi), b), s, i) == Match(b, s, e)
  {
    RepEndsAre(p, lo, hi, s, i);
    assert Ends(Rep(p, lo, hi), s, i) == Descending(RunEnd(p, hi, s, i), i + lo);
    SkipFailing(b, s, RunEnd(p, hi, s, i), i + lo, e);
  }

  lemma {:induction false} SkipFailing(b: Pattern, s: seq<nat>, from: nat, to: nat, e: nat)
    requires to <= e <= from && Match(b, s, e).Some?
    requires forall k :: e < k <= from ==> Match(b, s, k).None?
    ensures CatEnds(b, s, Descending(from, to)) != []
    ensures Some(CatEnds(b, s, Descending(from, to))[0]) == Match(b, s, e)
    decreases from
  {
    assert Descending(from, to)[1..] == Descending(from - 1, to);
    if from > e {
      assert Match(b, s, from).None?;
      SkipFailing(b, s, from - 1, to, e);
    }
  }

  lemma {:induction false} AllFailing(b: Pattern, s: seq<nat>, from: int, to: nat)
    requires forall k :: to <= k <= from ==> Match(b, s, k).None?
    ensures CatEnds(b, s, Descending(from, to)) == []
    decreases from - to
  {
    if from >= to {
      assert Descending(from, to)[1..] == Descending(from - 1, to);
      assert Match(b, s, from).None?;
      AllFailing(b, s, from - 1, to);
    }
  }

  lemma {:induction false} CatMatchNone(p: nat -> bool, lo: nat, hi: Option<nat>, b: Pattern, s: seq<nat>, i: nat)
    requires i <= |s| && forall k :: i + lo <= k <= RunEnd(p, hi, s, i) ==> Match(b, s, k).None?
    ensures Match(Cat(Rep(p, lo, hi), b), s, i) == None
  {
    RepEndsAre(p, lo, hi, s, i);
    assert Ends(Rep(p, lo, hi), s, i) == Descending(RunEnd(p, hi, s, i), i + lo);
    AllFailing(b, s, RunEnd(p, hi, s, i), i + lo);
  }
}
