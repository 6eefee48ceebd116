/**
 The three hand-coded pre-tokenizer splits, where each span ends, and the regular
 expressions they stand for.
 */
module PreTokenizer {
  import opened Common
  import opened Regex

  /** The class bits the splits look at; `any` is "some flag is set". */
  datatype Flags = Flags(number: bool, letter: bool, whitespace: bool, any: bool)

  type Classifier = nat -> Flags

  const NO_FLAGS := Flags(false, false, false, false)
  const NO_CPT: nat := 0xFFFF_FFFF
  const LF: nat := 0x0A
  const CR: nat := 0x0D
  const SPACE: nat := 0x20
  const APOSTROPHE: nat := 0x27

  /** What the generated Unicode table guarantees: every code point has a flag, letters, numbers and
      white space are disjoint, CR, LF and space are white space, and the apostrophe is none of the three. */
  ghost predicate WellClassified(cls: Classifier) {
    && (forall c: nat :: Disjoint(cls(c)))
    && cls(LF).whitespace && cls(CR).whitespace && cls(SPACE).whitespace
    && !cls(APOSTROPHE).letter && !cls(APOSTROPHE).number && !cls(APOSTROPHE).whitespace
  }

  predicate Disjoint(f: Flags) {
    f.any && !(f.letter && f.number) && !(f.letter && f.whitespace) && !(f.number && f.whitespace)
  }

  function FlagsAt(cls: Classifier, s: seq<nat>, p: nat): Flags {
    if p < |s| then cls(s[p]) else NO_FLAGS
  }

  predicate IsNewline(c: nat) { c == CR || c == LF }

  /** Neither white space, letter nor number, but some flag. */
  predicate IsOther(f: Flags) {
    !(f.whitespace || f.letter || f.number) && f.any
  }

  function Letter(cls: Classifier): nat -> bool { (c: nat) => cls(c).letter }
  function Number(cls: Classifier): nat -> bool { (c: nat) => cls(c).number }
  function Blank(cls: Classifier): nat -> bool { (c: nat) => cls(c).whitespace }
  function Other(cls: Classifier): nat -> bool { (c: nat) => IsOther(cls(c)) }
  function Newline(): nat -> bool { (c: nat) => IsNewline(c) }

  // ---- where the code ends a span that starts at pos ----

  datatype Kind = Qwen2 | Llama3 | Gpt2

  function AsciiLower(c: nat): nat {
    if 0x41 <= c <= 0x5A then c + 32 else c
  }

  /** Qwen2 and llama3 fold ASCII case in contractions, gpt2 does not. */
  function Fold(kind: Kind, c: nat): nat {
    if kind == Gpt2 then c else AsciiLower(c)
  }

  const C_S: nat := 0x73
  const C_T: nat := 0x74
  const C_M: nat := 0x6D
  const C_D: nat := 0x64
  const C_R: nat := 0x72
  const C_E: nat := 0x65
  const C_V: nat := 0x76
  const C_L: nat := 0x6C

  predicate IsShortSuffix(c: nat) { c == C_S || c == C_T || c == C_M || c == C_D }

  predicate IsLongSuffix(c1: nat, c2: nat) {
    (c1 == C_R && c2 == C_E) || (c1 == C_V && c2 == C_E) || (c1 == C_L && c2 == C_L)
  }

  function ContractionEnd(kind: Kind, s: seq<nat>, pos: nat): Option<nat>
    requires pos < |s|
  {
    if s[pos] != APOSTROPHE || pos + 1 >= |s| then None
    else if IsShortSuffix(Fold(kind, s[pos + 1])) then Some(pos + 2)
    else if pos + 2 < |s| && IsLongSuffix(Fold(kind, s[pos + 1]), Fold(kind, s[pos + 2])) then Some(pos + 3)
    else None
  }

  function Run(p: nat -> bool, s: seq<nat>, pos: nat): (e: nat)
    requires pos <= |s|
    ensures pos <= e <= |s|
  {
    RunEnd(p, None, s, pos)
  }

  /** One past the last CR or LF in s[pos..end], or 0. */
  function LastNewlineEnd(s: seq<nat>, pos: nat, end: nat): (e: nat)
    requires pos <= end <= |s|
    ensures e == 0 || (pos < e <= end && IsNewline(s[e - 1]))
    ensures forall k :: pos <= k < end && k >= e ==> !IsNewline(s[k])
  {
    if pos == end then 0
    else if IsNewline(s[end - 1]) then end
    else LastNewlineEnd(s, pos, end - 1)
  }

  function WhitespaceEnd(cls: Classifier, newlines: bool, s: seq<nat>, pos: nat): (e: nat)
    requires pos < |s|
    ensures pos < e <= |s|
  {
    var w := Run(Blank(cls), s, pos);
    var rn := LastNewlineEnd(s, pos, w);
    if newlines && rn > 0 then rn
    else if w - pos > 1 && w < |s| then w - 1
    else if w > pos then w
    else pos + 1
  }

  function NumberEnd(kind: Kind, cls: Classifier, s: seq<nat>, pos: nat): (e: nat)
    requires pos < |s| && cls(s[pos]).number
    ensures pos < e <= |s|
  {
    if kind == Qwen2 then pos + 1 else RunEnd(Number(cls), Some(3), s, pos)
  }

  /** The end of the span qwen2 or llama3 cuts at pos. */
  function QwenLlamaEnd(kind: Kind, cls: Classifier, s: seq<nat>, pos: nat): (e: nat)
    requires pos < |s|
    ensures pos < e <= |s|
  {
    var c, f := s[pos], cls(s[pos]);
    if ContractionEnd(kind, s, pos).Some? then ContractionEnd(kind, s, pos).value
    else if !IsNewline(c) && !f.number && (f.letter || FlagsAt(cls, s, pos + 1).letter) then Run(Letter(cls), s, pos + 1)
    else if f.number then NumberEnd(kind, cls, s, pos)
    else
      var f2 := if c == SPACE then FlagsAt(cls, s, pos + 1) else f;
      if !(f2.whitespace || f2.letter || f2.number) && f.any then
        Run(Newline(), s, Run(Other(cls), s, if c == SPACE then pos + 1 else pos))
      else WhitespaceEnd(cls, true, s, pos)
  }

  /** The end of the span gpt2 cuts at pos. */
  function Gpt2End(cls: Classifier, s: seq<nat>, pos: nat): (e: nat)
    requires pos < |s|
    ensures pos < e <= |s|
  {
    var c := s[pos];
    var f2 := if c == SPACE then FlagsAt(cls, s, pos + 1) else cls(c);
    var from := if c == SPACE then pos + 1 else pos;
    if ContractionEnd(Gpt2, s, pos).Some? then ContractionEnd(Gpt2, s, pos).value
    else if f2.letter then Run(Letter(cls), s, from)
    else if f2.number then Run(Number(cls), s, from)
    else if IsOther(f2) then Run(Other(cls), s, from)
    else WhitespaceEnd(cls, false, s, pos)
  }

  function SpanEnd(kind: Kind, cls: Classifier, s: seq<nat>, pos: nat): (e: nat)
    requires pos < |s|
    ensures pos < e <= |s|
  {
    if kind == Gpt2 then Gpt2End(cls, s, pos) else QwenLlamaEnd(kind, cls, s, pos)
  }

  // ---- the regular expressions of the comments ----

  function One(p: nat -> bool): Pattern { Rep(p, 1, Some(1)) }
  function Maybe(p: nat -> bool): Pattern { Rep(p, 0, Some(1)) }
  function Some1(p: nat -> bool): Pattern { Rep(p, 1, None) }
  function Any0(p: nat -> bool): Pattern { Rep(p, 0, None) }
  function Chr(c: nat): nat -> bool { (x: nat) => x == c }
  function Folded(kind: Kind, c: nat): nat -> bool { (x: nat) => Fold(kind, x) == c }

  /** 's|'t|'re|'ve|'m|'ll|'d, case-insensitive except for gpt2. */
  function Contractions(kind: Kind): Pattern {
    var short := (c: nat) => Cat(One(Chr(APOSTROPHE)), One(Folded(kind, c)));
    var long := (c: nat, d: nat) => Cat(One(Chr(APOSTROPHE)), Cat(One(Folded(kind, c)), One(Folded(kind, d))));
    Alt(short(C_S), Alt(short(C_T), Alt(long(C_R, C_E), Alt(long(C_V, C_E), Alt(short(C_M), Alt(long(C_L, C_L), short(C_D)))))))
  }

  /** [^\r\n\p{L}\p{N}] */
  function Prefix(cls: Classifier): nat -> bool { (c: nat) => !IsNewline(c) && !cls(c).letter && !cls(c).number }

  /** [^\s\p{L}\p{N}] */
  function Punctuation(cls: Classifier): nat -> bool { (c: nat) => !cls(c).whitespace && !cls(c).letter && !cls(c).number }

  /** \S */
  function NonBlank(cls: Classifier): nat -> bool { (c: nat) => !cls(c).whitespace }

  function WordPattern(cls: Classifier): Pattern { Cat(Maybe(Prefix(cls)), Some1(Letter(cls))) }
  function SymbolPattern(cls: Classifier): Pattern {
    Cat(Maybe(Chr(SPACE)), Cat(Some1(Punctuation(cls)), Any0(Newline())))
  }
  function NewlinePattern(cls: Classifier): Pattern { Cat(Any0(Blank(cls)), Some1(Newline())) }
  function TrailingPattern(cls: Classifier): Pattern { Cat(Some1(Blank(cls)), NotAhead(NonBlank(cls))) }

  /** The whole alternation of each split. */
  function SplitPattern(kind: Kind, cls: Classifier): Pattern {
    match kind
    case Gpt2 =>
      Alt(Contractions(kind),
          Alt(Cat(Maybe(Chr(SPACE)), Some1(Letter(cls))),
              Alt(Cat(Maybe(Chr(SPACE)), Some1(Number(cls))),
                  Alt(Cat(Maybe(Chr(SPACE)), Some1(Punctuation(cls))),
                      Alt(TrailingPattern(cls), Some1(Blank(cls)))))))
    case _ =>
      Alt(Contractions(kind),
          Alt(WordPattern(cls),
              Alt(Rep(Number(cls), 1, Some(if kind == Qwen2 then 1 else 3)),
                  Alt(SymbolPattern(cls),
                      Alt(NewlinePattern(cls),
                          Alt(TrailingPattern(cls), Some1(Blank(cls))))))))
  }

  // ---- each alternative, read off the matcher ----

  lemma {:induction false} OneMatch(p: nat -> bool, s: seq<nat>, i: nat)
    requires i <= |s|
    ensures Match(One(p), s, i) == if i < |s| && p(s[i]) then Some(i + 1) else None
  {
    RepMatch(p, 1, Some(1), s, i);
  }

  lemma {:induction false} OneCatMatch(p: nat -> bool, b: Pattern, s: seq<nat>, i: nat)
    requires i <= |s|
    ensures Match(Cat(One(p), b), s, i) == if i < |s| && p(s[i]) then Match(b, s, i + 1) else None
  {
    if i < |s| && p(s[i]) && Match(b, s, i + 1).Some? {
      CatMatchLongest(p, 1, Some(1), b, s, i);
    } else {
      CatMatchNone(p, 1, Some(1), b, s, i);
    }
  }

  lemma {:induction false} ShortMatch(kind: Kind, c: nat, s: seq<nat>, i: nat)
    requires i < |s|
    ensures Match(Cat(One(Chr(APOSTROPHE)), One(Folded(kind, c))), s, i)
      == if s[i] == APOSTROPHE && i + 1 < |s| && Fold(kind, s[i + 1]) == c then Some(i + 2) else None
  {
    OneCatMatch(Chr(APOSTROPHE), One(Folded(kind, c)), s, i);
    OneMatch(Folded(kind, c), s, i + 1);
  }

  lemma {:induction false} LongMatch(kind: Kind, c: nat, d: nat, s: seq<nat>, i: nat)
    requires i < |s|
    ensures Match(Cat(One(Chr(APOSTROPHE)), Cat(One(Folded(kind, c)), One(Folded(kind, d)))), s, i)
      == if s[i] == APOSTROPHE && i + 2 < |s| && Fold(kind, s[i + 1]) == c && Fold(kind, s[i + 2]) == d
         then Some(i + 3) else None
  {
    OneCatMatch(Chr(APOSTROPHE), Cat(One(Folded(kind, c)), One(Folded(kind, d))), s, i);
    OneCatMatch(Folded(kind, c), One(Folded(kind, d)), s, i + 1);
    if i + 2 <= |s| {
      OneMatch(Folded(kind, d), s, i + 2);
    }
  }

  lemma {:induction false} ContractionMatch(kind: Kind, s: seq<nat>, i: nat)
    requires i < |s|
    ensures Match(Contractions(kind), s, i) == ContractionEnd(kind, s, i)
  {
    hide Match, RepEnds, Fold;
    ShortMatch(kind, C_S, s, i);
    ShortMatch(kind, C_T, s, i);
    LongMatch(kind, C_R, C_E, s, i);
    LongMatch(kind, C_V, C_E, s, i);
    ShortMatch(kind, C_M, s, i);
    LongMatch(kind, C_L, C_L, s, i);
    ShortMatch(kind, C_D, s, i);
    var short := (c: nat) => Cat(One(Chr(APOSTROPHE)), One(Folded(kind, c)));
    var long := (c: nat, d: nat) => Cat(One(Chr(APOSTROPHE)), Cat(One(Folded(kind, c)), One(Folded(kind, d))));
    var p6 := Alt(long(C_L, C_L), short(C_D));
    var p5 := Alt(short(C_M), p6);
    var p4 := Alt(long(C_V, C_E), p5);
    var p3 := Alt(long(C_R, C_E), p4);
    var p2 := Alt(short(C_T), p3);
    AltMatch(long(C_L, C_L), short(C_D), s, i);
    AltMatch(short(C_M), p6, s, i);
    AltMatch(long(C_V, C_E), p5, s, i);
    AltMatch(long(C_R, C_E), p4, s, i);
    AltMatch(short(C_T), p3, s, i);
    AltMatch(short(C_S), p2, s, i);
  }

  /** x? is taken when the rest matches after it, and given back otherwise. */
  lemma {:induction false} MaybeRun(x: nat -> bool, s: seq<nat>, i: nat)
    requires i < |s|
    ensures RunEnd(x, Some(1), s, i) == if x(s[i]) then i + 1 else i
  {
  }

  lemma {:induction false} MaybeMatch(x: nat -> bool, b: Pattern, s: seq<nat>, i: nat)
    requires i < |s|
    ensures Match(Cat(Maybe(x), b), s, i)
      == if x(s[i]) && Match(b, s, i + 1).Some? then Match(b, s, i + 1) else Match(b, s, i)
  {
    MaybeRun(x, s, i);
    hide Ends, RepEnds, CatEnds, Match, RunEnd;
    if x(s[i]) && Match(b, s, i + 1).Some? {
      CatMatchLongest(x, 0, Some(1), b, s, i);
    } else if Match(b, s, i).Some? {
      CatMatchBacktrack(x, 0, Some(1), b, s, i, i);
    } else {
      CatMatchNone(x, 0, Some(1), b, s, i);
    }
  }

  lemma {:induction false} Some1Match(p: nat -> bool, s: seq<nat>, i: nat)
    requires i <= |s|
    ensures Match(Some1(p), s, i) == if i < |s| && p(s[i]) then Some(Run(p, s, i)) else None
  {
    RepMatch(p, 1, None, s, i);
  }

  lemma {:induction false} SameRun(p: nat -> bool, q: nat -> bool, s: seq<nat>, i: nat)
    requires i <= |s| && forall k :: i <= k < |s| ==> (p(s[k]) <==> q(s[k]))
    ensures Run(p, s, i) == Run(q, s, i)
    decreases |s| - i
  {
    if i < |s| && p(s[i]) {
      SameRun(p, q, s, i + 1);
    }
  }

  lemma {:induction false} WordMatch(cls: Classifier, s: seq<nat>, i: nat)
    requires WellClassified(cls) && i < |s|
    ensures var c, f := s[i], cls(s[i]);
      Match(WordPattern(cls), s, i)
      == if !IsNewline(c) && !f.number && (f.letter || FlagsAt(cls, s, i + 1).letter) then Some(Run(Letter(cls), s, i + 1))
         else None
  {
    MaybeMatch(Prefix(cls), Some1(Letter(cls)), s, i);
    Some1Match(Letter(cls), s, i);
    Some1Match(Letter(cls), s, i + 1);
    assert Disjoint(cls(s[i]));
  }

  lemma {:induction false} SymbolRest(cls: Classifier, s: seq<nat>, i: nat)
    requires WellClassified(cls) && i <= |s|
    ensures Match(Cat(Some1(Punctuation(cls)), Any0(Newline())), s, i)
      == if i < |s| && IsOther(cls(s[i])) then Some(Run(Newline(), s, Run(Other(cls), s, i))) else None
  {
    assert forall k :: 0 <= k < |s| ==> Disjoint(cls(s[k]));
    SameRun(Punctuation(cls), Other(cls), s, i);
    var e := Run(Punctuation(cls), s, i);
    RepMatch(Newline(), 0, None, s, e);
    if i < |s| && IsOther(cls(s[i])) {
      CatMatchLongest(Punctuation(cls), 1, None, Any0(Newline()), s, i);
    } else {
      CatMatchNone(Punctuation(cls), 1, None, Any0(Newline()), s, i);
    }
  }

  lemma {:induction false} SymbolMatch(cls: Classifier, s: seq<nat>, i: nat)
    requires WellClassified(cls) && i < |s|
    ensures var from := if s[i] == SPACE then i + 1 else i;
      Match(SymbolPattern(cls), s, i)
      == if from < |s| && IsOther(cls(s[from])) then Some(Run(Newline(), s, Run(Other(cls), s, from))) else None
  {
    MaybeMatch(Chr(SPACE), Cat(Some1(Punctuation(cls)), Any0(Newline())), s, i);
    SymbolRest(cls, s, i);
    SymbolRest(cls, s, i + 1);
  }

  /** `\s*[\r\n]+` ends after the last line break of the white-space run. */
  lemma {:induction false} NewlineMatch(cls: Classifier, s: seq<nat>, i: nat)
    requires WellClassified(cls) && i < |s|
    ensures var rn := LastNewlineEnd(s, i, Run(Blank(cls), s, i));
      Match(NewlinePattern(cls), s, i) == if rn > 0 then Some(rn) else None
  {
    hide Ends, RepEnds, CatEnds, Match, LastNewlineEnd;
    var w := Run(Blank(cls), s, i);
    var rn := LastNewlineEnd(s, i, w);
    assert w < |s| ==> !IsNewline(s[w]);
    forall k | i <= k <= w
      ensures Match(Some1(Newline()), s, k) == if k < |s| && IsNewline(s[k]) then Some(Run(Newline(), s, k)) else None
    {
      Some1Match(Newline(), s, k);
    }
    if rn > 0 {
      assert RunEnd(Newline(), None, s, rn) == rn;
      CatMatchBacktrack(Blank(cls), 0, None, Some1(Newline()), s, i, rn - 1);
    } else {
      CatMatchNone(Blank(cls), 0, None, Some1(Newline()), s, i);
    }
  }

  lemma {:induction false} AheadMatch(cls: Classifier, s: seq<nat>, k: nat)
    ensures Match(NotAhead(NonBlank(cls)), s, k) == if k < |s| && !cls(s[k]).whitespace then None else Some(k)
  {
  }

  /** The look-ahead holds at the end of the text and before white space. */
  predicate NoWordAt(cls: Classifier, s: seq<nat>, k: nat) {
    k < |s| ==> cls(s[k]).whitespace
  }

  lemma {:induction false} TrailingAt(cls: Classifier, s: seq<nat>, i: nat, e: nat)
    requires i <= |s| && i < e <= Run(Blank(cls), s, i) && NoWordAt(cls, s, e)
    requires forall k :: e < k <= Run(Blank(cls), s, i) ==> !NoWordAt(cls, s, k)
    ensures Match(TrailingPattern(cls), s, i) == Some(e)
  {
    hide Ends, RepEnds, CatEnds, Match, Regex.RunEnd;
    var ahead := NotAhead(NonBlank(cls));
    AheadMatch(cls, s, e);
    forall k | e < k <= Run(Blank(cls), s, i) ensures Match(ahead, s, k).None? {
      AheadMatch(cls, s, k);
      assert !NoWordAt(cls, s, k);
    }
    CatMatchBacktrack(Blank(cls), 1, None, ahead, s, i, e);
  }

  lemma {:induction false} TrailingNowhere(cls: Classifier, s: seq<nat>, i: nat)
    requires i <= |s| && forall k :: i < k <= Run(Blank(cls), s, i) ==> !NoWordAt(cls, s, k)
    ensures Match(TrailingPattern(cls), s, i) == None
  {
    hide Ends, RepEnds, CatEnds, Match, Regex.RunEnd;
    var ahead := NotAhead(NonBlank(cls));
    forall k | i + 1 <= k <= Run(Blank(cls), s, i) ensures Match(ahead, s, k).None? {
      AheadMatch(cls, s, k);
      assert !NoWordAt(cls, s, k);
    }
    CatMatchNone(Blank(cls), 1, None, ahead, s, i);
  }

  /** `\s+(?!\S)` leaves the last blank of a run to what follows it, unless the text ends there. */
  lemma {:induction false} TrailingMatch(cls: Classifier, s: seq<nat>, i: nat)
    requires i < |s|
    ensures var w := Run(Blank(cls), s, i);
      Match(TrailingPattern(cls), s, i)
      == if w == |s| && w > i then Some(w) else if w < |s| && w - i > 1 then Some(w - 1) else None
  {
    hide Match, TrailingPattern, Regex.RunEnd;
    var w := Run(Blank(cls), s, i);
    if w == |s| && w > i {
      TrailingAt(cls, s, i, w);
    } else if w < |s| && w - i > 1 {
      TrailingAt(cls, s, i, w - 1);
    } else {
      TrailingNowhere(cls, s, i);
    }
  }

  lemma {:induction false} MaybeSpaceRun(p: nat -> bool, s: seq<nat>, i: nat)
    requires i < |s| && !p(SPACE)
    ensures var from := if s[i] == SPACE then i + 1 else i;
      Match(Cat(Maybe(Chr(SPACE)), Some1(p)), s, i) == if from < |s| && p(s[from]) then Some(Run(p, s, from)) else None
  {
    MaybeMatch(Chr(SPACE), Some1(p), s, i);
    Some1Match(p, s, i);
    Some1Match(p, s, i + 1);
  }

  // ---- every span is the match of the alternation ----

  function Or(a: Option<nat>, b: Option<nat>): Option<nat> {
    if a.Some? then a else b
  }

  lemma {:induction false} QwenLlamaAlternatives(kind: Kind, cls: Classifier, s: seq<nat>, i: nat)
    requires kind != Gpt2
    ensures Match(SplitPattern(kind, cls), s, i)
      == Or(Match(Contractions(kind), s, i),
            Or(Match(WordPattern(cls), s, i),
               Or(Match(Rep(Number(cls), 1, Some(if kind == Qwen2 then 1 else 3)), s, i),
                  Or(Match(SymbolPattern(cls), s, i),
                     Or(Match(NewlinePattern(cls), s, i),
                        Or(Match(TrailingPattern(cls), s, i), Match(Some1(Blank(cls)), s, i)))))))
  {
    hide Match, WordPattern, SymbolPattern, NewlinePattern, TrailingPattern, Contractions;
    var numbers := Rep(Number(cls), 1, Some(if kind == Qwen2 then 1 else 3));
    var p5 := Alt(TrailingPattern(cls), Some1(Blank(cls)));
    var p4 := Alt(NewlinePattern(cls), p5);
    var p3 := Alt(SymbolPattern(cls), p4);
    var p2 := Alt(numbers, p3);
    AltMatch(Contractions(kind), Alt(WordPattern(cls), p2), s, i);
    AltMatch(WordPattern(cls), p2, s, i);
    AltMatch(numbers, p3, s, i);
    AltMatch(SymbolPattern(cls), p4, s, i);
    AltMatch(NewlinePattern(cls), p5, s, i);
    AltMatch(TrailingPattern(cls), Some1(Blank(cls)), s, i);
  }

  /** The three white-space alternatives together. */
  lemma {:induction false} WhitespaceMatch(cls: Classifier, s: seq<nat>, i: nat)
    requires WellClassified(cls) && i < |s|
    ensures Or(Match(NewlinePattern(cls), s, i), Or(Match(TrailingPattern(cls), s, i), Match(Some1(Blank(cls)), s, i)))
      == if cls(s[i]).whitespace then Some(WhitespaceEnd(cls, true, s, i)) else None
  {
    hide Match, NewlinePattern, TrailingPattern, LastNewlineEnd, Regex.RunEnd;
    NewlineMatch(cls, s, i);
    TrailingMatch(cls, s, i);
    Some1Match(Blank(cls), s, i);
  }

  lemma {:induction false} NumbersMatch(kind: Kind, cls: Classifier, s: seq<nat>, i: nat)
    requires i < |s| && kind != Gpt2
    ensures Match(Rep(Number(cls), 1, Some(if kind == Qwen2 then 1 else 3)), s, i)
      == if cls(s[i]).number then Some(NumberEnd(kind, cls, s, i)) else None
  {
    hide Match;
    RepMatch(Number(cls), 1, Some(if kind == Qwen2 then 1 else 3), s, i);
  }

  lemma {:induction false} QwenLlamaIsMatch(kind: Kind, cls: Classifier, s: seq<nat>, i: nat)
    requires WellClassified(cls) && i < |s| && kind != Gpt2
    ensures Match(SplitPattern(kind, cls), s, i) == Some(QwenLlamaEnd(kind, cls, s, i))
  {
    hide Match, SplitPattern, WordPattern, SymbolPattern, NewlinePattern, TrailingPattern, Contractions, ContractionEnd, WhitespaceEnd, NumberEnd, Run;
    QwenLlamaAlternatives(kind, cls, s, i);
    ContractionMatch(kind, s, i);
    WordMatch(cls, s, i);
    NumbersMatch(kind, cls, s, i);
    SymbolMatch(cls, s, i);
    WhitespaceMatch(cls, s, i);
    assert Disjoint(cls(s[i]));
    assert i + 1 < |s| ==> Disjoint(cls(s[i + 1]));
  }

  lemma {:induction false} Gpt2IsMatch(cls: Classifier, s: seq<nat>, i: nat)
    requires WellClassified(cls) && i < |s|
    ensures Match(SplitPattern(Gpt2, cls), s, i) == Some(Gpt2End(cls, s, i))
  {
    hide Match, TrailingPattern, Contractions, ContractionEnd;
    var space := Maybe(Chr(SPACE));
    var p4 := Alt(TrailingPattern(cls), Some1(Blank(cls)));
    var p3 := Alt(Cat(space, Some1(Punctuation(cls))), p4);
    var p2 := Alt(Cat(space, Some1(Number(cls))), p3);
    var p1 := Alt(Cat(space, Some1(Letter(cls))), p2);
    AltMatch(Contractions(Gpt2), p1, s, i);
    AltMatch(Cat(space, Some1(Letter(cls))), p2, s, i);
    AltMatch(Cat(space, Some1(Number(cls))), p3, s, i);
    AltMatch(Cat(space, Some1(Punctuation(cls))), p4, s, i);
    AltMatch(TrailingPattern(cls), Some1(Blank(cls)), s, i);
    ContractionMatch(Gpt2, s, i);
    assert Disjoint(cls(SPACE));
    MaybeSpaceRun(Letter(cls), s, i);
    MaybeSpaceRun(Number(cls), s, i);
    MaybeSpaceRun(Punctuation(cls), s, i);
    assert forall k :: 0 <= k < |s| ==> Disjoint(cls(s[k]));
    SameRun(Punctuation(cls), Other(cls), s, if s[i] == SPACE then i + 1 else i);
    TrailingMatch(cls, s, i);
    Some1Match(Blank(cls), s, i);
  }

  /** Each span is exactly the leftmost-first match of the split's regular expression, on any text. */
  lemma {:induction false} SpanIsMatch(kind: Kind, cls: Classifier, s: seq<nat>, pos: nat)
    requires WellClassified(cls) && pos < |s|
    ensures Match(SplitPattern(kind, cls), s, pos) == Some(SpanEnd(kind, cls, s, pos))
  {
    if kind == Gpt2 {
      Gpt2IsMatch(cls, s, pos);
    } else {
      QwenLlamaIsMatch(kind, cls, s, pos);
    }
  }

  // ---- the list of spans ----

  datatype Span = Span(start: nat, len: nat)

  /** The spans cut from pos to the end of the text, or None when there are more than `cap`. */
  function Split(kind: Kind, cls: Classifier, s: seq<nat>, pos: nat, cap: nat): Option<seq<Span>>
    requires pos <= |s|
    decreases |s| - pos
  {
    if pos == |s| then Some([])
    else if cap == 0 then None
    else
      var e := SpanEnd(kind, cls, s, pos);
      Before([Span(pos, e - pos)], Split(kind, cls, s, e, cap - 1))
  }

  function Before(spans: seq<Span>, rest: Option<seq<Span>>): Option<seq<Span>> {
    if rest.Some? then Some(spans + rest.value) else None
  }

  lemma {:induction false} BeforeLaws(a: seq<Span>, b: seq<Span>, rest: Option<seq<Span>>)
    ensures Before([], rest) == rest
    ensures Before(a, Before(b, rest)) == Before(a + b, rest)
    ensures Before(a, Some([])) == Some(a)
  {
    assert rest.Some? ==> [] + rest.value == rest.value && a + (b + rest.value) == (a + b) + rest.value;
    assert a + [] == a;
  }

  /** Contiguous, non-empty spans from `from` to the end, each the leftmost-first match at its start. */
  ghost predicate MatchTiles(kind: Kind, cls: Classifier, s: seq<nat>, spans: seq<Span>, from: nat) {
    if spans == [] then from == |s|
    else
      && spans[0].start == from < |s| && spans[0].len > 0
      && Match(SplitPattern(kind, cls), s, from) == Some(from + spans[0].len)
      && MatchTiles(kind, cls, s, spans[1..], from + spans[0].len)
  }

  lemma {:induction false} SplitTiles(kind: Kind, cls: Classifier, s: seq<nat>, pos: nat, cap: nat)
    requires WellClassified(cls) && pos <= |s| && Split(kind, cls, s, pos, cap).Some?
    ensures MatchTiles(kind, cls, s, Split(kind, cls, s, pos, cap).value, pos)
    ensures |Split(kind, cls, s, pos, cap).value| <= cap
    decreases |s| - pos
  {
    if pos < |s| {
      hide Match, SplitPattern, SpanEnd, MatchTiles, WellClassified;
      var e := SpanEnd(kind, cls, s, pos);
      SpanIsMatch(kind, cls, s, pos);
      SplitTiles(kind, cls, s, e, cap - 1);
      TilesCons(kind, cls, s, pos, e, Split(kind, cls, s, e, cap - 1).value);
    } else {
      NoTiles(kind, cls, s);
    }
  }

  lemma {:induction false} NoTiles(kind: Kind, cls: Classifier, s: seq<nat>)
    ensures MatchTiles(kind, cls, s, [], |s|)
  {
  }

  lemma {:induction false} TilesCons(kind: Kind, cls: Classifier, s: seq<nat>, pos: nat, e: nat, rest: seq<Span>)
    requires pos < e <= |s| && Match(SplitPattern(kind, cls), s, pos) == Some(e) && MatchTiles(kind, cls, s, rest, e)
    ensures MatchTiles(kind, cls, s, [Span(pos, e - pos)] + rest, pos)
  {
    hide Match, SplitPattern;
    var spans := [Span(pos, e - pos)] + rest;
    assert spans[1..] == rest;
  }

  // ---- llama3 cuts no finer than qwen2 ----

  /** Position c ends a span when the text is cut from pos on. */
  predicate IsCut(kind: Kind, cls: Classifier, s: seq<nat>, pos: nat, c: nat)
    requires pos <= |s|
    decreases |s| - pos
  {
    pos < |s| && (SpanEnd(kind, cls, s, pos) == c || IsCut(kind, cls, s, SpanEnd(kind, cls, s, pos), c))
  }

  /** Qwen2 walks through a run of numbers one by one, so it also cuts wherever it would from the end of the run. */
  lemma {:induction false} Qwen2WalksNumbers(cls: Classifier, s: seq<nat>, pos: nat, e: nat, c: nat)
    requires WellClassified(cls) && pos < e <= |s| && forall k :: pos <= k < e ==> cls(s[k]).number
    requires c == e || IsCut(Qwen2, cls, s, e, c)
    ensures IsCut(Qwen2, cls, s, pos, c)
    decreases e - pos
  {
    assert SpanEnd(Qwen2, cls, s, pos) == pos + 1;
    if pos + 1 < e {
      Qwen2WalksNumbers(cls, s, pos + 1, e, c);
    }
  }

  /** Every position where llama3 ends a span is one where qwen2 ends a span. */
  lemma {:induction false} Llama3CutsAreQwen2Cuts(cls: Classifier, s: seq<nat>, pos: nat, c: nat)
    requires WellClassified(cls) && pos <= |s| && IsCut(Llama3, cls, s, pos, c)
    ensures IsCut(Qwen2, cls, s, pos, c)
    decreases |s| - pos
  {
    var e := SpanEnd(Llama3, cls, s, pos);
    if e != c {
      Llama3CutsAreQwen2Cuts(cls, s, e, c);
    }
    if SpanEnd(Qwen2, cls, s, pos) != e {
      Qwen2WalksNumbers(cls, s, pos, e, c);
    }
  }

  // ---- the three functions ----

  /** The code points the decoder can produce stay below the out-of-range marker. */
  ghost predicate ValidText(cpts: seq<nat>) {
    forall k :: 0 <= k < |cpts| ==> cpts[k] < NO_CPT
  }

  /** One split in progress: the text up to `end`, the spans so far, and where the next one starts. */
  class Cutter {
    const kind: Kind
    const cls: Classifier
    const text: seq<nat>
    const ini: nat
    const cap: nat
    var spans: seq<Span>
    var prevEnd: nat
    var pos: nat

    constructor (kind: Kind, cls: Classifier, cpts: seq<nat>, ini: nat, end: nat, cap: nat)
      requires ini <= end <= |cpts|
      ensures this.kind == kind && this.cls == cls && text == cpts[..end] && this.ini == ini && this.cap == cap
      ensures Valid() && pos == prevEnd == ini
    {
      this.kind := kind;
      this.cls := cls;
      text := cpts[..end];
      this.ini := ini;
      this.cap := cap;
      spans := [];
      prevEnd, pos := ini, ini;
      new;
      BeforeLaws([], [], Split(kind, cls, text, ini, cap));
    }

    /** The spans so far are the first ones of the split, and the rest continues at prevEnd. */
    ghost predicate Valid()
      reads this
    {
      && ini <= prevEnd <= pos <= |text| && |spans| <= cap
      && Split(kind, cls, text, ini, cap) == Before(spans, Split(kind, cls, text, prevEnd, cap - |spans|))
    }

    function Cpt(p: nat): nat
      reads this
    {
      if p < |text| then text[p] else NO_CPT
    }

    function FlagsOf(p: nat): Flags
      reads this
    {
      FlagsAt(cls, text, p)
    }

    /** ADD_TOKEN: false when the span buffer is full. */
    method AddToken(end: nat) returns (ok: bool)
      requires Valid() && prevEnd <= end <= |text|
      requires prevEnd < end ==> end == SpanEnd(kind, cls, text, prevEnd)
      modifies this
      ensures ok ==> Valid() && prevEnd == pos == end && ini <= old(prevEnd)
      ensures !ok ==> Split(kind, cls, text, ini, cap) == None
    {
      hide SpanEnd;
      if end > prevEnd {
        if |spans| >= cap {
          return false;
        }
        BeforeLaws(spans, [Span(prevEnd, end - prevEnd)], Split(kind, cls, text, end, cap - |spans| - 1));
        spans := spans + [Span(prevEnd, end - prevEnd)];
      }
      prevEnd, pos := end, end;
      ok := true;
    }

    /** Advances over the run of class p at pos; the four inner loops of the splits. */
    method SkipRun(p: nat -> bool)
      requires pos <= |text|
      modifies this`pos
      ensures old(pos) <= pos == Run(p, text, old(pos))
    {
      ghost var from := pos;
      while pos < |text| && p(text[pos])
        invariant from <= pos <= |text| && Run(p, text, from) == Run(p, text, pos)
      {
        pos := pos + 1;
      }
    }

    /** Length of the white-space run at pos, and one past its last line break or 0. */
    method ScanWhitespace() returns (numWs: nat, lastEndRn: nat)
      requires pos <= |text|
      ensures pos + numWs == Run(Blank(cls), text, pos)
      ensures lastEndRn == LastNewlineEnd(text, pos, pos + numWs)
    {
      numWs, lastEndRn := 0, 0;
      while FlagsOf(pos + numWs).whitespace
        invariant pos + numWs <= |text| && Run(Blank(cls), text, pos) == Run(Blank(cls), text, pos + numWs)
        invariant lastEndRn == LastNewlineEnd(text, pos, pos + numWs)
        decreases |text| - numWs
      {
        if IsNewline(Cpt(pos + numWs)) {
          lastEndRn := pos + numWs + 1;
        }
        numWs := numWs + 1;
      }
    }

    /** The contraction alternative: how far it reaches, 0 when it does not match. */
    method TryContraction() returns (len: nat)
      requires pos < |text|
      ensures pos + len <= |text|
      ensures ContractionEnd(kind, text, pos) == if len == 0 then None else Some(pos + len)
    {
      if Cpt(pos) == APOSTROPHE && pos + 1 < |text| {
        var c1 := Fold(kind, Cpt(pos + 1));
        if IsShortSuffix(c1) {
          return 2;
        }
        if pos + 2 < |text| {
          var c2 := Fold(kind, Cpt(pos + 2));
          if IsLongSuffix(c1, c2) {
            return 3;
          }
        }
      }
      len := 0;
    }

    /** The white-space alternatives and the fallback. */
    method CutWhitespace(newlines: bool) returns (ok: bool)
      requires Valid() && pos == prevEnd < |text| && ValidText(text)
      requires SpanEnd(kind, cls, text, pos) == WhitespaceEnd(cls, newlines, text, pos)
      modifies this
      ensures ok ==> Valid() && pos == prevEnd == SpanEnd(kind, cls, text, old(pos))
      ensures !ok ==> Split(kind, cls, text, ini, cap) == None
    {
      var numWs, lastEndRn := ScanWhitespace();
      if newlines && lastEndRn > 0 {
        ok := AddToken(lastEndRn);
      } else if numWs > 1 && Cpt(pos + numWs) != NO_CPT {
        ok := AddToken(pos + numWs - 1);
      } else if numWs > 0 {
        ok := AddToken(pos + numWs);
      } else {
        ok := AddToken(pos + 1);
      }
    }

    /** One turn of the qwen2 or llama3 loop; llama3's number alternative cuts a whole run of numbers in threes. */
    method CutQwenLlama() returns (ok: bool)
      requires Valid() && pos == prevEnd < |text| && ValidText(text) && WellClassified(cls) && kind != Gpt2
      modifies this
      ensures ok ==> Valid() && old(pos) < pos == prevEnd
      ensures !ok ==> Split(kind, cls, text, ini, cap) == None
    {
      hide Split, Before, WellClassified, RunEnd, LastNewlineEnd, ContractionEnd;
      var cpt, flags := Cpt(pos), FlagsOf(pos);
      var len := TryContraction();
      if len > 0 {
        ok := AddToken(pos + len);
        return;
      }
      if !(cpt == CR || cpt == LF || flags.number) {
        if flags.letter || FlagsOf(pos + 1).letter {
          ok := CutWord();
          return;
        }
      }
      if flags.number {
        if kind == Qwen2 {
          ok := AddToken(pos + 1);
        } else {
          ok := CutNumbersInThrees();
        }
        return;
      }
      var flags2 := if cpt == SPACE then FlagsOf(pos + 1) else flags;
      if !(flags2.whitespace || flags2.letter || flags2.number) && flags.any {
        ok := CutSymbols();
        return;
      }
      ok := CutWhitespace(true);
    }

    /** [^\r\n\p{L}\p{N}]?\p{L}+ */
    method CutWord() returns (ok: bool)
      requires Valid() && pos == prevEnd < |text|
      requires SpanEnd(kind, cls, text, pos) == Run(Letter(cls), text, pos + 1)
      modifies this
      ensures ok ==> Valid() && old(pos) < pos == prevEnd
      ensures !ok ==> Split(kind, cls, text, ini, cap) == None
    {
      hide Split, Before, RunEnd, SpanEnd;
      pos := pos + 1;
      SkipRun(Letter(cls));
      ok := AddToken(pos);
    }

    /** <space>?[^\s\p{L}\p{N}]+[\r\n]* */
    method CutSymbols() returns (ok: bool)
      requires Valid() && pos == prevEnd < |text|
      requires SpanEnd(kind, cls, text, pos)
        == Run(Newline(), text, Run(Other(cls), text, if text[pos] == SPACE then pos + 1 else pos))
      modifies this
      ensures ok ==> Valid() && old(pos) < pos == prevEnd
      ensures !ok ==> Split(kind, cls, text, ini, cap) == None
    {
      hide Split, Before, RunEnd, SpanEnd;
      if Cpt(pos) == SPACE {
        pos := pos + 1;
      }
      SkipRun(Other(cls));
      SkipRun(Newline());
      ok := AddToken(pos);
    }

    method CutNumbersInThrees() returns (ok: bool)
      requires Valid() && pos == prevEnd < |text| && WellClassified(cls) && kind == Llama3 && cls(text[pos]).number
      modifies this
      ensures ok ==> Valid() && old(pos) < pos == prevEnd
      ensures !ok ==> Split(kind, cls, text, ini, cap) == None
    {
      hide Split, Before, RunEnd, SpanEnd;
      ghost var from := pos;
      var start := pos;
      while FlagsOf(pos).number
        invariant Valid() && prevEnd == start && from <= start && start <= pos < start + 3
        invariant forall k :: start <= k < pos ==> cls(text[k]).number
        invariant pos == from ==> cls(text[pos]).number
        decreases |text| - pos
      {
        pos := pos + 1;
        if pos - start >= 3 {
          NumbersInThrees(cls, text, start, pos);
          ok := AddToken(pos);
          if !ok {
            return;
          }
          start := pos;
        }
      }
      if start < pos {
        NumbersInThrees(cls, text, start, pos);
      }
      ok := AddToken(pos);
    }

    /** One turn of the gpt2 loop. */
    method CutGpt2() returns (ok: bool)
      requires Valid() && pos == prevEnd < |text| && ValidText(text) && kind == Gpt2
      modifies this
      ensures ok ==> Valid() && old(pos) < pos == prevEnd
      ensures !ok ==> Split(kind, cls, text, ini, cap) == None
    {
      hide Split, Before, RunEnd, LastNewlineEnd, ContractionEnd;
      var cpt := Cpt(pos);
      var len := TryContraction();
      if len > 0 {
        ok := AddToken(pos + len);
        return;
      }
      var flags2 := if cpt == SPACE then FlagsOf(pos + 1) else FlagsOf(pos);
      if flags2.letter || flags2.number || IsOther(flags2) {
        if cpt == SPACE {
          pos := pos + 1;
        }
        SkipRun(if flags2.letter then Letter(cls) else if flags2.number then Number(cls) else Other(cls));
        ok := AddToken(pos);
        return;
      }
      ok := CutWhitespace(false);
    }
  }

  /** A chunk of at most three numbers is the span llama3 cuts at its start. */
  lemma {:induction false} NumbersInThrees(cls: Classifier, s: seq<nat>, start: nat, pos: nat)
    requires WellClassified(cls) && start < pos <= |s| && pos <= start + 3
    requires forall k :: start <= k < pos ==> cls(s[k]).number
    requires pos == start + 3 || !FlagsAt(cls, s, pos).number
    ensures SpanEnd(Llama3, cls, s, start) == pos
  {
  }

  /** The split function of each kind: the spans of cpts[ini..end], or None for the -1 of a full span buffer. */
  method SplitSpan(kind: Kind, cls: Classifier, cpts: seq<nat>, ini: nat, end: nat, cap: nat) returns (r: Option<seq<Span>>)
    requires ini <= end <= |cpts| && ValidText(cpts) && WellClassified(cls)
    ensures r == Split(kind, cls, cpts[..end], ini, cap)
  {
    var cut := new Cutter(kind, cls, cpts, ini, end, cap);
    while cut.pos < end
      invariant cut.Valid() && cut.pos == cut.prevEnd
      decreases end - cut.pos
    {
      var ok;
      if kind == Gpt2 {
        ok := cut.CutGpt2();
      } else {
        ok := cut.CutQwenLlama();
      }
      if !ok {
        return None;
      }
    }
    BeforeLaws(cut.spans, [], None);
    r := Some(cut.spans);
  }
}
