/** The classes, suffixes and cuts of the pre-tokenizers in plain code points, with worked examples on ASCII text. */
module SplitMeaning {
  import opened Common
  import opened Regex
  import opened PreTokenizer

  /** The classes of the three regular expressions. */
  lemma {:induction false} ClassesAre(cls: Classifier, c: nat)
    requires WellClassified(cls)
    ensures IsNewline(c) <==> c == 10 || c == 13
    ensures Newline()(c) <==> c == 10 || c == 13
    ensures Letter(cls)(c) == cls(c).letter && Number(cls)(c) == cls(c).number && Blank(cls)(c) == cls(c).whitespace
    ensures NonBlank(cls)(c) <==> !cls(c).whitespace
    ensures Prefix(cls)(c) <==> c != 10 && c != 13 && !cls(c).letter && !cls(c).number
    ensures Punctuation(cls)(c) <==> !cls(c).whitespace && !cls(c).letter && !cls(c).number
    ensures Other(cls)(c) <==> Punctuation(cls)(c)
    ensures Chr(SPACE)(c) <==> c == 32
    ensures Chr(APOSTROPHE)(c) <==> c == 39
  {
    assert Disjoint(cls(c));
  }

  function Lower(kind: Kind, c: nat): nat {
    if kind != Gpt2 && 65 <= c <= 90 then c + 32 else c
  }

  /** 's, 't, 'm, 'd, 're, 've and 'll, in either case for qwen2 and llama3. */
  lemma {:induction false} ContractionIs(kind: Kind, s: seq<nat>, pos: nat, e: nat)
    requires pos < |s|
    ensures ContractionEnd(kind, s, pos) == Some(e) <==>
      && s[pos] == 39 && e <= |s|
      && (|| (e == pos + 2 && Lower(kind, s[pos + 1]) in [115, 116, 109, 100])
          || (e == pos + 3 && Lower(kind, s[pos + 1]) == 114 && Lower(kind, s[pos + 2]) == 101)
          || (e == pos + 3 && Lower(kind, s[pos + 1]) == 118 && Lower(kind, s[pos + 2]) == 101)
          || (e == pos + 3 && Lower(kind, s[pos + 1]) == 108 && Lower(kind, s[pos + 2]) == 108))
  {
  }

  /** A llama3 number span is a run of up to three, a qwen2 one a single number, and both are maximal within that. */
  lemma {:induction false} NumberIs(kind: Kind, cls: Classifier, s: seq<nat>, pos: nat)
    requires pos < |s| && cls(s[pos]).number
    ensures var e := NumberEnd(kind, cls, s, pos);
            && (forall k :: pos <= k < e ==> cls(s[k]).number)
            && (kind == Qwen2 ==> e == pos + 1)
            && (kind != Qwen2 ==> e - pos <= 3 && (e - pos < 3 && e < |s| ==> !cls(s[e]).number))
  {
  }

  // ---- examples ----

  /** ASCII letters, digits and white space. */
  function Ascii(c: nat): Flags {
    Flags(48 <= c <= 57, 65 <= c <= 90 || 97 <= c <= 122, c == 32 || 9 <= c <= 13, true)
  }

  /** A run that is followed by the end of the text or by another character ends there. */
  lemma {:induction false} RunIs(p: nat -> bool, s: seq<nat>, pos: nat, e: nat)
    requires pos <= e <= |s| && (forall k :: pos <= k < e ==> p(s[k])) && (e < |s| ==> !p(s[e]))
    ensures Run(p, s, pos) == e
    decreases e - pos
  {
    if pos < e {
      RunIs(p, s, pos + 1, e);
    }
  }

  predicate IsLetter(c: nat) {
    65 <= c <= 90 || 97 <= c <= 122
  }

  predicate IsWhite(c: nat) {
    c == 32 || 9 <= c <= 13
  }

  predicate IsSymbol(c: nat) {
    !IsLetter(c) && !IsWhite(c) && !(48 <= c <= 57)
  }

  lemma {:induction false} LetterRun(s: seq<nat>, pos: nat, e: nat)
    requires pos <= e <= |s| && (forall k :: pos <= k < e ==> IsLetter(s[k])) && (e < |s| ==> !IsLetter(s[e]))
    ensures Run(Letter(Ascii), s, pos) == e
  {
    forall c ensures Letter(Ascii)(c) == IsLetter(c) {
      assert Ascii(c).letter == IsLetter(c);
    }
    RunIs(Letter(Ascii), s, pos, e);
  }

  lemma {:induction false} WhiteRun(s: seq<nat>, pos: nat, e: nat)
    requires pos <= e <= |s| && (forall k :: pos <= k < e ==> IsWhite(s[k])) && (e < |s| ==> !IsWhite(s[e]))
    ensures Run(Blank(Ascii), s, pos) == e
  {
    forall c ensures Blank(Ascii)(c) == IsWhite(c) {
      assert Ascii(c).whitespace == IsWhite(c);
    }
    RunIs(Blank(Ascii), s, pos, e);
  }

  lemma {:induction false} SymbolRun(s: seq<nat>, pos: nat, e: nat)
    requires pos <= e <= |s| && (forall k :: pos <= k < e ==> IsSymbol(s[k])) && (e < |s| ==> !IsSymbol(s[e]))
    ensures Run(Other(Ascii), s, pos) == e
  {
    forall c ensures Other(Ascii)(c) == IsSymbol(c) {
      assert IsOther(Ascii(c)) == IsSymbol(c);
    }
    RunIs(Other(Ascii), s, pos, e);
  }

  lemma {:induction false} LastBreakIs(s: seq<nat>, pos: nat, end: nat, e: nat)
    requires pos <= end <= |s| && (forall k :: pos <= k < end && k >= e ==> s[k] != 10 && s[k] != 13)
    requires e == 0 || (pos < e <= end && (s[e - 1] == 10 || s[e - 1] == 13))
    ensures LastNewlineEnd(s, pos, end) == e
  {
    var r := LastNewlineEnd(s, pos, end);
    assert r > 0 ==> IsNewline(s[r - 1]);
    assert e > 0 ==> IsNewline(s[e - 1]);
  }

  /** The text 12345: one span for gpt2, 123 and 45 for llama3, single digits for qwen2. */
  lemma {:induction false} Digits()
    ensures var s := [49, 50, 51, 52, 53];
            && Gpt2End(Ascii, s, 0) == 5
            && QwenLlamaEnd(Llama3, Ascii, s, 0) == 3 && QwenLlamaEnd(Llama3, Ascii, s, 3) == 5
            && QwenLlamaEnd(Qwen2, Ascii, s, 0) == 1 && QwenLlamaEnd(Qwen2, Ascii, s, 4) == 5
  {
    var s: seq<nat> := [49, 50, 51, 52, 53];
    RunIs(Number(Ascii), s, 0, 5);
    assert NumberEnd(Llama3, Ascii, s, 0) == 3 && NumberEnd(Llama3, Ascii, s, 3) == 5;
  }

  /** I'Re: the contraction is cut off by qwen2 and llama3, while gpt2, which heeds case, cuts the apostrophe alone. */
  lemma {:induction false} UpperContraction()
    ensures var s := [73, 39, 82, 101];
            && Gpt2End(Ascii, s, 0) == 1 && Gpt2End(Ascii, s, 1) == 2
            && QwenLlamaEnd(Qwen2, Ascii, s, 0) == 1 && QwenLlamaEnd(Qwen2, Ascii, s, 1) == 4
            && QwenLlamaEnd(Llama3, Ascii, s, 1) == 4
  {
    var s: seq<nat> := [73, 39, 82, 101];
    LetterRun(s, 0, 1);
    LetterRun(s, 1, 1);
    SymbolRun(s, 1, 2);
  }

  /** Two spaces and a word: the last space goes with the word. Two spaces at the end stay together. */
  lemma {:induction false} Spaces()
    ensures var s := [32, 32, 97, 98];
            && Gpt2End(Ascii, s, 0) == 1 && Gpt2End(Ascii, s, 1) == 4
            && QwenLlamaEnd(Qwen2, Ascii, s, 0) == 1 && QwenLlamaEnd(Qwen2, Ascii, s, 1) == 4
    ensures Gpt2End(Ascii, [32, 32], 0) == 2 && QwenLlamaEnd(Llama3, Ascii, [32, 32], 0) == 2
  {
    var s: seq<nat> := [32, 32, 97, 98];
    WhiteRun(s, 0, 2);
    LetterRun(s, 2, 4);
    LastBreakIs(s, 0, 2, 0);
    var t: seq<nat> := [32, 32];
    WhiteRun(t, 0, 2);
    LastBreakIs(t, 0, 2, 0);
  }

  /** An exclamation mark takes the line breaks after it along, but not for gpt2; a tab may lead a word, but not for gpt2. */
  lemma {:induction false} SymbolsAndTabs()
    ensures var s := [33, 10, 13, 97];
            Gpt2End(Ascii, s, 0) == 1 && QwenLlamaEnd(Qwen2, Ascii, s, 0) == 3 && QwenLlamaEnd(Llama3, Ascii, s, 0) == 3
    ensures Gpt2End(Ascii, [9, 97], 0) == 1 && QwenLlamaEnd(Qwen2, Ascii, [9, 97], 0) == 2
  {
    var s: seq<nat> := [33, 10, 13, 97];
    SymbolRun(s, 0, 1);
    RunIs(Newline(), s, 1, 3);
    var t: seq<nat> := [9, 97];
    WhiteRun(t, 0, 1);
    LetterRun(t, 1, 2);
    LastBreakIs(t, 0, 1, 0);
  }

  /** White space up to its last line break is one span for qwen2 and llama3; gpt2 does not look for breaks. */
  lemma {:induction false} Breaks()
    ensures QwenLlamaEnd(Llama3, Ascii, [10, 32, 32, 97], 0) == 1 && Gpt2End(Ascii, [10, 32, 32, 97], 0) == 2
    ensures QwenLlamaEnd(Qwen2, Ascii, [32, 10, 32, 97], 0) == 2
  {
    var s: seq<nat> := [10, 32, 32, 97];
    WhiteRun(s, 0, 3);
    LastBreakIs(s, 0, 3, 1);
    var t: seq<nat> := [32, 10, 32, 97];
    WhiteRun(t, 0, 3);
    LastBreakIs(t, 0, 3, 2);
  }
}
