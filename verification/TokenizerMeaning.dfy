/** What the tokenizer's parts mean, apart from the definitions the proofs use: keys, choices, limits and failures. */
module TokenizerMeaning {
  import opened Common
  import opened ByteText
  import opened GreedyMerge
  import opened BpeMerge
  import opened BpeCodec
  import StrIntMaps
  import Tokenizer
  import P = PreTokenizer

  // ---- merging ----

  /** key is l, a space (32) and r. */
  predicate Joins(key: Bytes, l: Bytes, r: Bytes) {
    |key| == |l| + 1 + |r| && key[..|l|] == l && key[|l|] == 32 && key[|l| + 1..] == r
  }

  /** A pair has a rank if and only if its joined key, of at most 511 bytes, has that index as a C int. */
  lemma {:induction false} RankIs(merges: map<Bytes, nat>, l: Bytes, r: Bytes, n: nat)
    ensures Rank(merges, l, r) == Some(n) <==>
      exists key :: key in merges && Joins(key, l, r) && |key| <= 511 && merges[key] == n <= 2147483647
  {
    var key := l + [SPACE] + r;
    assert Joins(key, l, r);
    forall k | Joins(k, l, r) ensures k == key {
      assert k == k[..|l|] + [k[|l|]] + k[|l| + 1..];
    }
  }

  /** The pair merged next: no adjacent pair has a lower rank, and none further left the same. */
  lemma {:induction false} BestIs(merges: map<Bytes, nat>, ps: seq<Bytes>, k: nat)
    requires k + 1 < |ps|
    ensures Best(merges, ps) == Some(k) <==>
      && Rank(merges, ps[k], ps[k + 1]).Some?
      && forall j: nat :: j + 1 < |ps| && Rank(merges, ps[j], ps[j + 1]).Some? ==>
           var n, m := Rank(merges, ps[k], ps[k + 1]).value, Rank(merges, ps[j], ps[j + 1]).value;
           n < m || (n == m && k <= j)
  {
    hide Rank;
    if Best(merges, ps) == Some(k) {
      assert Beats(merges, ps, k, k);
      forall j: nat | j + 1 < |ps| && Rank(merges, ps[j], ps[j + 1]).Some?
        ensures var n, m := Rank(merges, ps[k], ps[k + 1]).value, Rank(merges, ps[j], ps[j + 1]).value; n < m || (n == m && k <= j)
      {
        assert Beats(merges, ps, k, j);
      }
    }
    if Rank(merges, ps[k], ps[k + 1]).Some? && forall j: nat :: j + 1 < |ps| && Rank(merges, ps[j], ps[j + 1]).Some? ==>
           var n, m := Rank(merges, ps[k], ps[k + 1]).value, Rank(merges, ps[j], ps[j + 1]).value; n < m || (n == m && k <= j)
    {
      BestIsUnique(merges, ps, k);
    }
  }

  /** One merge joins pieces k and k + 1; merging goes on until no pair has a rank. */
  lemma {:induction false} MergingIs(merges: map<Bytes, nat>, ps: seq<Bytes>)
    ensures Best(merges, ps).None? ==> Greedy(merges, ps) == ps
    ensures Best(merges, ps).Some? ==>
      var k := Best(merges, ps).value;
      Greedy(merges, ps) == Greedy(merges, ps[..k] + [ps[k] + ps[k + 1]] + ps[k + 2..])
  {
    if Best(merges, ps).Some? {
      var k := Best(merges, ps).value;
      assert MergeAt(ps, k) == ps[..k] + [ps[k] + ps[k + 1]] + ps[k + 2..];
    }
  }

  /** All of the first n pieces have ids. */
  predicate Known(vocab: map<Bytes, nat>, ps: seq<Bytes>, n: nat)
    requires n <= |ps|
  {
    forall i :: 0 <= i < n ==> ps[i] in vocab
  }

  /**
   The ids are written when all pieces have one and they fit. Otherwise the first piece without
   an id is fatal, unless the buffer was full before it.
   */
  lemma {:induction false} EmitIs(vocab: map<Bytes, nat>, ps: seq<Bytes>, cap: nat)
    ensures Emit(vocab, ps, cap).Written? <==> Known(vocab, ps, |ps|) && |ps| <= cap
    ensures Emit(vocab, ps, cap).Written? ==> Emit(vocab, ps, cap).ids == seq(|ps|, i requires 0 <= i < |ps| => if ps[i] in vocab then vocab[ps[i]] else 0)
    ensures Emit(vocab, ps, cap).Refused? <==> cap < |ps| && Known(vocab, ps, cap + 1)
    ensures Emit(vocab, ps, cap).Fatal? <==> exists i :: 0 <= i < |ps| && i <= cap && ps[i] !in vocab
    decreases |ps|
  {
    if ps != [] && ps[0] in vocab && cap > 0 {
      EmitIs(vocab, ps[1..], cap - 1);
      assert forall i :: 0 < i < |ps| ==> ps[i] == ps[1..][i - 1];
      assert forall i :: 0 <= i < |ps| - 1 ==> ps[1..][i] == ps[i + 1];
    }
  }

  /** Words of more than 8192 characters, or with more than 16384 candidates, are refused. */
  lemma {:induction false} WordLimits(merges: map<Bytes, nat>, vocab: map<Bytes, nat>, word: Bytes, cap: int)
    ensures |SplitChars(word)| > 8192 || TotalAdds(merges, SplitChars(word)) > 16384 ==> MergeSpec(merges, vocab, word, cap) == Refused
    ensures |SplitChars(word)| <= 8192 && TotalAdds(merges, SplitChars(word)) <= 16384 ==>
              MergeSpec(merges, vocab, word, cap) == Emit(vocab, Greedy(merges, SplitChars(word)), cap)
  {
  }

  /** Texts of more than 65536 code points between specials are refused, or of more than 16384 spans, or with a mapped span over 8192 bytes. */
  lemma {:induction false} TextLimits(v: Vocabulary, text: Bytes, cap: int)
    ensures EncodeNormal(v, text, cap).Written? ==>
      && |CodePoints(text, 0)| <= 65536
      && P.Split(v.kind, v.cls, CodePoints(text, 0), 0, 16384).Some?
    ensures |CodePoints(text, 0)| <= 65536 && P.Split(v.kind, v.cls, CodePoints(text, 0), 0, 16384).Some? ==>
      EncodeNormal(v, text, cap) == EncodeSpans(v, text, P.Split(v.kind, v.cls, CodePoints(text, 0), 0, 16384).value, cap)
    ensures |MapBytes(text)| > 8192 ==> EncodeWord(v, text, cap) == Refused
    ensures |MapBytes(text)| <= 8192 ==>
      EncodeWord(v, text, cap) == MergeSpec(StrIntMaps.FirstIndex(v.merges), StrIntMaps.FirstIndex(v.tokens), MapBytes(text), cap)
  {
    hide CodePoints, P.Split, EncodeSpans, MapBytes, MergeSpec;
  }

  // ---- special tokens ----

  /** st is a non-empty listed text that stands in the text at pos. */
  predicate Stands(v: Vocabulary, text: Bytes, pos: nat, i: nat) {
    i < |v.special| && v.special[i].text != [] && pos + |v.special[i].text| <= |text|
    && text[pos..pos + |v.special[i].text|] == v.special[i].text
  }

  /** Entry i is the longest of the first n that stand at pos, and the first of that length. */
  predicate Chosen(v: Vocabulary, text: Bytes, pos: nat, n: nat, i: nat) {
    && i < n <= |v.special| && Stands(v, text, pos, i)
    && forall j :: 0 <= j < n && Stands(v, text, pos, j) ==>
         |v.special[j].text| < |v.special[i].text| || (|v.special[j].text| == |v.special[i].text| && i <= j)
  }

  lemma {:induction false} StandsIs(v: Vocabulary, text: Bytes, pos: nat, i: nat)
    requires i < |v.special|
    ensures Stands(v, text, pos, i) <==> |v.special[i].text| > 0 && MatchesAt(text, pos, v.special[i].text)
  {
  }

  lemma {:induction false} LongestIsChosen(v: Vocabulary, text: Bytes, pos: nat, n: nat) returns (i: nat)
    requires n <= |v.special|
    ensures LongestSpecial(v, text, pos, n).None? ==> forall j :: 0 <= j < n ==> !Stands(v, text, pos, j)
    ensures LongestSpecial(v, text, pos, n).Some? ==> Chosen(v, text, pos, n, i) && v.special[i] == LongestSpecial(v, text, pos, n).value
  {
    hide Stands, MatchesAt;
    i := 0;
    if n > 0 {
      i := LongestIsChosen(v, text, pos, n - 1);
      StandsIs(v, text, pos, n - 1);
      var best, st := LongestSpecial(v, text, pos, n - 1), v.special[n - 1];
      if |st.text| > (if best.Some? then |best.value.text| else 0) && MatchesAt(text, pos, st.text) {
        i := n - 1;
      }
    }
  }

  /** At every position the scan takes the longest special that stands there, the first among equals, and none only when none stands. */
  lemma {:induction false} LongestSpecialIs(v: Vocabulary, text: Bytes, pos: nat, st: Special)
    ensures LongestSpecial(v, text, pos, |v.special|) == Some(st) <==> exists i: nat :: Chosen(v, text, pos, |v.special|, i) && v.special[i] == st
    ensures LongestSpecial(v, text, pos, |v.special|) == None <==> forall i: nat :: !Stands(v, text, pos, i)
  {
    hide Stands, LongestSpecial;
    var k := LongestIsChosen(v, text, pos, |v.special|);
    var r := LongestSpecial(v, text, pos, |v.special|);
    if r.None? {
      forall i: nat ensures !Stands(v, text, pos, i) {
        if i >= |v.special| {
          Unlisted(v, text, pos, i);
        }
      }
    }
  }

  lemma {:induction false} Unlisted(v: Vocabulary, text: Bytes, pos: nat, i: nat)
    requires i >= |v.special|
    ensures !Stands(v, text, pos, i)
  {
  }

  /** The literal-match list: the tokens of a type other than 1 and 5, each with its own text and index, in order. */
  lemma {:induction false} SpecialsAre(tokens: seq<Bytes>, types: seq<int>, n: nat)
    requires n <= |tokens| == |types|
    ensures var sp := Tokenizer.SpecialsOf(tokens, types, n);
            && (forall st :: st in sp <==> 0 <= st.id < n && st.text == tokens[st.id] && types[st.id] != 1 && types[st.id] != 5)
            && (forall i, j :: 0 <= i < j < |sp| ==> sp[i].id < sp[j].id)
  {
    if n > 0 {
      SpecialsAre(tokens, types, n - 1);
    }
  }

  // ---- the output buffer ----

  /** What a capacity makes of ids that fit a larger one: all of them, or a refusal. */
  predicate Capped(o: Outcome, ids: seq<nat>, cap: int) {
    if |ids| <= cap || ids == [] then o == Written(ids) else o == Refused
  }

  lemma {:induction false} EmitCapped(vocab: map<Bytes, nat>, ps: seq<Bytes>, cap: int, large: int)
    requires cap <= large && Emit(vocab, ps, large).Written?
    ensures Capped(Emit(vocab, ps, cap), Emit(vocab, ps, large).ids, cap)
    decreases |ps|
  {
    if ps != [] {
      EmitCapped(vocab, ps[1..], cap - 1, large - 1);
    }
  }

  lemma {:induction false} WordCapped(v: Vocabulary, bs: Bytes, cap: int, large: int)
    requires cap <= large && EncodeWord(v, bs, large).Written?
    ensures Capped(EncodeWord(v, bs, cap), EncodeWord(v, bs, large).ids, cap)
  {
    hide Greedy, SplitChars, TotalAdds, Emit;
    var merges, vocab := StrIntMaps.FirstIndex(v.merges), StrIntMaps.FirstIndex(v.tokens);
    EmitCapped(vocab, Greedy(merges, SplitChars(MapBytes(bs))), cap, large);
  }

  lemma {:induction false} SpansCapped(v: Vocabulary, text: Bytes, spans: seq<P.Span>, cap: int, large: int)
    requires cap <= large && EncodeSpans(v, text, spans, large).Written?
    ensures Capped(EncodeSpans(v, text, spans, cap), EncodeSpans(v, text, spans, large).ids, cap)
    decreases |spans|
  {
    hide EncodeWord, SpanBytes;
    if spans != [] {
      var bs := SpanBytes(text, spans[0]);
      WordCapped(v, bs, cap, large);
      var first := EncodeWord(v, bs, large).ids;
      if EncodeWord(v, bs, cap).Written? {
        SpansCapped(v, text, spans[1..], cap - |first|, large - |first|);
      }
    }
  }

  lemma {:induction false} NormalCapped(v: Vocabulary, text: Bytes, cap: int, large: int)
    requires cap <= large && EncodeNormal(v, text, large).Written?
    ensures Capped(EncodeNormal(v, text, cap), EncodeNormal(v, text, large).ids, cap)
  {
    hide EncodeSpans, P.Split, CodePoints;
    SpansCapped(v, text, P.Split(v.kind, v.cls, CodePoints(text, 0), 0, MAX_SPANS).value, cap, large);
  }

  lemma {:induction false} FromCapped(v: Vocabulary, text: Bytes, seg: nat, pos: nat, cap: int, large: int)
    requires seg <= pos <= |text| && cap <= large && EncodeFrom(v, text, seg, pos, large).Written?
    ensures Capped(EncodeFrom(v, text, seg, pos, cap), EncodeFrom(v, text, seg, pos, large).ids, cap)
    decreases |text| - pos
  {
    hide EncodeNormal, LongestSpecial;
    var best := LongestSpecial(v, text, pos, |v.special|);
    if pos < |text| && best.None? {
      FromCapped(v, text, seg, pos + 1, cap, large);
    } else {
      if pos > seg {
        NormalCapped(v, text[seg..pos], cap, large);
      }
      if pos < |text| {
        var plain := if pos > seg then EncodeNormal(v, text[seg..pos], large).ids else [];
        var next := pos + |best.value.text|;
        FromCapped(v, text, next, next, cap - |plain| - 1, large - |plain| - 1);
      }
    }
  }

  /** A smaller buffer changes nothing but whether the ids fit: exactly those that do not fit are refused. */
  lemma {:induction false} EncodeCapped(v: Vocabulary, text: Bytes, cap: nat, large: nat)
    requires cap <= large && Encode(v, text, large).Written?
    ensures Encode(v, text, cap) == if |Encode(v, text, large).ids| <= cap then Encode(v, text, large) else Refused
  {
    hide EncodeFrom;
    FromCapped(v, text, 0, 0, cap, large);
  }

  /** Ids that stand for more bytes than the buffer holds are reported as such. */
  lemma {:induction false} DecodeTooSmall(tokens: seq<Bytes>, ids: seq<nat>, bytes: Bytes, cap: nat)
    requires StandsFor(tokens, ids, bytes) && |bytes| > cap
    ensures Decode(tokens, ids, cap) == TooSmall
    decreases |ids|
  {
    hide DecodeToken;
    if ids != [] {
      var t := DecodeToken(tokens[ids[0]], 0);
      if |t| <= cap {
        DecodeTooSmall(tokens, ids[1..], bytes[|t|..], cap - |t|);
      }
    }
  }

  /**
   What the scan makes of a stretch: when no special stands in text[seg..p], that whole stretch is
   encoded as plain text at once, and the special at p, if the text does not end there, follows with its id.
   */
  lemma {:induction false} StretchIs(v: Vocabulary, text: Bytes, seg: nat, pos: nat, p: nat, cap: int)
    requires seg <= pos <= p <= |text| && forall k, i: nat :: pos <= k < p ==> !Stands(v, text, k, i)
    requires p < |text| ==> LongestSpecial(v, text, p, |v.special|).Some?
    ensures EncodeFrom(v, text, seg, pos, cap)
      == var plain := if p > seg then EncodeNormal(v, text[seg..p], cap) else Written([]);
         if p == |text| || !plain.Written? then plain
         else if |plain.ids| >= cap then Refused
         else
           var st := LongestSpecial(v, text, p, |v.special|).value;
           Prepend(plain.ids + [st.id], EncodeFrom(v, text, p + |st.text|, p + |st.text|, cap - |plain.ids| - 1))
    decreases p - pos
  {
    hide EncodeNormal, LongestSpecial, Stands;
    if pos < p {
      LongestSpecialIs(v, text, pos, Special([], 0));
      assert forall i: nat :: !Stands(v, text, pos, i);
      StretchIs(v, text, seg, pos + 1, p, cap);
    }
  }

  /** A text in which no special stands is encoded as plain text. */
  lemma {:induction false} PlainIsNormal(v: Vocabulary, text: Bytes, cap: int)
    requires text != [] && forall k, i: nat :: 0 <= k < |text| ==> !Stands(v, text, k, i)
    ensures Encode(v, text, cap) == EncodeNormal(v, text, cap)
  {
    StretchIs(v, text, 0, 0, |text|, cap);
    assert text[0..|text|] == text;
  }
}
