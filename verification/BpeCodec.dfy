/**
 Encoding and decoding whole texts, and the round trip: whatever bytes are encoded,
 decoding the ids gives the same bytes back, exactly when the special tokens' texts
 decode to themselves.
 */
module BpeCodec {
  import opened Common
  import opened ByteText
  import opened GreedyMerge
  import opened BpeMerge
  import StrIntMaps
  import Regex
  import P = PreTokenizer

  const MAX_CPTS := 65536
  const MAX_SPANS := 16384

  /** A token matched literally in the raw text. */
  datatype Special = Special(text: Bytes, id: nat)

  /** A loaded vocabulary. */
  datatype Vocabulary = Vocabulary(tokens: seq<Bytes>, merges: seq<Bytes>, special: seq<Special>, kind: P.Kind, cls: P.Classifier)

  /** Specials are tokens of the vocabulary, and the classifier is the generated Unicode table's. */
  ghost predicate ValidVocabulary(v: Vocabulary) {
    && P.WellClassified(v.cls)
    && forall i :: 0 <= i < |v.special| ==> IsTokenOf(v.tokens, v.special[i])
  }

  predicate IsTokenOf(tokens: seq<Bytes>, st: Special) {
    st.id < |tokens| && st.text == tokens[st.id]
  }

  // ---- specification of encoding ----

  /** Code points of the text from byte p on. */
  function CodePoints(text: Bytes, p: nat): (cs: seq<nat>)
    requires p <= |text|
    decreases |text| - p
  {
    if p == |text| then [] else [CodePoint(text, p)] + CodePoints(text, p + StepLength(text, p))
  }

  /** Byte offset at which the k-th code point from byte p starts. */
  function Offset(text: Bytes, p: nat, k: nat): (o: nat)
    requires p <= |text|
    ensures p <= o <= |text|
    decreases k
  {
    if k == 0 || p == |text| then p else Offset(text, p + StepLength(text, p), k - 1)
  }

  /** Ids of one span: its bytes mapped to characters and merged. */
  function EncodeWord(v: Vocabulary, bs: Bytes, cap: int): Outcome {
    var word := MapBytes(bs);
    if |word| > MAX_SYMBOLS then Refused
    else MergeSpec(StrIntMaps.FirstIndex(v.merges), StrIntMaps.FirstIndex(v.tokens), word, cap)
  }

  function SpanBytes(text: Bytes, span: P.Span): Bytes {
    var from, to := Offset(text, 0, span.start), Offset(text, 0, span.start + span.len);
    if from <= to then text[from..to] else []
  }

  /** Encodes the spans in order; each is mapped to characters and merged on its own. */
  function EncodeSpans(v: Vocabulary, text: Bytes, spans: seq<P.Span>, cap: int): Outcome {
    if spans == [] then Written([])
    else
      var first := EncodeWord(v, SpanBytes(text, spans[0]), cap);
      if first.Written? then Prepend(first.ids, EncodeSpans(v, text, spans[1..], cap - |first.ids|)) else first
  }

  /** Encoding of a text without special tokens. */
  function EncodeNormal(v: Vocabulary, text: Bytes, cap: int): Outcome {
    var cpts := CodePoints(text, 0);
    if |cpts| > MAX_CPTS then Refused
    else
      var spans := P.Split(v.kind, v.cls, cpts, 0, MAX_SPANS);
      if spans.None? then Refused else EncodeSpans(v, text, spans.value, cap)
  }

  predicate MatchesAt(text: Bytes, pos: nat, t: Bytes) {
    pos + |t| <= |text| && text[pos..pos + |t|] == t
  }

  /** Among the first n specials, the first of greatest non-zero length that matches at pos. */
  function LongestSpecial(v: Vocabulary, text: Bytes, pos: nat, n: nat): (r: Option<Special>)
    requires n <= |v.special|
    ensures r.Some? ==> r.value.text != [] && MatchesAt(text, pos, r.value.text) && r.value in v.special
  {
    if n == 0 then None
    else
      var best := LongestSpecial(v, text, pos, n - 1);
      var st := v.special[n - 1];
      if |st.text| > (if best.Some? then |best.value.text| else 0) && MatchesAt(text, pos, st.text) then Some(st) else best
  }

  /** Encoding of the rest of a text: the pending plain segment starts at seg, the scan is at pos. */
  function EncodeFrom(v: Vocabulary, text: Bytes, seg: nat, pos: nat, cap: int): Outcome
    requires seg <= pos <= |text|
    decreases |text| - pos
  {
    var best := LongestSpecial(v, text, pos, |v.special|);
    if pos < |text| && best.None? then EncodeFrom(v, text, seg, pos + 1, cap)
    else
      var plain := if pos > seg then EncodeNormal(v, text[seg..pos], cap) else Written([]);
      if pos == |text| || !plain.Written? then plain
      else if |plain.ids| >= cap then Refused
      else
        var next := pos + |best.value.text|;
        Prepend(plain.ids + [best.value.id], EncodeFrom(v, text, next, next, cap - |plain.ids| - 1))
  }

  function Encode(v: Vocabulary, text: Bytes, cap: int): Outcome {
    EncodeFrom(v, text, 0, 0, cap)
  }

  // ---- specification of decoding ----

  datatype Decoded = Text(bytes: Bytes) | TooSmall | BadId

  function Decode(tokens: seq<Bytes>, ids: seq<int>, cap: int): Decoded {
    if ids == [] then Text([])
    else if !(0 <= ids[0] < |tokens|) then BadId
    else
      var t := DecodeToken(tokens[ids[0]], 0);
      if |t| > cap then TooSmall
      else
        var rest := Decode(tokens, ids[1..], cap - |t|);
        if rest.Text? then Text(t + rest.bytes) else rest
  }

  /** The ids are in range and stand for these bytes. */
  ghost predicate StandsFor(tokens: seq<Bytes>, ids: seq<nat>, bytes: Bytes) {
    if ids == [] then bytes == []
    else
      ids[0] < |tokens| &&
      var t := DecodeToken(tokens[ids[0]], 0);
      t <= bytes && StandsFor(tokens, ids[1..], bytes[|t|..])
  }

  lemma {:induction false} StandsForDecodes(tokens: seq<Bytes>, ids: seq<nat>, bytes: Bytes, cap: int)
    requires StandsFor(tokens, ids, bytes) && |bytes| <= cap
    ensures Decode(tokens, ids, cap) == Text(bytes)
  {
    if ids != [] {
      var t := DecodeToken(tokens[ids[0]], 0);
      StandsForDecodes(tokens, ids[1..], bytes[|t|..], cap - |t|);
      assert bytes == t + bytes[|t|..];
    }
  }

  lemma {:induction false} StandsForAppend(tokens: seq<Bytes>, ids: seq<nat>, bytes: Bytes, ids': seq<nat>, bytes': Bytes)
    requires StandsFor(tokens, ids, bytes) && StandsFor(tokens, ids', bytes')
    ensures StandsFor(tokens, ids + ids', bytes + bytes')
  {
    hide DecodeToken;
    if ids == [] {
      assert ids + ids' == ids' && bytes + bytes' == bytes';
    } else {
      var t := DecodeToken(tokens[ids[0]], 0);
      StandsForAppend(tokens, ids[1..], bytes[|t|..], ids', bytes');
      assert (ids + ids')[1..] == ids[1..] + ids';
      assert (bytes + bytes')[|t|..] == bytes[|t|..] + bytes';
    }
  }

  // ---- merging keeps whole mapped bytes together ----

  /** Piece k is the mapped form of parts[k]. */
  ghost predicate MapOf(ps: seq<Bytes>, parts: seq<Bytes>) {
    |ps| == |parts| && forall k :: 0 <= k < |ps| ==> ps[k] == MapBytes(parts[k])
  }

  function Singletons(bs: Bytes): (r: seq<Bytes>)
    ensures |r| == |bs|
    ensures forall k {:trigger r[k]} :: 0 <= k < |r| ==> r[k] == [bs[k]]
  {
    seq(|bs|, k requires 0 <= k < |bs| => [bs[k]])
  }

  lemma {:induction false} SplitMapped(bs: Bytes)
    ensures MapOf(SplitChars(MapBytes(bs)), Singletons(bs))
    ensures Concat(Singletons(bs)) == bs
  {
    if bs != [] {
      hide SplitChars, MapByte;
      SplitMapped(bs[1..]);
      SplitFront(bs);
      assert Singletons(bs)[1..] == Singletons(bs[1..]);
      MapOne(bs[0]);
      forall k | 0 <= k < |bs|
        ensures SplitChars(MapBytes(bs))[k] == MapBytes(Singletons(bs)[k])
      {
        if k > 0 {
          assert Singletons(bs)[k] == Singletons(bs[1..])[k - 1];
        }
      }
      assert bs == [bs[0]] + bs[1..];
    }
  }

  /** The first character of a mapped word is the first mapped byte. */
  lemma {:induction false} SplitFront(bs: Bytes)
    requires bs != []
    ensures SplitChars(MapBytes(bs)) == [MapByte(bs[0])] + SplitChars(MapBytes(bs[1..]))
  {
    var w, m := MapBytes(bs), MapByte(bs[0]);
    assert CharLen(w[0]) == |m|;
    assert w[..|m|] == m && w[|m|..] == MapBytes(bs[1..]);
  }

  lemma {:induction false} MergeMapped(merges: map<Bytes, nat>, ps: seq<Bytes>, parts: seq<Bytes>) returns (parts': seq<Bytes>)
    requires MapOf(ps, parts)
    ensures MapOf(Greedy(merges, ps), parts') && Concat(parts') == Concat(parts)
    decreases |ps|
  {
    var b := Best(merges, ps);
    if b.None? {
      parts' := parts;
    } else {
      var k := b.value;
      MapAppend(parts[k], parts[k + 1]);
      assert MapOf(MergeAt(ps, k), MergeAt(parts, k));
      MergeKeepsText(parts, k);
      parts' := MergeMapped(merges, MergeAt(ps, k), MergeAt(parts, k));
    }
  }

  /** The ids of mapped pieces stand for the pieces' bytes. */
  lemma {:induction false} EmitStandsFor(tokens: seq<Bytes>, ps: seq<Bytes>, parts: seq<Bytes>, cap: int)
    requires MapOf(ps, parts) && Emit(StrIntMaps.FirstIndex(tokens), ps, cap).Written?
    ensures StandsFor(tokens, Emit(StrIntMaps.FirstIndex(tokens), ps, cap).ids, Concat(parts))
    ensures |Emit(StrIntMaps.FirstIndex(tokens), ps, cap).ids| == |ps|
  {
    var vocab := StrIntMaps.FirstIndex(tokens);
    if ps != [] {
      EmitStandsFor(tokens, ps[1..], parts[1..], cap - 1);
      var ids := Emit(vocab, ps, cap).ids;
      assert ids[1..] == Emit(vocab, ps[1..], cap - 1).ids;
      StrIntMaps.FirstIndexIsFirst(tokens);
      assert tokens[ids[0]] == ps[0] == MapBytes(parts[0]);
      assert tokens[ids[0]][0..] == tokens[ids[0]];
      DecodeUndoesMap(parts[0], tokens[ids[0]], 0);
      assert Concat(parts)[|parts[0]|..] == Concat(parts[1..]);
    }
  }

  /** A merged word's ids stand for the bytes that were mapped to it. */
  lemma {:induction false} WordRoundTrip(v: Vocabulary, bs: Bytes, cap: int)
    requires EncodeWord(v, bs, cap).Written?
    ensures StandsFor(v.tokens, EncodeWord(v, bs, cap).ids, bs)
  {
    var merges := StrIntMaps.FirstIndex(v.merges);
    SplitMapped(bs);
    var parts := MergeMapped(merges, SplitChars(MapBytes(bs)), Singletons(bs));
    EmitStandsFor(v.tokens, Greedy(merges, SplitChars(MapBytes(bs))), parts, cap);
  }

  // ---- spans cover the bytes ----

  lemma {:induction false} OffsetsGrow(text: Bytes, p: nat, j: nat, k: nat)
    requires p <= |text| && j <= k
    ensures Offset(text, p, j) <= Offset(text, p, k)
    decreases k
  {
    if j > 0 && p < |text| {
      OffsetsGrow(text, p + StepLength(text, p), j - 1, k - 1);
    }
  }

  lemma {:induction false} OffsetEnd(text: Bytes, p: nat)
    requires p <= |text|
    ensures Offset(text, p, |CodePoints(text, p)|) == |text|
    decreases |text| - p
  {
    if p < |text| {
      OffsetEnd(text, p + StepLength(text, p));
    }
  }

  lemma {:induction false} SpansRoundTrip(v: Vocabulary, text: Bytes, pos: nat, spans: seq<P.Span>, cap: int)
    requires pos <= |CodePoints(text, 0)| && P.MatchTiles(v.kind, v.cls, CodePoints(text, 0), spans, pos)
    requires EncodeSpans(v, text, spans, cap).Written?
    ensures StandsFor(v.tokens, EncodeSpans(v, text, spans, cap).ids, text[Offset(text, 0, pos)..])
    decreases |spans|
  {
    hide EncodeWord, EncodeSpans, CodePoints, Offset, P.MatchTiles, StandsFor, SpanBytes;
    if spans == [] {
      NoSpansLeft(v, text, pos, cap);
    } else {
      var next := pos + spans[0].len;
      var from, to := Offset(text, 0, pos), Offset(text, 0, next);
      TilesStay(v, text, spans, pos);
      FirstSpan(text, spans[0], from, to);
      var first, rest := FirstIds(v, text, spans, cap);
      WordRoundTrip(v, text[from..to], cap);
      SpansRoundTrip(v, text, next, spans[1..], cap - |first.ids|);
      StandsForAppend(v.tokens, first.ids, text[from..to], rest.ids, text[to..]);
      assert text[from..] == text[from..to] + text[to..];
    }
  }

  lemma {:induction false} NoSpansLeft(v: Vocabulary, text: Bytes, pos: nat, cap: int)
    requires P.MatchTiles(v.kind, v.cls, CodePoints(text, 0), [], pos)
    ensures StandsFor(v.tokens, EncodeSpans(v, text, [], cap).ids, text[Offset(text, 0, pos)..])
  {
    hide CodePoints, Offset;
    OffsetEnd(text, 0);
    assert text[|text|..] == [];
  }

  /** A span's bytes lie between the offsets of its ends. */
  lemma {:induction false} FirstSpan(text: Bytes, span: P.Span, from: nat, to: nat)
    requires from == Offset(text, 0, span.start) && to == Offset(text, 0, span.start + span.len)
    ensures from <= to <= |text| && SpanBytes(text, span) == text[from..to]
  {
    hide Offset;
    OffsetsGrow(text, 0, span.start, span.start + span.len);
  }

  /** The ids of the first span come first. */
  lemma {:induction false} FirstIds(v: Vocabulary, text: Bytes, spans: seq<P.Span>, cap: int) returns (first: Outcome, rest: Outcome)
    requires spans != [] && EncodeSpans(v, text, spans, cap).Written?
    ensures first == EncodeWord(v, SpanBytes(text, spans[0]), cap) && first.Written?
    ensures rest == EncodeSpans(v, text, spans[1..], cap - |first.ids|) && rest.Written?
    ensures EncodeSpans(v, text, spans, cap).ids == first.ids + rest.ids
  {
    hide EncodeWord, SpanBytes;
    first := EncodeWord(v, SpanBytes(text, spans[0]), cap);
    rest := EncodeSpans(v, text, spans[1..], cap - |first.ids|);
  }

  lemma {:induction false} TilesStay(v: Vocabulary, text: Bytes, spans: seq<P.Span>, pos: nat)
    requires spans != [] && P.MatchTiles(v.kind, v.cls, CodePoints(text, 0), spans, pos)
    ensures spans[0].start == pos && pos + spans[0].len <= |CodePoints(text, 0)|
    ensures P.MatchTiles(v.kind, v.cls, CodePoints(text, 0), spans[1..], pos + spans[0].len)
  {
    hide CodePoints, Regex.Match, Regex.Ends, P.SplitPattern;
  }

  /** A text without special tokens comes back byte for byte. */
  lemma {:induction false} NormalRoundTrip(v: Vocabulary, text: Bytes, cap: int)
    requires P.WellClassified(v.cls) && EncodeNormal(v, text, cap).Written?
    ensures StandsFor(v.tokens, EncodeNormal(v, text, cap).ids, text)
  {
    hide StandsFor, P.Split, CodePoints, EncodeSpans;
    var cpts := CodePoints(text, 0);
    var spans := P.Split(v.kind, v.cls, cpts, 0, MAX_SPANS).value;
    P.SplitTiles(v.kind, v.cls, cpts, 0, MAX_SPANS);
    SpansRoundTrip(v, text, 0, spans, cap);
    assert text[Offset(text, 0, 0)..] == text;
  }

  /** Every special token's text decodes to itself; by PlainIsExact a property of its bytes alone. */
  ghost predicate PlainSpecials(v: Vocabulary) {
    forall i :: 0 <= i < |v.special| ==> PlainFrom(v.special[i].text, 0)
  }

  // ---- what the ids of a whole text stand for ----

  /** Plain segments as they are, each special the scan chooses as its text decodes. */
  function Meant(v: Vocabulary, text: Bytes, seg: nat, pos: nat): Bytes
    requires seg <= pos <= |text|
    decreases |text| - pos
  {
    var best := LongestSpecial(v, text, pos, |v.special|);
    if pos == |text| then text[seg..]
    else if best.None? then Meant(v, text, seg, pos + 1)
    else
      var next := pos + |best.value.text|;
      text[seg..pos] + DecodeToken(best.value.text, 0) + Meant(v, text, next, next)
  }

  /** Every special the scan chooses from pos on decodes to itself. */
  predicate ChosenPlain(v: Vocabulary, text: Bytes, pos: nat)
    requires pos <= |text|
    decreases |text| - pos
  {
    var best := LongestSpecial(v, text, pos, |v.special|);
    pos == |text| ||
    (if best.None? then ChosenPlain(v, text, pos + 1)
     else PlainFrom(best.value.text, 0) && ChosenPlain(v, text, pos + |best.value.text|))
  }

  /** The ids of a text stand for what is meant. */
  lemma {:induction false} FromRoundTrip(v: Vocabulary, text: Bytes, seg: nat, pos: nat, cap: int)
    requires ValidVocabulary(v) && seg <= pos <= |text|
    requires EncodeFrom(v, text, seg, pos, cap).Written?
    ensures StandsFor(v.tokens, EncodeFrom(v, text, seg, pos, cap).ids, Meant(v, text, seg, pos))
    decreases |text| - pos
  {
    hide EncodeNormal, ValidVocabulary, StandsFor, LongestSpecial, Prepend, DecodeToken;
    var best := LongestSpecial(v, text, pos, |v.special|);
    if pos < |text| && best.None? {
      FromRoundTrip(v, text, seg, pos + 1, cap);
    } else {
      var plain := if pos > seg then EncodeNormal(v, text[seg..pos], cap) else Written([]);
      PlainStands(v, text, seg, pos, cap);
      if pos == |text| {
        assert text[seg..pos] == text[seg..];
      } else {
        var next := pos + |best.value.text|;
        var rest := EncodeFrom(v, text, next, next, cap - |plain.ids| - 1);
        PrependWritten(plain.ids + [best.value.id], rest);
        FromRoundTrip(v, text, next, next, cap - |plain.ids| - 1);
        SpecialStandsBetween(v, text[seg..pos], best.value, Meant(v, text, next, next), plain.ids, rest.ids);
      }
    }
  }

  /** Front, middle and end no longer than their counterparts: the whole is equal only when each part is. */
  lemma {:induction false} PartsAgree(front: Bytes, middle: Bytes, end: Bytes, middle': Bytes, end': Bytes)
    requires |middle| <= |middle'| && |end| <= |end'|
    ensures front + middle + end == front + middle' + end' <==> middle == middle' && end == end'
  {
    var whole, whole' := front + middle + end, front + middle' + end';
    var f, m := |front|, |front| + |middle|;
    assert whole[f..m] == middle && whole[m..] == end;
    assert |middle| == |middle'| ==> whole'[f..m] == middle' && whole'[m..] == end';
  }

  /** What is meant is never longer than the text, and is the text exactly when the chosen specials decode to themselves. */
  lemma {:induction false} MeantIsTextIff(v: Vocabulary, text: Bytes, seg: nat, pos: nat)
    requires seg <= pos <= |text|
    ensures |Meant(v, text, seg, pos)| <= |text| - seg
    ensures Meant(v, text, seg, pos) == text[seg..] <==> ChosenPlain(v, text, pos)
    decreases |text| - pos
  {
    hide LongestSpecial, DecodeToken, PlainFrom;
    var best := LongestSpecial(v, text, pos, |v.special|);
    if pos < |text| {
      if best.None? {
        MeantIsTextIff(v, text, seg, pos + 1);
      } else {
        var t := best.value.text;
        var next := pos + |t|;
        MeantIsTextIff(v, text, next, next);
        DecodeNeverGrows(t, 0);
        PlainIsExact(t, 0);
        assert t[0..] == t;
        PartsAgree(text[seg..pos], DecodeToken(t, 0), Meant(v, text, next, next), t, text[next..]);
        assert text[seg..] == text[seg..pos] + t + text[next..];
      }
    }
  }

  lemma {:induction false} PrependWritten(ids: seq<nat>, o: Outcome)
    requires Prepend(ids, o).Written?
    ensures o.Written? && Prepend(ids, o).ids == ids + o.ids
  {
  }

  lemma {:induction false} PlainStands(v: Vocabulary, text: Bytes, seg: nat, pos: nat, cap: int)
    requires ValidVocabulary(v) && seg <= pos <= |text|
    ensures var plain := if pos > seg then EncodeNormal(v, text[seg..pos], cap) else Written([]);
            plain.Written? ==> StandsFor(v.tokens, plain.ids, text[seg..pos])
  {
    hide EncodeNormal, P.WellClassified;
    if pos > seg {
      if EncodeNormal(v, text[seg..pos], cap).Written? {
        NormalRoundTrip(v, text[seg..pos], cap);
      }
    } else {
      assert text[seg..pos] == [];
    }
  }

  lemma {:induction false} SpecialStandsBetween(v: Vocabulary, front: Bytes, st: Special, end: Bytes, plain: seq<nat>, rest: seq<nat>)
    requires ValidVocabulary(v) && st in v.special
    requires StandsFor(v.tokens, plain, front) && StandsFor(v.tokens, rest, end)
    ensures StandsFor(v.tokens, (plain + [st.id]) + rest, front + DecodeToken(st.text, 0) + end)
  {
    hide StandsFor, ValidVocabulary, DecodeToken;
    SpecialStandsFor(v, st);
    var d := DecodeToken(st.text, 0);
    StandsForAppend(v.tokens, plain, front, [st.id], d);
    StandsForAppend(v.tokens, plain + [st.id], front + d, rest, end);
  }

  lemma {:induction false} SpecialStandsFor(v: Vocabulary, st: Special)
    requires ValidVocabulary(v) && st in v.special
    ensures StandsFor(v.tokens, [st.id], DecodeToken(st.text, 0))
  {
    hide DecodeToken;
    assert IsTokenOf(v.tokens, st);
    assert [st.id][1..] == [] && DecodeToken(st.text, 0)[|DecodeToken(st.text, 0)|..] == [];
  }

  /** Decoding the ids of a text gives what is meant, and so the text itself exactly when every special chosen in it decodes to itself. */
  lemma {:induction false} TextComesBackIff(v: Vocabulary, text: Bytes, cap: int, bufferSize: int)
    requires ValidVocabulary(v) && Encode(v, text, cap).Written? && |text| <= bufferSize
    ensures var back := Decode(v.tokens, Encode(v, text, cap).ids, bufferSize);
            back == Text(Meant(v, text, 0, 0)) && (back == Text(text) <==> ChosenPlain(v, text, 0))
  {
    hide ValidVocabulary, EncodeFrom, StandsFor, Decode, Meant, ChosenPlain;
    FromRoundTrip(v, text, 0, 0, cap);
    MeantIsTextIff(v, text, 0, 0);
    assert text[0..] == text;
    StandsForDecodes(v.tokens, Encode(v, text, cap).ids, Meant(v, text, 0, 0), bufferSize);
  }

  lemma {:induction false} PlainAreChosen(v: Vocabulary, text: Bytes, pos: nat)
    requires PlainSpecials(v) && pos <= |text|
    ensures ChosenPlain(v, text, pos)
    decreases |text| - pos
  {
    hide LongestSpecial, PlainFrom;
    if pos < |text| {
      var best := LongestSpecial(v, text, pos, |v.special|);
      PlainAreChosen(v, text, if best.None? then pos + 1 else pos + |best.value.text|);
    }
  }

  ghost predicate RoundTripsOn(v: Vocabulary, text: Bytes, cap: int, bufferSize: int) {
    Encode(v, text, cap).Written? && |text| <= bufferSize ==>
      Decode(v.tokens, Encode(v, text, cap).ids, bufferSize) == Text(text)
  }

  /** Encoding any bytes, valid UTF-8 or not, and decoding the ids returns the same bytes. */
  lemma {:induction false} RoundTrip(v: Vocabulary, text: Bytes, cap: int, bufferSize: int)
    requires ValidVocabulary(v) && PlainSpecials(v)
    ensures RoundTripsOn(v, text, cap, bufferSize)
  {
    if Encode(v, text, cap).Written? && |text| <= bufferSize {
      hide ValidVocabulary, Encode, Decode, ChosenPlain;
      PlainAreChosen(v, text, 0);
      TextComesBackIff(v, text, cap, bufferSize);
    }
  }

  /** Special tokens of ASCII text are enough. */
  lemma {:induction false} AsciiSpecialsRoundTrip(v: Vocabulary, text: Bytes, cap: int, bufferSize: int)
    requires ValidVocabulary(v) && forall i :: 0 <= i < |v.special| ==> IsAscii(v.special[i].text)
    ensures RoundTripsOn(v, text, cap, bufferSize)
  {
    forall i | 0 <= i < |v.special|
      ensures PlainFrom(v.special[i].text, 0)
    {
      AsciiIsPlain(v.special[i].text, 0);
    }
    RoundTrip(v, text, cap, bufferSize);
  }

  /** A special token's text that is the whole input is found at position 0. */
  lemma {:induction false} SpecialIsFound(v: Vocabulary, st: Special, n: nat)
    requires n <= |v.special| && st.text != []
    ensures var r := LongestSpecial(v, st.text, 0, n);
      st in v.special[..n] ==> r.Some? && r.value.text == st.text
  {
    if n > 0 && st in v.special[..n] {
      var t := st.text;
      var best := LongestSpecial(v, t, 0, n - 1);
      assert t[0..|t|] == t;
      assert best.Some? ==> |best.value.text| <= |t| && best.value.text == t[..|best.value.text|];
      if st in v.special[..n - 1] {
        SpecialIsFound(v, st, n - 1);
      } else {
        assert v.special[n - 1] == st;
      }
    }
  }

  /** A special token whose text does not decode to itself breaks the round trip of that very text. */
  lemma {:induction false} BadSpecialBreaks(v: Vocabulary, st: Special)
    requires ValidVocabulary(v) && st in v.special && !PlainFrom(st.text, 0)
    ensures !RoundTripsOn(v, st.text, 1, |st.text|)
  {
    hide P.WellClassified, EncodeNormal;
    var t := st.text;
    assert t != [];
    assert v.special[..|v.special|] == v.special;
    SpecialIsFound(v, st, |v.special|);
    var best := LongestSpecial(v, t, 0, |v.special|).value;
    assert IsTokenOf(v.tokens, best);
    assert EncodeFrom(v, t, |t|, |t|, 0) == Written([]);
    assert Encode(v, t, 1) == Written([best.id]);
    PlainIsExact(t, 0);
    DecodeNeverGrows(t, 0);
    assert t[0..] == t;
    var d := DecodeToken(t, 0);
    assert [best.id][1..] == [];
    assert Decode(v.tokens, [best.id], |t|) == Text(d + []);
  }

  /** The law holds for a vocabulary exactly when its special tokens are plain. */
  lemma {:induction false} RoundTripIffPlain(v: Vocabulary)
    requires ValidVocabulary(v)
    ensures (forall text, cap, bufferSize :: RoundTripsOn(v, text, cap, bufferSize)) <==> PlainSpecials(v)
  {
    if PlainSpecials(v) {
      forall text, cap, bufferSize
        ensures RoundTripsOn(v, text, cap, bufferSize)
      {
        RoundTrip(v, text, cap, bufferSize);
      }
    } else {
      var i :| 0 <= i < |v.special| && !PlainFrom(v.special[i].text, 0);
      BadSpecialBreaks(v, v.special[i]);
    }
  }
}
