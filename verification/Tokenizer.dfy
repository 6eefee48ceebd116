/**
 The public functions of the tokenizer, as loops over byte positions, spans and ids, proved
 against the specification in BpeCodec.
 */
module Tokenizer {
  import opened Common
  import opened ByteText
  import opened BpeMerge
  import opened BpeCodec
  import opened StrIntMaps
  import MergeLoop
  import Regex
  import P = PreTokenizer

  // GGUF token types that get no literal match.
  const TYPE_NORMAL := 1
  const TYPE_UNUSED := 5

  /** Literal-match entries: every token whose type is neither normal nor unused, among the first n. */
  function SpecialsOf(tokens: seq<Bytes>, types: seq<int>, n: nat): seq<Special>
    requires n <= |tokens| == |types|
  {
    if n == 0 then []
    else
      SpecialsOf(tokens, types, n - 1)
      + (if types[n - 1] != TYPE_NORMAL && types[n - 1] != TYPE_UNUSED then [Special(tokens[n - 1], n - 1)] else [])
  }

  /** The vocabulary `bpe_vocab_load` builds; token types count only when there is one per token. */
  function LoadedVocabulary(tokens: seq<Bytes>, merges: seq<Bytes>, types: seq<int>, kind: P.Kind, cls: P.Classifier): Vocabulary {
    Vocabulary(tokens, merges, if |types| == |tokens| then SpecialsOf(tokens, types, |tokens|) else [], kind, cls)
  }

  lemma {:induction false} SpecialsAreTokens(tokens: seq<Bytes>, types: seq<int>, n: nat)
    requires n <= |tokens| == |types|
    ensures forall st :: st in SpecialsOf(tokens, types, n) ==> IsTokenOf(tokens, st)
  {
    if n > 0 {
      SpecialsAreTokens(tokens, types, n - 1);
    }
  }

  /** Every vocabulary that can be loaded meets the round trip's preconditions. */
  lemma {:induction false} LoadedIsValid(tokens: seq<Bytes>, merges: seq<Bytes>, types: seq<int>, kind: P.Kind, cls: P.Classifier)
    requires P.WellClassified(cls)
    ensures ValidVocabulary(LoadedVocabulary(tokens, merges, types, kind, cls))
  {
    if |types| == |tokens| {
      SpecialsAreTokens(tokens, types, |tokens|);
      assert forall i :: 0 <= i < |SpecialsOf(tokens, types, |tokens|)| ==>
        SpecialsOf(tokens, types, |tokens|)[i] in SpecialsOf(tokens, types, |tokens|);
    }
  }

  lemma {:induction false} OffsetNext(text: Bytes, p: nat, k: nat)
    requires p <= |text| && Offset(text, p, k) < |text|
    ensures Offset(text, p, k + 1) == Offset(text, p, k) + StepLength(text, Offset(text, p, k))
    decreases k
  {
    if k > 0 {
      OffsetNext(text, p + StepLength(text, p), k - 1);
    } else {
      assert Offset(text, p + StepLength(text, p), 0) == p + StepLength(text, p);
    }
  }

  /** The code points and offsets of the text before pos. */
  ghost predicate Scanned(text: Bytes, cpts: seq<nat>, offs: seq<nat>, pos: nat)
    requires pos <= |text|
  {
    && CodePoints(text, 0) == cpts + CodePoints(text, pos)
    && |offs| == |cpts| && pos == Offset(text, 0, |cpts|)
    && forall k :: 0 <= k < |offs| ==> offs[k] == Offset(text, 0, k)
  }

  lemma {:induction false} ScanOne(text: Bytes, cpts: seq<nat>, offs: seq<nat>, pos: nat)
    requires pos < |text| && Scanned(text, cpts, offs, pos)
    ensures Scanned(text, cpts + [CodePoint(text, pos)], offs + [pos], pos + StepLength(text, pos))
    ensures |CodePoints(text, 0)| > |cpts|
  {
    OffsetNext(text, 0, |cpts|);
    var c := [CodePoint(text, pos)];
    hide Offset;
    assert CodePoints(text, pos) == c + CodePoints(text, pos + StepLength(text, pos));
  }

  lemma {:induction false} CodePointsValid(text: Bytes, p: nat)
    requires p <= |text|
    ensures P.ValidText(CodePoints(text, p))
    decreases |text| - p
  {
    if p < |text| {
      CodePointsValid(text, p + StepLength(text, p));
    }
  }

  lemma {:induction false} EncodeSpansStart(v: Vocabulary, text: Bytes, spans: seq<P.Span>, cap: int)
    ensures spans[0..] == spans
    ensures EncodeSpans(v, text, spans, cap) == Prepend([], EncodeSpans(v, text, spans[0..], cap))
  {
    assert spans[0..] == spans;
    var r := EncodeSpans(v, text, spans, cap);
    assert r.Written? ==> [] + r.ids == r.ids;
  }

  lemma {:induction false} EncodeSpansStep(v: Vocabulary, text: Bytes, spans: seq<P.Span>, s: nat, ids: seq<nat>, cap: int)
    requires s < |spans|
    ensures spans[s..][1..] == spans[s + 1..] && spans[s..][0] == spans[s]
    ensures var word := EncodeWord(v, SpanBytes(text, spans[s]), cap - |ids|);
      Prepend(ids, EncodeSpans(v, text, spans[s..], cap - |ids|))
      == if word.Written? then Prepend(ids + word.ids, EncodeSpans(v, text, spans[s + 1..], cap - |ids + word.ids|))
         else word
  {
    hide EncodeWord, SpanBytes;
    assert spans[s..][1..] == spans[s + 1..];
    var word := EncodeWord(v, SpanBytes(text, spans[s]), cap - |ids|);
    if word.Written? {
      PrependTwice(ids, word.ids, EncodeSpans(v, text, spans[s + 1..], cap - |ids + word.ids|));
    }
  }

  lemma {:induction false} EncodeSpansEnd(v: Vocabulary, text: Bytes, spans: seq<P.Span>, ids: seq<nat>, cap: int)
    ensures Prepend(ids, EncodeSpans(v, text, spans[|spans|..], cap)) == Written(ids)
  {
    assert spans[|spans|..] == [] && ids + [] == ids;
  }

  method CollectSpecials(tokens: seq<Bytes>, types: seq<int>) returns (sp: seq<Special>)
    ensures sp == if |types| == |tokens| then SpecialsOf(tokens, types, |tokens|) else []
  {
    sp := [];
    if |types| == |tokens| {
      for i := 0 to |types|
        invariant sp == SpecialsOf(tokens, types, i)
      {
        if types[i] != TYPE_NORMAL && types[i] != TYPE_UNUSED {
          sp := sp + [Special(tokens[i], i)];
        }
      }
    }
  }

  function Pending(v: Vocabulary, text: Bytes, seg: nat, pos: nat, cap: int): Outcome
    requires seg <= pos <= |text|
  {
    if pos > seg then EncodeNormal(v, text[seg..pos], cap) else Written([])
  }

  lemma {:induction false} PrependNone(o: Outcome)
    ensures Prepend([], o) == o
  {
    assert o.Written? ==> [] + o.ids == o.ids;
  }

  /** One position of the scan: without a special token it moves on, with one it flushes what is pending and takes it. */
  lemma {:induction false} EncodeStep(v: Vocabulary, text: Bytes, seg: nat, pos: nat, ids: seq<nat>, cap: int)
    requires seg <= pos < |text|
    ensures var best := LongestSpecial(v, text, pos, |v.special|);
            var plain := Pending(v, text, seg, pos, cap);
            Prepend(ids, EncodeFrom(v, text, seg, pos, cap))
            == if best.None? then Prepend(ids, EncodeFrom(v, text, seg, pos + 1, cap))
               else if !plain.Written? then plain
               else if |plain.ids| >= cap then Refused
               else
                 var next := pos + |best.value.text|;
                 Prepend((ids + plain.ids) + [best.value.id], EncodeFrom(v, text, next, next, cap - |plain.ids| - 1))
  {
    hide EncodeNormal, LongestSpecial;
    var best := LongestSpecial(v, text, pos, |v.special|);
    var plain := Pending(v, text, seg, pos, cap);
    if best.Some? && plain.Written? && |plain.ids| < cap {
      var next := pos + |best.value.text|;
      PrependTwice(ids, plain.ids + [best.value.id], EncodeFrom(v, text, next, next, cap - |plain.ids| - 1));
      assert ids + (plain.ids + [best.value.id]) == (ids + plain.ids) + [best.value.id];
    }
  }

  lemma {:induction false} EncodeEnd(v: Vocabulary, text: Bytes, seg: nat, ids: seq<nat>, cap: int)
    requires seg <= |text|
    ensures var plain := Pending(v, text, seg, |text|, cap);
            Prepend(ids, EncodeFrom(v, text, seg, |text|, cap)) == if plain.Written? then Written(ids + plain.ids) else plain
  {
    hide EncodeNormal, LongestSpecial;
  }

  lemma {:induction false} MapStart(text: Bytes, from: nat)
    requires from <= |text|
    ensures MapBytes(text[from..from]) == []
  {
  }

  /** Mapping one more byte appends its image, and what is mapped so far only grows. */
  lemma {:induction false} MapNext(text: Bytes, from: nat, bi: nat, to: nat)
    requires from <= bi < to <= |text|
    ensures MapBytes(text[from..bi + 1]) == MapBytes(text[from..bi]) + MapByte(text[bi])
    ensures |MapBytes(text[from..bi + 1])| <= |MapBytes(text[from..to])|
  {
    hide MapBytes, MapByte;
    MapOne(text[bi]);
    assert text[from..bi + 1] == text[from..bi] + [text[bi]];
    MapAppend(text[from..bi], [text[bi]]);
    MapAppend(text[from..bi + 1], text[bi + 1..to]);
    assert text[from..to] == text[from..bi + 1] + text[bi + 1..to];
  }

  predicate IsInt(n: int) {
    -0x8000_0000 <= n < 0x8000_0000
  }

  /** The conversion of an int to size_t: a negative capacity becomes a huge one. */
  function AsSize(n: int): (r: int)
    requires IsInt(n)
    ensures n >= 0 ==> r == n
    ensures -0x8000_0000 <= n < 0 ==> r > 0xFFFF_FFFF_0000_0000
  {
    n % 0x1_0000_0000_0000_0000
  }

  class BpeVocab {
    ghost const vocab: Vocabulary
    const tokens: seq<Bytes>
    const special: seq<Special>
    const kind: P.Kind
    const cls: P.Classifier
    const tables: MergeLoop.BpeTables

    ghost predicate Valid()
      reads tables.vocabMap, tables.mergeMap, tables.vocabMap.entries, tables.mergeMap.entries
    {
      && ValidVocabulary(vocab)
      && tokens == vocab.tokens && special == vocab.special && kind == vocab.kind && cls == vocab.cls
      && tables.Valid()
      && tables.Vocab() == FirstIndex(vocab.tokens) && tables.Merges() == FirstIndex(vocab.merges)
    }

    constructor (hash: Bytes -> nat, tokens: seq<Bytes>, merges: seq<Bytes>, types: seq<int>, kind: P.Kind, cls: P.Classifier)
      requires P.WellClassified(cls)
      ensures Valid() && vocab == LoadedVocabulary(tokens, merges, types, kind, cls)
    {
      hide StrIntMap.Valid, ValidVocabulary, P.WellClassified;
      var vocabMap := Load(hash, tokens);
      var mergeMap := Load(hash, merges);
      var t := new MergeLoop.BpeTables(vocabMap, mergeMap);
      var sp := CollectSpecials(tokens, types);
      LoadedIsValid(tokens, merges, types, kind, cls);
      this.vocab := LoadedVocabulary(tokens, merges, types, kind, cls);
      this.tokens := tokens;
      this.special := sp;
      this.kind := kind;
      this.cls := cls;
      this.tables := t;
    }

    /** Decodes a text into code points and their byte offsets; false when there are too many. */
    method Scan(text: Bytes) returns (ok: bool, cpts: seq<nat>, offs: seq<nat>)
      ensures ok == (|CodePoints(text, 0)| <= MAX_CPTS)
      ensures ok ==> cpts == CodePoints(text, 0) && |offs| == |cpts| + 1
      ensures ok ==> forall k :: 0 <= k <= |cpts| ==> offs[k] == Offset(text, 0, k)
    {
      cpts, offs := [], [];
      var pos: nat := 0;
      while pos < |text|
        invariant pos <= |text| && |cpts| <= MAX_CPTS
        invariant Scanned(text, cpts, offs, pos)
        decreases |text| - pos
      {
        if |cpts| >= MAX_CPTS {
          return false, [], [];
        }
        ScanOne(text, cpts, offs, pos);
        offs := offs + [pos];
        cpts := cpts + [CodePoint(text, pos)];
        pos := pos + StepLength(text, pos);
      }
      ok := true;
      offs := offs + [|text|];
    }

    /** Maps text[from..to] into the word buffer; false when it does not fit. */
    method MapWord(text: Bytes, from: nat, to: nat) returns (ok: bool, mapped: Bytes)
      requires from <= to <= |text|
      ensures ok == (|MapBytes(text[from..to])| <= MAX_SYMBOLS)
      ensures ok ==> mapped == MapBytes(text[from..to])
    {
      hide MapBytes, MapByte;
      MapStart(text, from);
      mapped := [];
      for bi := from to to
        invariant mapped == MapBytes(text[from..bi]) && |mapped| <= MAX_SYMBOLS
      {
        var m := MapByte(text[bi]);
        MapNext(text, from, bi, to);
        if |mapped| + |m| > MAX_SYMBOLS {
          return false, [];
        }
        mapped := mapped + m;
      }
      ok := true;
    }

    method EncodePlain(text: Bytes, cap: int) returns (r: Outcome)
      requires Valid()
      ensures r == EncodeNormal(vocab, text, cap)
    {
      hide Regex.Ends, P.SpanEnd, P.Split, CodePoints, P.WellClassified, StrIntMap.Valid;
      var ok, cpts, offs := Scan(text);
      if !ok {
        return Refused;
      }
      CodePointsValid(text, 0);
      assert cpts[..|cpts|] == cpts;
      var split := P.SplitSpan(kind, cls, cpts, 0, |cpts|, MAX_SPANS);
      if split.None? {
        return Refused;
      }
      P.SplitTiles(kind, cls, cpts, 0, MAX_SPANS);
      r := EncodeEach(text, cpts, offs, split.value, cap);
    }

    method EncodeEach(text: Bytes, cpts: seq<nat>, offs: seq<nat>, spans: seq<P.Span>, cap: int) returns (r: Outcome)
      requires Valid() && cpts == CodePoints(text, 0) && P.MatchTiles(kind, cls, cpts, spans, 0)
      requires |offs| == |cpts| + 1 && forall k :: 0 <= k <= |cpts| ==> offs[k] == Offset(text, 0, k)
      ensures r == EncodeSpans(vocab, text, spans, cap)
    {
      hide Regex.Match, Regex.Ends, P.SplitPattern, P.MatchTiles, CodePoints, Offset, SpanBytes, EncodeWord, EncodeSpans, Prepend, P.WellClassified,
        StrIntMap.Valid;
      var ids: seq<nat> := [];
      ghost var at: nat := 0;
      EncodeSpansStart(vocab, text, spans, cap);
      for s := 0 to |spans|
        invariant at <= |cpts| && P.MatchTiles(kind, cls, cpts, spans[s..], at)
        invariant EncodeSpans(vocab, text, spans, cap) == Prepend(ids, EncodeSpans(vocab, text, spans[s..], cap - |ids|))
      {
        EncodeSpansStep(vocab, text, spans, s, ids, cap);
        TilesStay(vocab, text, spans[s..], at);
        OffsetsGrow(text, 0, at, at + spans[s].len);
        var from, to := offs[spans[s].start], offs[spans[s].start + spans[s].len];
        FirstSpan(text, spans[s], from, to);
        var word := EncodeOne(text, from, to, cap - |ids|);
        assert word == EncodeWord(vocab, SpanBytes(text, spans[s]), cap - |ids|);
        if !word.Written? {
          return word;
        }
        ids := ids + word.ids;
        at := at + spans[s].len;
      }
      EncodeSpansEnd(vocab, text, spans, ids, cap - |ids|);
      r := Written(ids);
    }

    /** One span: its bytes mapped to characters, then merged. */
    method EncodeOne(text: Bytes, from: nat, to: nat, cap: int) returns (word: Outcome)
      requires Valid() && from <= to <= |text|
      ensures word == EncodeWord(vocab, text[from..to], cap)
    {
      hide StrIntMap.Valid, MergeSpec, P.WellClassified;
      var ok, mapped := MapWord(text, from, to);
      if !ok {
        return Refused;
      }
      word := MergeLoop.MergeWord(tables, mapped, cap);
    }

    /** The longest special token at pos. */
    method FindSpecial(text: Bytes, pos: nat) returns (best: Option<Special>)
      requires Valid() && pos < |text|
      ensures best == LongestSpecial(vocab, text, pos, |vocab.special|)
    {
      hide StrIntMap.Valid, P.WellClassified;
      best := None;
      for si := 0 to |special|
        invariant best == LongestSpecial(vocab, text, pos, si)
      {
        var st := special[si];
        if |st.text| > (if best.Some? then |best.value.text| else 0) && |st.text| <= |text| - pos
           && text[pos..pos + |st.text|] == st.text {
          best := Some(st);
        }
      }
    }

    method Encode(text: Bytes, cap: int) returns (r: Outcome)
      requires Valid()
      ensures r == BpeCodec.Encode(vocab, text, cap)
    {
      hide EncodeFrom, EncodeNormal, P.WellClassified, StrIntMap.Valid, LongestSpecial, Prepend;
      var ids: seq<nat> := [];
      var seg: nat, pos: nat := 0, 0;
      PrependNone(EncodeFrom(vocab, text, 0, 0, cap));
      while pos < |text|
        invariant seg <= pos <= |text|
        invariant BpeCodec.Encode(vocab, text, cap) == Prepend(ids, EncodeFrom(vocab, text, seg, pos, cap - |ids|))
        decreases |text| - pos
      {
        var best := FindSpecial(text, pos);
        EncodeStep(vocab, text, seg, pos, ids, cap - |ids|);
        if best.Some? {
          var plain := EncodePending(text, seg, pos, cap - |ids|);
          if !plain.Written? {
            return plain;
          }
          ids := ids + plain.ids;
          if |ids| >= cap {
            return Refused;
          }
          ids := ids + [best.value.id];
          pos := pos + |best.value.text|;
          seg := pos;
        } else {
          pos := pos + 1;
        }
      }
      EncodeEnd(vocab, text, seg, ids, cap - |ids|);
      var plain := EncodePending(text, seg, pos, cap - |ids|);
      if !plain.Written? {
        return plain;
      }
      r := Written(ids + plain.ids);
    }

    /** The plain text before a special token or the end, when there is any. */
    method EncodePending(text: Bytes, seg: nat, pos: nat, cap: int) returns (plain: Outcome)
      requires Valid() && seg <= pos <= |text|
      ensures plain == Pending(vocab, text, seg, pos, cap)
    {
      hide EncodeNormal, P.WellClassified, StrIntMap.Valid, LongestSpecial;
      if pos > seg {
        plain := EncodePlain(text[seg..pos], cap);
      } else {
        plain := Written([]);
      }
    }

    method Decode(ids: seq<int>, capacity: int) returns (r: Decoded)
      requires Valid() && IsInt(capacity)
      ensures r == BpeCodec.Decode(vocab.tokens, ids, AsSize(capacity))
    {
      hide P.WellClassified, StrIntMap.Valid, DecodeToken, After, BpeCodec.Decode;
      var cap := AsSize(capacity);
      var out: Bytes := [];
      assert ids[0..] == ids;
      AfterNothing(BpeCodec.Decode(vocab.tokens, ids, cap));
      for i := 0 to |ids|
        invariant |out| <= cap
        invariant BpeCodec.Decode(vocab.tokens, ids, cap) == After(out, BpeCodec.Decode(vocab.tokens, ids[i..], cap - |out|))
      {
        DecodeNext(vocab.tokens, ids, i, out, cap - |out|);
        if ids[i] < 0 || ids[i] >= |tokens| {
          return BadId;
        }
        var ok, text := DecodeOne(tokens[ids[i]], cap - |out|);
        if !ok {
          return TooSmall;
        }
        out := out + text;
      }
      DecodeEnd(vocab.tokens, ids, out, cap - |out|);
      r := Text(out);
    }

    /** The bytes of one token, when they fit into `room`. */
    method DecodeOne(tok: Bytes, room: nat) returns (ok: bool, out: Bytes)
      ensures ok == (|DecodeToken(tok, 0)| <= room)
      ensures ok ==> out == DecodeToken(tok, 0)
    {
      hide StepLength, CodePoint, CptToByte, DecodeToken;
      out := [];
      var p: nat := 0;
      while p < |tok|
        invariant p <= |tok| && |out| <= room
        invariant DecodeToken(tok, 0) == out + DecodeToken(tok, p)
        decreases |tok| - p
      {
        DecodeTokenStep(tok, p, out);
        var start, cpt := p, CodePoint(tok, p);
        p := p + StepLength(tok, p);
        var b := CptToByte(cpt);
        if b.Some? {
          if |out| + 1 > room {
            return false, [];
          }
          out := out + [b.value];
        } else {
          if |out| + (p - start) > room {
            return false, [];
          }
          out := out + tok[start..p];
        }
      }
      DecodeTokenEnd(tok, out);
      ok := true;
    }
  }

  lemma {:induction false} DecodeTokenStep(tok: Bytes, p: nat, out: Bytes)
    requires p < |tok|
    ensures var n, b := StepLength(tok, p), CptToByte(CodePoint(tok, p));
            out + DecodeToken(tok, p) == (out + if b.Some? then [b.value] else tok[p..p + n]) + DecodeToken(tok, p + n)
  {
    hide StepLength, CodePoint, CptToByte;
  }

  lemma {:induction false} DecodeTokenEnd(tok: Bytes, out: Bytes)
    ensures out + DecodeToken(tok, |tok|) == out
  {
  }

  lemma {:induction false} DecodeNext(tokens: seq<Bytes>, ids: seq<int>, i: nat, out: Bytes, cap: int)
    requires i < |ids|
    ensures After(out, BpeCodec.Decode(tokens, ids[i..], cap))
         == if !(0 <= ids[i] < |tokens|) then BadId
            else
              var t := DecodeToken(tokens[ids[i]], 0);
              if |t| > cap then TooSmall else After(out + t, BpeCodec.Decode(tokens, ids[i + 1..], cap - |t|))
  {
    hide DecodeToken;
    assert ids[i..][0] == ids[i] && ids[i..][1..] == ids[i + 1..];
    if 0 <= ids[i] < |tokens| {
      var t := DecodeToken(tokens[ids[i]], 0);
      var rest := BpeCodec.Decode(tokens, ids[i + 1..], cap - |t|);
      assert rest.Text? ==> out + (t + rest.bytes) == (out + t) + rest.bytes;
    }
  }

  lemma {:induction false} DecodeEnd(tokens: seq<Bytes>, ids: seq<int>, out: Bytes, cap: int)
    ensures After(out, BpeCodec.Decode(tokens, ids[|ids|..], cap)) == Text(out)
  {
    assert out + [] == out;
  }

  lemma {:induction false} AfterNothing(d: Decoded)
    ensures After([], d) == d
  {
    assert d.Text? ==> [] + d.bytes == d.bytes;
  }

  function After(out: Bytes, rest: Decoded): Decoded {
    if rest.Text? then Text(out + rest.bytes) else rest
  }

  /** The public pair of calls: whatever bytes go in come back out, exactly when the specials chosen in them decode to themselves. */
  method EncodeThenDecode(v: BpeVocab, text: Bytes, cap: int, room: int) returns (back: Option<Bytes>)
    requires v.Valid() && IsInt(room) && |text| <= AsSize(room)
    ensures back == if BpeCodec.Encode(v.vocab, text, cap).Written? then Some(Meant(v.vocab, text, 0, 0)) else None
    ensures back == Some(text) <==> BpeCodec.Encode(v.vocab, text, cap).Written? && ChosenPlain(v.vocab, text, 0)
  {
    var r := v.Encode(text, cap);
    if !r.Written? {
      return None;
    }
    TextComesBackIff(v.vocab, text, cap, AsSize(room));
    var d := v.Decode(r.ids, room);
    back := Some(d.bytes);
  }
}
