/** Reading back what was written: exactly when it works, and what it yields. */
module GgufRoundTrip {
  import opened Common
  import opened GgufFormat

  /** `enc` stands in b at pos. */
  predicate At(b: Bytes, pos: nat, enc: Bytes) {
    pos + |enc| <= |b| && b[pos..pos + |enc|] == enc
  }

  lemma {:induction false} AtParts(b: Bytes, pos: nat, x: Bytes, y: Bytes)
    requires At(b, pos, x + y)
    ensures At(b, pos, x) && At(b, pos + |x|, y)
  {
    assert b[pos..pos + |x|] == (x + y)[..|x|];
    assert b[pos + |x|..pos + |x| + |y|] == (x + y)[|x|..];
  }

  lemma {:induction false} NumBack(b: Bytes, pos: nat, x: nat, w: nat)
    requires At(b, pos, LE(x, w))
    ensures ReadNum(b, pos, w) == Some(x % Pow256(w))
  {
    UnLEOfLE(x, w);
  }

  lemma {:induction false} Num4Back(b: Bytes, pos: nat, x: nat)
    requires At(b, pos, LE(x, 4)) && x < TWO_32
    ensures ReadNum(b, pos, 4) == Some(x)
  {
    NumBack(b, pos, x, 4);
    Widths();
  }

  lemma {:induction false} Num8Back(b: Bytes, pos: nat, x: nat)
    requires At(b, pos, LE(x, 8)) && x < TWO_64
    ensures ReadNum(b, pos, 8) == Some(x)
  {
    NumBack(b, pos, x, 8);
    Widths();
  }

  lemma {:induction false} TextBack(b: Bytes, pos: nat, s: Bytes)
    requires At(b, pos, EncText(s)) && |b| < TWO_63
    ensures ReadText(b, pos) == Some(s)
  {
    hide LE, UnLE;
    AtParts(b, pos, LE(|s|, 8), s);
    Num8Back(b, pos, |s|);
  }

  lemma {:induction false} TextsBack(b: Bytes, pos: nat, items: seq<Bytes>, n: nat)
    requires n <= |items| && At(b, pos, EncTexts(items, n)) && |b| < TWO_63
    ensures ReadTexts(b, pos, n) == Some((items[..n], pos + |EncTexts(items, n)|))
  {
    hide ReadText;
    if n > 0 {
      AtParts(b, pos, EncTexts(items, n - 1), EncText(items[n - 1]));
      TextsBack(b, pos, items, n - 1);
      TextBack(b, pos + |EncTexts(items, n - 1)|, items[n - 1]);
      assert items[..n] == items[..n - 1] + [items[n - 1]];
    }
  }

  lemma {:induction false} ElemsLength(elems: seq<nat>, n: nat)
    requires n <= |elems|
    ensures |EncElems(elems, n)| == 4 * n
  {
    if n > 0 {
      ElemsLength(elems, n - 1);
    }
  }

  lemma {:induction false} ElemBack(b: Bytes, pos: nat, elems: seq<nat>, n: nat, j: nat)
    requires j < n <= |elems| && At(b, pos, EncElems(elems, n)) && elems[j] < TWO_32
    ensures pos + 4 * j + 4 <= |b| && UnLE(b[pos + 4 * j..pos + 4 * j + 4]) == elems[j]
  {
    hide LE, UnLE;
    ElemsLength(elems, n - 1);
    AtParts(b, pos, EncElems(elems, n - 1), LE(elems[n - 1], 4));
    if j == n - 1 {
      Num4Back(b, pos + 4 * j, elems[j]);
    } else {
      ElemBack(b, pos, elems, n - 1, j);
    }
  }

  lemma {:induction false} ElemsBack(b: Bytes, pos: nat, elems: seq<nat>)
    requires At(b, pos, EncElems(elems, |elems|)) && forall j :: 0 <= j < |elems| ==> elems[j] < TWO_32
    ensures pos + |elems| * 4 <= |b| && ElementsAt(b, pos, 4, |elems|) == elems
  {
    hide UnLE, EncElems;
    ElemsLength(elems, |elems|);
    var back := ElementsAt(b, pos, 4, |elems|);
    forall j | 0 <= j < |elems| ensures back[j] == elems[j] {
      ElemBack(b, pos, elems, |elems|, j);
    }
  }

  // ---- key-value pairs ----

  /** What the writing calls can register: a known tag, values of their width. */
  predicate WritableValue(v: Value) {
    match v
    case Scalar(t, bits) => Width(t) > 0 && bits < TWO_64
    case Text(_) => true
    case Texts(_) => true
    case Elements(t, elems) => (t == INT32 || t == FLOAT32) && forall j :: 0 <= j < |elems| ==> elems[j] < TWO_32
  }

  predicate NoNul(s: Bytes) {
    forall k :: 0 <= k < |s| ==> s[k] != 0
  }

  predicate WritableKV(kv: KV) {
    NoNul(kv.key) && WritableValue(kv.value)
  }

  function CanonicalValue(v: Value): Value {
    match v
    case Scalar(t, bits) => Scalar(t, Canonical(t, bits))
    case _ => v
  }

  /** What is read back for a written pair. */
  function CanonicalKV(kv: KV): KV {
    KV(kv.key, CanonicalValue(kv.value))
  }

  lemma {:induction false} CStringOfKey(s: Bytes)
    requires NoNul(s)
    ensures CString(s) == s
  {
    if s != [] {
      assert s[0] != 0;
      assert forall k :: 0 <= k < |s[1..]| ==> s[1..][k] == s[k + 1];
      CStringOfKey(s[1..]);
    }
  }

  lemma {:induction false} ScalarBack(b: Bytes, pos: nat, t: nat, bits: nat)
    requires Width(t) > 0 && bits < TWO_64
    requires At(b, pos, LE(Narrowed(t, bits), Width(t)))
    ensures exists z :: ReadNum(b, pos, Width(t)) == Some(z) && SignExtended(t, z) == Canonical(t, bits)
  {
    hide LE, UnLE, ReadNum, Pow256;
    NumBack(b, pos, Narrowed(t, bits), Width(t));
    Widths();
    var z := Narrowed(t, bits) % Pow256(Width(t));
    assert SignExtended(t, z) == Canonical(t, bits);
  }

  lemma {:induction false} ArrayBack(b: Bytes, pos: nat, v: Value)
    requires |b| < TWO_63 && WritableValue(v) && (v.Texts? || v.Elements?)
    requires At(b, pos, EncValue(v))
    ensures ReadValue(b, pos) == Some((v, pos + |EncValue(v)|))
  {
    hide LE, UnLE, ReadNum, ReadTexts, EncTexts, EncElems, ReadText, ElementsAt;
    var t := if v.Texts? then STRING else v.t;
    var n := if v.Texts? then |v.items| else |v.elems|;
    var body := if v.Texts? then EncTexts(v.items, n) else EncElems(v.elems, n);
    AtParts(b, pos, LE(ARRAY, 4), LE(t, 4) + (LE(n, 8) + body));
    AtParts(b, pos + 4, LE(t, 4), LE(n, 8) + body);
    AtParts(b, pos + 8, LE(n, 8), body);
    Num4Back(b, pos, ARRAY);
    Num4Back(b, pos + 4, t);
    CountFits(b, pos + 16, v);
    Num8Back(b, pos + 8, n);
    if v.Texts? {
      TextsBack(b, pos + 16, v.items, n);
      assert v.items[..n] == v.items;
    } else {
      ElemsBack(b, pos + 16, v.elems);
      ElemsLength(v.elems, n);
    }
  }

  lemma {:induction false} TextsLength(items: seq<Bytes>, n: nat)
    requires n <= |items|
    ensures |EncTexts(items, n)| >= 8 * n
  {
    if n > 0 {
      TextsLength(items, n - 1);
    }
  }

  /** An array that fits into the file has a count that fits into 64 bits. */
  lemma {:induction false} CountFits(b: Bytes, pos: nat, v: Value)
    requires |b| < TWO_63
    requires v.Texts? ==> At(b, pos, EncTexts(v.items, |v.items|))
    requires v.Elements? ==> At(b, pos, EncElems(v.elems, |v.elems|))
    ensures v.Texts? ==> |v.items| < TWO_64
    ensures v.Elements? ==> |v.elems| < TWO_64
  {
    if v.Texts? {
      TextsLength(v.items, |v.items|);
    }
    if v.Elements? {
      ElemsLength(v.elems, |v.elems|);
    }
  }

  lemma {:induction false} ValueBack(b: Bytes, pos: nat, v: Value)
    requires |b| < TWO_63 && WritableValue(v) && At(b, pos, EncValue(v))
    ensures ReadValue(b, pos) == Some((CanonicalValue(v), pos + |EncValue(v)|))
  {
    hide LE, UnLE, ReadNum, ReadText, ReadArray, Canonical, SignExtended, Narrowed, EncText;
    match v {
      case Scalar(t, bits) =>
        AtParts(b, pos, LE(t, 4), LE(Narrowed(t, bits), Width(t)));
        Num4Back(b, pos, t);
        ScalarBack(b, pos + 4, t, bits);
      case Text(s) =>
        AtParts(b, pos, LE(STRING, 4), EncText(s));
        Num4Back(b, pos, STRING);
        TextBack(b, pos + 4, s);
        TextLength(s);
      case _ =>
        ArrayBack(b, pos, v);
    }
  }

  lemma {:induction false} TextLength(s: Bytes)
    ensures |EncText(s)| == 8 + |s|
  {
  }

  lemma {:induction false} KVBack(b: Bytes, pos: nat, kv: KV)
    requires |b| < TWO_63 && WritableKV(kv) && At(b, pos, EncKV(kv))
    ensures ReadKV(b, pos) == Some((CanonicalKV(kv), pos + |EncKV(kv)|))
  {
    hide EncText, EncValue, ReadText, ReadValue, CanonicalValue, WritableValue, CString;
    AtParts(b, pos, EncText(kv.key), EncValue(kv.value));
    TextLength(kv.key);
    TextBack(b, pos, kv.key);
    ValueBack(b, pos + 8 + |kv.key|, kv.value);
    CStringOfKey(kv.key);
  }

  predicate WritableKVs(kvs: seq<KV>) {
    forall i :: 0 <= i < |kvs| ==> WritableKV(kvs[i])
  }

  function CanonicalKVs(kvs: seq<KV>): seq<KV> {
    seq(|kvs|, i requires 0 <= i < |kvs| => CanonicalKV(kvs[i]))
  }

  lemma {:induction false} KVsBack(b: Bytes, pos: nat, kvs: seq<KV>, n: nat)
    requires |b| < TWO_63 && WritableKVs(kvs) && n <= |kvs| && At(b, pos, EncKVs(kvs, n))
    ensures ReadKVs(b, pos, n) == Some((CanonicalKVs(kvs)[..n], pos + |EncKVs(kvs, n)|))
  {
    hide EncKV, ReadKV, WritableKV, CanonicalKV;
    if n > 0 {
      AtParts(b, pos, EncKVs(kvs, n - 1), EncKV(kvs[n - 1]));
      KVsBack(b, pos, kvs, n - 1);
      KVBack(b, pos + |EncKVs(kvs, n - 1)|, kvs[n - 1]);
      var c := CanonicalKVs(kvs);
      assert c[..n] == c[..n - 1] + [c[n - 1]];
    }
  }

  // ---- tensor descriptions ----

  /** A C name, 1..4 dimensions of 64 bits, a known type, and exactly the bytes type and shape call for. */
  predicate WritableTensor(t: Tensor) {
    && NoNul(t.name) && 1 <= |t.ne| <= 4 && t.t < TWO_32
    && (forall d :: 0 <= d < |t.ne| ==> t.ne[d] < TWO_64)
    && ByteSize(t.t, t.ne) == Some(|t.data|)
  }

  predicate WritableTensors(ts: seq<Tensor>) {
    forall i :: 0 <= i < |ts| ==> WritableTensor(ts[i])
  }

  function InfoOf(t: Tensor, offset: nat): TensorInfo {
    TensorInfo(t.name, t.ne, t.t, |t.data|, offset)
  }

  lemma {:induction false} DimsBack(b: Bytes, pos: nat, ne: seq<nat>, n: nat)
    requires n <= |ne| && At(b, pos, EncDims(ne, n)) && forall d :: 0 <= d < |ne| ==> ne[d] < TWO_64
    ensures |EncDims(ne, n)| == 8 * n && ReadDims(b, pos, n) == Some(ne[..n])
  {
    hide LE, UnLE, ReadNum;
    if n > 0 {
      AtParts(b, pos, EncDims(ne, n - 1), LE(ne[n - 1], 8));
      DimsBack(b, pos, ne, n - 1);
      Num8Back(b, pos + 8 * (n - 1), ne[n - 1]);
      assert ne[..n] == ne[..n - 1] + [ne[n - 1]];
    }
  }

  lemma {:induction false} ShapeBack(b: Bytes, pos: nat, t: Tensor, offset: nat)
    requires WritableTensor(t) && offset < TWO_64
    requires At(b, pos, LE(|t.ne|, 4) + (EncDims(t.ne, |t.ne|) + (LE(t.t, 4) + LE(offset, 8))))
    ensures ReadShape(b, pos, t.name) == Some((InfoOf(t, offset), pos + 16 + |EncDims(t.ne, |t.ne|)|))
  {
    hide LE, UnLE, ReadNum, EncDims, ReadDims, TypeInfo, Count, CString;
    var dims := EncDims(t.ne, |t.ne|);
    AtParts(b, pos, LE(|t.ne|, 4), dims + (LE(t.t, 4) + LE(offset, 8)));
    AtParts(b, pos + 4, dims, LE(t.t, 4) + LE(offset, 8));
    AtParts(b, pos + 4 + |dims|, LE(t.t, 4), LE(offset, 8));
    Num4Back(b, pos, |t.ne|);
    DimsBack(b, pos + 4, t.ne, |t.ne|);
    assert t.ne[..|t.ne|] == t.ne;
    Num4Back(b, pos + 4 + |dims|, t.t);
    Num8Back(b, pos + 8 + |dims|, offset);
    CStringOfKey(t.name);
  }

  lemma {:induction false} InfoBack(b: Bytes, pos: nat, t: Tensor, offset: nat)
    requires |b| < TWO_63 && WritableTensor(t) && offset < TWO_64 && At(b, pos, EncInfo(t, offset))
    ensures ReadInfo(b, pos) == Some((InfoOf(t, offset), pos + |EncInfo(t, offset)|))
  {
    hide LE, ReadText, ReadShape, EncDims, EncText, WritableTensor;
    var rest := LE(|t.ne|, 4) + (EncDims(t.ne, |t.ne|) + (LE(t.t, 4) + LE(offset, 8)));
    AtParts(b, pos, EncText(t.name), rest);
    TextLength(t.name);
    TextBack(b, pos, t.name);
    ShapeBack(b, pos + 8 + |t.name|, t, offset);
  }

  function InfosOf(ts: seq<Tensor>, a: nat): seq<TensorInfo>
    requires a > 0
  {
    seq(|ts|, i requires 0 <= i < |ts| => InfoOf(ts[i], OffsetAt(ts, a, i)))
  }

  lemma {:induction false} InfosBack(b: Bytes, pos: nat, ts: seq<Tensor>, a: nat, n: nat)
    requires |b| < TWO_63 && WritableTensors(ts) && a > 0 && n <= |ts|
    requires forall i :: 0 <= i < n ==> OffsetAt(ts, a, i) < TWO_64
    requires At(b, pos, EncInfos(ts, a, n))
    ensures ReadInfos(b, pos, n) == Some((InfosOf(ts, a)[..n], pos + |EncInfos(ts, a, n)|))
  {
    hide EncInfo, ReadInfo, WritableTensor, OffsetAt;
    if n > 0 {
      var offset := OffsetAt(ts, a, n - 1);
      AtParts(b, pos, EncInfos(ts, a, n - 1), EncInfo(ts[n - 1], offset));
      InfosBack(b, pos, ts, a, n - 1);
      InfoBack(b, pos + |EncInfos(ts, a, n - 1)|, ts[n - 1], offset);
      var c := InfosOf(ts, a);
      assert c[..n] == c[..n - 1] + [c[n - 1]];
    }
  }

  // ---- the data section ----

  lemma {:induction false} DataLength(ts: seq<Tensor>, a: nat, n: nat)
    requires n <= |ts| && a > 0
    ensures |EncData(ts, a, n)| == OffsetAt(ts, a, n)
    ensures OffsetAt(ts, a, n) % a == 0
  {
    if n > 0 {
      DataLength(ts, a, n - 1);
      AlignUpIsNext(OffsetAt(ts, a, n - 1) + |ts[n - 1].data|, a);
    } else {
      assert 0 % a == 0;
    }
  }

  lemma {:induction false} OffsetsIncrease(ts: seq<Tensor>, a: nat, i: nat, j: nat)
    requires i < j <= |ts| && a > 0
    ensures OffsetAt(ts, a, i) + |ts[i].data| <= OffsetAt(ts, a, j)
    decreases j
  {
    AlignUpIsNext(OffsetAt(ts, a, j - 1) + |ts[j - 1].data|, a);
    if i < j - 1 {
      OffsetsIncrease(ts, a, i, j - 1);
    }
  }

  /** Tensor i's bytes stand at its offset in the data section. */
  lemma {:induction false} DataAt(b: Bytes, start: nat, ts: seq<Tensor>, a: nat, n: nat, i: nat)
    requires i < n <= |ts| && a > 0 && At(b, start, EncData(ts, a, n))
    ensures At(b, start + OffsetAt(ts, a, i), ts[i].data)
  {
    hide OffsetAt, At;
    DataLength(ts, a, n - 1);
    var end := OffsetAt(ts, a, n - 1) + |ts[n - 1].data|;
    AlignUpIsNext(end, a);
    var before := EncData(ts, a, n - 1) + ts[n - 1].data;
    assert EncData(ts, a, n) == before + Zeros(AlignUp(end, a) - end);
    AtParts(b, start, before, Zeros(AlignUp(end, a) - end));
    AtParts(b, start, EncData(ts, a, n - 1), ts[n - 1].data);
    if i < n - 1 {
      DataAt(b, start, ts, a, n - 1, i);
    }
  }

  // ---- the file ----

  predicate Writable(kvs: seq<KV>, ts: seq<Tensor>, a: nat) {
    && a > 0 && WritableKVs(kvs) && WritableTensors(ts)
    && |kvs| < TWO_64 && |ts| < TWO_64
    && |FileBytes(kvs, ts, a)| < TWO_63        // what ftell can report
  }

  /** The tensors as the reader describes them when the data section starts at `start`. */
  function PlacedInfos(ts: seq<Tensor>, a: nat, start: nat): seq<TensorInfo>
    requires a > 0
  {
    seq(|ts|, i requires 0 <= i < |ts| => InfoOf(ts[i], start + OffsetAt(ts, a, i)))
  }

  /** The data section as it was written. */
  function DataStart(kvs: seq<KV>, ts: seq<Tensor>, a: nat): nat
    requires a > 0
  {
    AlignUp(|Front(kvs, ts, a)|, a)
  }

  /** The file that was meant: the same pairs in order, every tensor where its bytes are. */
  function Meant(kvs: seq<KV>, ts: seq<Tensor>, a: nat): File
    requires a > 0
  {
    var c := CanonicalKVs(kvs);
    File(3, ReaderAlignment(c, |c|), c, PlacedInfos(ts, a, DataStart(kvs, ts, a)))
  }

  lemma {:induction false} FileParts(kvs: seq<KV>, ts: seq<Tensor>, a: nat)
    requires Writable(kvs, ts, a)
    ensures var b := FileBytes(kvs, ts, a);
            && At(b, 0, Header(|ts|, |kvs|)) && At(b, 24, EncKVs(kvs, |kvs|))
            && At(b, 24 + |EncKVs(kvs, |kvs|)|, EncInfos(ts, a, |ts|))
            && |Front(kvs, ts, a)| == 24 + |EncKVs(kvs, |kvs|)| + |EncInfos(ts, a, |ts|)|
            && DataStart(kvs, ts, a) >= |Front(kvs, ts, a)|
            && At(b, DataStart(kvs, ts, a), EncData(ts, a, |ts|))
            && |b| == DataStart(kvs, ts, a) + OffsetAt(ts, a, |ts|)
  {
    hide LE, EncKVs, EncInfos, EncData, OffsetAt, WritableKVs, WritableTensors;
    var b := FileBytes(kvs, ts, a);
    var front, data := Front(kvs, ts, a), EncData(ts, a, |ts|);
    var pad := Zeros(AlignUp(|front|, a) - |front|) by { AlignUpIsNext(|front|, a); }
    AlignUpIsNext(|front|, a);
    assert b == front + pad + data;
    assert b[0..|b|] == b;
    AtParts(b, 0, front + pad, data);
    AtParts(b, 0, front, pad);
    var head, kvBytes, infoBytes := Header(|ts|, |kvs|), EncKVs(kvs, |kvs|), EncInfos(ts, a, |ts|);
    AtParts(b, 0, head, kvBytes + infoBytes);
    AtParts(b, 24, kvBytes, infoBytes);
    DataLength(ts, a, |ts|);
  }

  lemma {:induction false} HeaderBack(b: Bytes, nt: nat, nkv: nat)
    requires At(b, 0, Header(nt, nkv)) && nt < TWO_64 && nkv < TWO_64
    ensures |b| >= 24 && b[..4] == MAGIC && ReadNum(b, 4, 4) == Some(3)
    ensures ReadNum(b, 8, 8) == Some(nt) && ReadNum(b, 16, 8) == Some(nkv)
  {
    hide LE, UnLE, ReadNum;
    AtParts(b, 0, MAGIC, LE(3, 4) + (LE(nt, 8) + LE(nkv, 8)));
    AtParts(b, 4, LE(3, 4), LE(nt, 8) + LE(nkv, 8));
    AtParts(b, 8, LE(nt, 8), LE(nkv, 8));
    Num4Back(b, 4, 3);
    Num8Back(b, 8, nt);
    Num8Back(b, 16, nkv);
  }

  /** Everything up to the data section is read back; what remains is where the reader places the data. */
  lemma {:induction false} TablesBack(kvs: seq<KV>, ts: seq<Tensor>, a: nat)
    requires Writable(kvs, ts, a)
    ensures var b := FileBytes(kvs, ts, a);
            Open(b) == OpenData(b, 3, CanonicalKVs(kvs), InfosOf(ts, a), |Front(kvs, ts, a)|)
  {
    hide ReadNum, Header, EncKVs, EncInfos, ReadKVs, ReadInfos, OpenData, FileBytes, WritableKVs, WritableTensors, EncData, Front, CanonicalKVs,
      InfosOf, At;
    var b := FileBytes(kvs, ts, a);
    FileParts(kvs, ts, a);
    HeaderBack(b, |ts|, |kvs|);
    AllKVsBack(b, kvs);
    AllInfosBack(b, 24 + |EncKVs(kvs, |kvs|)|, ts, a);
  }

  lemma {:induction false} AllKVsBack(b: Bytes, kvs: seq<KV>)
    requires |b| < TWO_63 && WritableKVs(kvs) && At(b, 24, EncKVs(kvs, |kvs|))
    ensures ReadKVs(b, 24, |kvs|) == Some((CanonicalKVs(kvs), 24 + |EncKVs(kvs, |kvs|)|))
  {
    hide At, EncKVs, ReadKVs, WritableKVs;
    KVsBack(b, 24, kvs, |kvs|);
    var c := CanonicalKVs(kvs);
    assert c[..|kvs|] == c;
  }

  lemma {:induction false} AllInfosBack(b: Bytes, pos: nat, ts: seq<Tensor>, a: nat)
    requires a > 0 && WritableTensors(ts) && |b| < TWO_63 && At(b, pos, EncInfos(ts, a, |ts|))
    requires OffsetAt(ts, a, |ts|) < TWO_64
    ensures ReadInfos(b, pos, |ts|) == Some((InfosOf(ts, a), pos + |EncInfos(ts, a, |ts|)|))
  {
    hide At, EncInfos, ReadInfos, WritableTensors, OffsetAt, AlignUp;
    forall i | 0 <= i < |ts| ensures OffsetAt(ts, a, i) < TWO_64 {
      OffsetsIncrease(ts, a, i, |ts|);
    }
    InfosBack(b, pos, ts, a, |ts|);
    var d := InfosOf(ts, a);
    assert d[..|ts|] == d;
  }

  lemma {:induction false} AllPlaced(ts: seq<Tensor>, a: nat, start: nat, n: nat, size: nat)
    requires a > 0 && n <= |ts| && size < TWO_63 && start + OffsetAt(ts, a, |ts|) <= size
    ensures PlaceAll(start, InfosOf(ts, a), n, size) == Some(PlacedInfos(ts, a, start)[..n])
  {
    hide OffsetAt;
    if n > 0 {
      AllPlaced(ts, a, start, n - 1, size);
      OffsetsIncrease(ts, a, n - 1, |ts|);
      var c := PlacedInfos(ts, a, start);
      assert c[..n] == c[..n - 1] + [c[n - 1]];
    }
  }

  /** Whatever start the reader uses, the first tensor lands on that start. */
  lemma {:induction false} FirstPlaced(start: nat, ts: seq<TensorInfo>, n: nat, size: nat)
    requires 0 < n <= |ts| && ts[0].offset == 0 && start < TWO_64
    ensures PlaceAll(start, ts, n, size).Some? ==>
              |PlaceAll(start, ts, n, size).value| == n && PlaceAll(start, ts, n, size).value[0].offset == start
  {
    if n > 1 {
      FirstPlaced(start, ts, n - 1, size);
    } else {
      assert PlaceAll(start, ts, 0, size) == Some([]);
    }
  }

  /** Reader and writer agree on the alignment as far as it matters. */
  predicate AlignmentsAgree(kvs: seq<KV>, ts: seq<Tensor>, a: nat)
    requires a > 0
  {
    var r := ReaderAlignment(CanonicalKVs(kvs), |kvs|);
    r > 0 && (ts == [] || AlignUp(|Front(kvs, ts, a)|, r) == AlignUp(|Front(kvs, ts, a)|, a))
  }

  lemma {:induction false} ReaderAlignmentFits(kvs: seq<KV>, n: nat)
    requires n <= |kvs| && WritableKVs(kvs)
    ensures ReaderAlignment(CanonicalKVs(kvs), n) < TWO_64
  {
    hide Honoured;
    if n > 0 {
      ReaderAlignmentFits(kvs, n - 1);
      assert WritableKV(kvs[n - 1]);
      assert Honoured(CanonicalKVs(kvs)[n - 1]) ==> CanonicalKVs(kvs)[n - 1].value.Scalar? by { HonouredIsScalar(CanonicalKVs(kvs)[n - 1]); }
    }
  }

  lemma {:induction false} HonouredIsScalar(kv: KV)
    ensures Honoured(kv) ==> kv.value.Scalar?
  {
  }

  /** An alignment so large that the start wraps around puts it before the end of the tables. */
  lemma {:induction false} WrappedStart(pos: nat, r: nat)
    requires pos < TWO_63 && 0 < r < TWO_64
    ensures AlignUp(pos, r) >= TWO_64 ==> AlignUp(pos, r) % TWO_64 < pos
    ensures AlignUp(pos, r) < TWO_64 ==> AlignUp(pos, r) % TWO_64 == AlignUp(pos, r)
  {
    AlignUpIsNext(pos, r);
  }

  /** The file opens as it was meant if and only if reader and writer agree on the alignment. */
  lemma {:induction false} RoundTripIff(kvs: seq<KV>, ts: seq<Tensor>, a: nat)
    requires Writable(kvs, ts, a)
    ensures Open(FileBytes(kvs, ts, a)) == Some(Meant(kvs, ts, a)) <==> AlignmentsAgree(kvs, ts, a)
  {
    hide Open, FileBytes, Front, WritableKVs, WritableTensors, PlaceAll, ReaderAlignment, AlignUp, CanonicalKVs, EncKVs, EncInfos,
      EncData, Header, Placed, At;
    var b := FileBytes(kvs, ts, a);
    var pos, start, infos := |Front(kvs, ts, a)|, DataStart(kvs, ts, a), InfosOf(ts, a);
    CanonicalCount(kvs);
    var r := ReaderAlignment(CanonicalKVs(kvs), |kvs|);
    TablesBack(kvs, ts, a);
    FileParts(kvs, ts, a);
    AllPlaced(ts, a, start, |ts|, |b|);
    assert PlacedInfos(ts, a, start)[..|ts|] == PlacedInfos(ts, a, start);
    if r > 0 {
      if ts == [] {
        NothingToPlace(AlignUp(pos, r) % TWO_64, |b|);
        assert infos == [] && PlacedInfos(ts, a, start) == [];
      } else {
        FirstPlaced(AlignUp(pos, r) % TWO_64, infos, |ts|, |b|);
        ReaderAlignmentFits(kvs, |kvs|);
        WrappedStart(pos, r);
        assert PlacedInfos(ts, a, start)[0].offset == start;
      }
    }
  }

  lemma {:induction false} CanonicalCount(kvs: seq<KV>)
    ensures |CanonicalKVs(kvs)| == |kvs|
  {
  }

  lemma {:induction false} NothingToPlace(start: nat, size: nat)
    ensures PlaceAll(start, [], 0, size) == Some([])
  {
  }

  lemma {:induction false} MeantTensor(kvs: seq<KV>, ts: seq<Tensor>, a: nat, i: nat)
    requires a > 0 && i < |ts|
    ensures |Meant(kvs, ts, a).tensors| == |ts|
    ensures Meant(kvs, ts, a).tensors[i] == InfoOf(ts[i], DataStart(kvs, ts, a) + OffsetAt(ts, a, i))
  {
    hide OffsetAt, DataStart, ReaderAlignment;
    CanonicalCount(kvs);
  }

  lemma {:induction false} DataInFile(kvs: seq<KV>, ts: seq<Tensor>, a: nat, i: nat)
    requires Writable(kvs, ts, a) && i < |ts|
    ensures At(FileBytes(kvs, ts, a), DataStart(kvs, ts, a) + OffsetAt(ts, a, i), ts[i].data)
  {
    hide FileBytes, EncData, OffsetAt, WritableKVs, WritableTensors, Front, DataStart, At, Header, EncKVs, EncInfos;
    FileParts(kvs, ts, a);
    DataAt(FileBytes(kvs, ts, a), DataStart(kvs, ts, a), ts, a, |ts|, i);
  }

  lemma {:induction false} ExtentAligned(kvs: seq<KV>, ts: seq<Tensor>, a: nat, i: nat)
    requires a > 0 && i < |ts|
    ensures (DataStart(kvs, ts, a) + OffsetAt(ts, a, i)) % a == 0
  {
    hide OffsetAt, Front, AlignUp, EncData;
    DataLength(ts, a, i);
    AlignUpIsNext(|Front(kvs, ts, a)|, a);
    SumOfMultiples(DataStart(kvs, ts, a), OffsetAt(ts, a, i), a);
  }

  /** In the file that was meant, every tensor's bytes are its own, aligned, inside the file, and no two extents meet. */
  lemma {:induction false} ExtentsHoldTheData(kvs: seq<KV>, ts: seq<Tensor>, a: nat, i: nat)
    requires Writable(kvs, ts, a) && i < |ts|
    ensures |Meant(kvs, ts, a).tensors| == |ts|
    ensures var b, t := FileBytes(kvs, ts, a), Meant(kvs, ts, a).tensors[i];
            && t.name == ts[i].name && t.t == ts[i].t && t.ne == ts[i].ne
            && t.offset % a == 0 && t.offset + t.bytes <= |b|
            && b[t.offset..t.offset + t.bytes] == ts[i].data
    ensures forall j :: i < j < |ts| ==>
              Meant(kvs, ts, a).tensors[i].offset + Meant(kvs, ts, a).tensors[i].bytes <= Meant(kvs, ts, a).tensors[j].offset
  {
    hide FileBytes, OffsetAt, WritableKVs, WritableTensors, DataStart, Meant;
    MeantTensor(kvs, ts, a, i);
    DataInFile(kvs, ts, a, i);
    ExtentAligned(kvs, ts, a, i);
    forall j | i < j < |ts|
      ensures Meant(kvs, ts, a).tensors[i].offset + Meant(kvs, ts, a).tensors[i].bytes <= Meant(kvs, ts, a).tensors[j].offset
    {
      MeantTensor(kvs, ts, a, j);
      OffsetsIncrease(ts, a, i, j);
    }
  }

  lemma {:induction false} SumOfMultiples(x: nat, y: nat, a: nat)
    requires a > 0 && x % a == 0 && y % a == 0
    ensures (x + y) % a == 0
  {
    var p, q := x / a, y / a;
    assert x + y == (p + q) * a;
    DivMod(x + y, a, p + q, 0);
  }

  /** Narrowing, reading back and narrowing again loses nothing more. */
  lemma {:induction false} NarrowAgain(t: nat, bits: nat)
    requires Width(t) > 0
    ensures Narrowed(t, bits) % Pow256(Width(t)) == Narrowed(t, Canonical(t, bits)) % Pow256(Width(t))
    ensures Canonical(t, Canonical(t, bits)) == Canonical(t, bits)
  {
    hide Pow256;
    Widths();
    var p := Pow256(Width(t));
    if t == BOOL {
      assert Canonical(t, bits) == Narrowed(t, bits) < 2;
    } else {
      var z := bits % p;
      assert z == ZeroExtended(t, bits);
      Wraps(z, p, Canonical(t, bits));
      assert ZeroExtended(t, Canonical(t, bits)) == z;
    }
  }

  /** A number below p, or that number with all higher bits set, is the number modulo p. */
  lemma {:induction false} Wraps(z: nat, p: nat, c: nat)
    requires p == 256 || p == 0x1_0000 || p == TWO_32 || p == TWO_64
    requires z < p && (c == z || c == z + TWO_64 - p)
    ensures c % p == z
  {
    var high := if p == 256 then 0xFF_FFFF_FFFF_FFFF else if p == 0x1_0000 then 0xFFFF_FFFF_FFFF
                else if p == TWO_32 then 0xFFFF_FFFF else 0;
    var k := if c == z then 0 else high;
    assert c == k * p + z;
    DivMod(c, p, k, z);
  }

  /** Copying a value that was read writes the very bytes it was read from. */
  lemma {:induction false} CopyIsExact(v: Value)
    requires WritableValue(v)
    ensures EncValue(CanonicalValue(v)) == EncValue(v) && CanonicalValue(CanonicalValue(v)) == CanonicalValue(v)
  {
    hide LE, UnLE, Narrowed, Canonical, Width, Pow256, EncText, EncTexts, EncElems;
    if v.Scalar? {
      var t, bits := v.t, v.bits;
      NarrowAgain(t, bits);
      LowBytes(Narrowed(t, bits), Narrowed(t, Canonical(t, bits)), Width(t));
    }
  }

  lemma {:induction false} SameParts(h: nat, l: nat, h': nat, l': nat)
    requires l < 256 && l' < 256 && 256 * h + l == 256 * h' + l'
    ensures h == h' && l == l'
  {
  }

  /** Numbers that agree in their low w bytes are written alike. */
  lemma {:induction false} LowBytes(x: nat, y: nat, w: nat)
    requires x % Pow256(w) == y % Pow256(w)
    ensures LE(x, w) == LE(y, w)
  {
    if w > 0 {
      LowByteFirst(x, Pow256(w - 1));
      LowByteFirst(y, Pow256(w - 1));
      SameParts(x / 256 % Pow256(w - 1), x % 256, y / 256 % Pow256(w - 1), y % 256);
      LowBytes(x / 256, y / 256, w - 1);
    }
  }
}
