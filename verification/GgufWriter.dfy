/** The buffering writer: what each registration call records, and the bytes gguf_w_finish emits. */
module GgufWriter {
  import opened Common
  import opened GgufFormat
  import opened GgufRoundTrip

  /** One registration call; integers as 64-bit patterns, floats as bit patterns. */
  datatype Call =
    | Str(key: Bytes, text: Bytes)
    | U32(key: Bytes, bits: nat)
    | U64(key: Bytes, bits: nat)
    | I64(key: Bytes, bits: nat)
    | F32(key: Bytes, bits: nat)
    | F64(key: Bytes, bits: nat)
    | Bool(key: Bytes, val: bool)
    | IntRaw(key: Bytes, t: nat, bits: nat)
    | StrArray(key: Bytes, items: seq<Bytes>)
    | I32Array(key: Bytes, elems: seq<nat>)
    | F32Array(key: Bytes, elems: seq<nat>)

  function ValueOf(c: Call): Value {
    match c
    case Str(_, text) => Text(text)
    case U32(_, bits) => Scalar(UINT32, bits)
    case U64(_, bits) => Scalar(UINT64, bits)
    case I64(_, bits) => Scalar(INT64, bits)
    case F32(_, bits) => Scalar(FLOAT32, bits)
    case F64(_, bits) => Scalar(FLOAT64, bits)
    case Bool(_, val) => Scalar(BOOL, if val then 1 else 0)
    case IntRaw(_, t, bits) => Scalar(t, bits)
    case StrArray(_, items) => Texts(items)
    case I32Array(_, elems) => Elements(INT32, elems)
    case F32Array(_, elems) => Elements(FLOAT32, elems)
  }

  /** The calls that can set the writer's alignment, with the value they pass, not narrowed. */
  predicate SetsAlignment(c: Call) {
    (c.U32? || c.U64? || c.IntRaw?) && c.key == ALIGNMENT_KEY && c.bits > 0
  }

  function WriterAlignment(calls: seq<Call>, n: nat): (a: nat)
    requires n <= |calls|
    ensures a > 0
  {
    if n == 0 then 32
    else if SetsAlignment(calls[n - 1]) then calls[n - 1].bits
    else WriterAlignment(calls, n - 1)
  }

  function KVsOf(calls: seq<Call>): seq<KV> {
    seq(|calls|, i requires 0 <= i < |calls| => KV(calls[i].key, ValueOf(calls[i])))
  }

  /** A call either leaves the alignment alone or sets it to a positive value the reader will see unchanged. */
  predicate SafeCall(c: Call) {
    c.key == ALIGNMENT_KEY ==>
      && SetsAlignment(c) && Honoured(KV(c.key, ValueOf(c)))
      && Canonical(ValueOf(c).t, c.bits) == c.bits
  }

  lemma {:induction false} SafeCallsAgree(calls: seq<Call>, n: nat)
    requires n <= |calls| && forall i :: 0 <= i < |calls| ==> SafeCall(calls[i])
    ensures ReaderAlignment(CanonicalKVs(KVsOf(calls)), n) == WriterAlignment(calls, n)
  {
    hide Canonical;
    if n > 0 {
      SafeCallsAgree(calls, n - 1);
      assert SafeCall(calls[n - 1]);
    }
  }

  /** With such calls only, every file round-trips. */
  lemma {:induction false} SafeCallsRoundTrip(calls: seq<Call>, ts: seq<Tensor>)
    requires forall i :: 0 <= i < |calls| ==> SafeCall(calls[i])
    requires Writable(KVsOf(calls), ts, WriterAlignment(calls, |calls|))
    ensures var a := WriterAlignment(calls, |calls|);
            Open(FileBytes(KVsOf(calls), ts, a)) == Some(Meant(KVsOf(calls), ts, a))
  {
    hide Writable, Open, FileBytes, SafeCall, Front;
    var kvs, a := KVsOf(calls), WriterAlignment(calls, |calls|);
    SafeCallsAgree(calls, |calls|);
    RoundTripIff(kvs, ts, a);
  }

  /** The alignment as a 16-bit integer: the writer uses 64, the reader ignores it and keeps 32. */
  function BadCalls(): seq<Call> {
    [IntRaw(ALIGNMENT_KEY, UINT16, 64)]
  }

  function OneFloat(): seq<Tensor> {
    [Tensor([116], 0, [1], [1, 2, 3, 4])]
  }

  /**
   The file of BadCalls opens, with every check passed, but the tensor's extent holds padding:
   88 bytes of tables end before 96, where the reader looks, and the data stands at 128.
   */
  lemma {:induction false} IgnoredAlignmentReadsPadding()
    ensures var a := WriterAlignment(BadCalls(), 1);
            var b := FileBytes(KVsOf(BadCalls()), OneFloat(), a);
            && Open(b).Some? && |Open(b).value.tensors| == 1
            && var t := Open(b).value.tensors[0];
            && t.offset + t.bytes <= |b|
            && b[t.offset..t.offset + t.bytes] == [0, 0, 0, 0] != OneFloat()[0].data
  {
    hide LE, UnLE, ReadKVs, ReadInfos, ReadNum, Canonical;
    var kvs, ts, a := KVsOf(BadCalls()), OneFloat(), 64;
    assert WriterAlignment(BadCalls(), 1) == a;
    BadFrontLength();
    var front := Front(kvs, ts, a);
    var b := FileBytes(kvs, ts, a);
    BadIsWritable();
    assert EncData(ts, a, 0) == [];
    assert OffsetAt(ts, a, 0) == 0;
    assert b == front + Zeros(40) + EncData(ts, a, 1);
    TablesBack(kvs, ts, a);
    assert !Honoured(CanonicalKVs(kvs)[0]);
    assert ReaderAlignment(CanonicalKVs(kvs), 0) == 32;
    var infos := InfosOf(ts, a);
    var t := TensorInfo([116], [1], 0, 4, 0);
    assert infos == [t];
    OnePlaced(96, t, |b|);
    assert ReaderAlignment(CanonicalKVs(kvs), 1) == 32;
    assert OpenData(b, 3, CanonicalKVs(kvs), infos, 88) == Some(File(3, 32, CanonicalKVs(kvs), [t.(offset := 96)]));
    assert b[96..100] == [0, 0, 0, 0];
  }

  lemma {:induction false} OnePlaced(start: nat, t: TensorInfo, size: nat)
    requires start + t.bytes <= size < TWO_63 && t.offset == 0
    ensures PlaceAll(start, [t], 1, size) == Some([t.(offset := start)])
  {
    var none: seq<TensorInfo> := [];
    assert PlaceAll(start, [t], 0, size) == Some(none);
    assert Placed(start, [t][0], size) == Some(t.(offset := start));
    assert none + [t.(offset := start)] == [t.(offset := start)];
  }

  lemma {:induction false} BadFrontLength()
    ensures |Front(KVsOf(BadCalls()), OneFloat(), 64)| == 88
  {
    hide LE;
    var kvs, ts := KVsOf(BadCalls()), OneFloat();
    assert EncKVs(kvs, 0) == [];
    assert |EncValue(kvs[0].value)| == 6;
    assert |EncKVs(kvs, 1)| == 31;
    assert EncDims(ts[0].ne, 0) == [];
    assert |EncDims(ts[0].ne, 1)| == 8;
    assert EncInfos(ts, 64, 0) == [];
    assert |EncInfos(ts, 64, 1)| == 33;
  }

  lemma {:induction false} BadIsWritable()
    ensures Writable(KVsOf(BadCalls()), OneFloat(), 64)
    ensures |EncData(OneFloat(), 64, 1)| == 64
  {
    hide Front, LE;
    BadFrontLength();
    var ts := OneFloat();
    assert Count(ts[0].ne, 0) == 1;
    assert Count(ts[0].ne, 1) == 1;
    assert OffsetAt(ts, 64, 0) == 0;
    assert OffsetAt(ts, 64, 1) == 64;
    DataLength(ts, 64, 1);
  }

  // ---- the writer ----

  class Writer {
    var kvs: seq<KV>
    var tensors: seq<Tensor>
    var alignment: nat
    var out: Bytes
    ghost var calls: seq<Call>

    ghost predicate Valid()
      reads this
    {
      kvs == KVsOf(calls) && alignment == WriterAlignment(calls, |calls|) && alignment > 0
    }

    constructor ()
      ensures Valid() && calls == [] && tensors == [] && out == []
    {
      kvs, tensors, alignment, out, calls := [], [], 32, [], [];
    }

    method PushKV(c: Call)
      requires Valid() && (c.IntRaw? ==> IntegerTag(c.t))
      modifies `kvs, `alignment, `calls
      ensures Valid() && calls == old(calls) + [c]
    {
      kvs := kvs + [KV(c.key, ValueOf(c))];
      if c.U32? || c.U64? || c.IntRaw? {
        MaybeUpdateAlignment(c.key, c.bits);
      }
      calls := calls + [c];
      PrefixAlignment(old(calls), c, |old(calls)|);
    }

    method MaybeUpdateAlignment(key: Bytes, val: nat)
      modifies `alignment
      ensures alignment == if key == ALIGNMENT_KEY && val > 0 then val else old(alignment)
    {
      if key == ALIGNMENT_KEY && val > 0 {
        alignment := val;
      }
    }

    /** Non-integer tags end the program; nothing is recorded for them. */
    method KvIntRaw(key: Bytes, t: nat, bits: nat) returns (fatal: bool)
      requires Valid()
      modifies `kvs, `alignment, `calls
      ensures Valid() && fatal == !IntegerTag(t)
      ensures calls == if fatal then old(calls) else old(calls) + [IntRaw(key, t, bits)]
    {
      if !IntegerTag(t) {
        return true;
      }
      PushKV(IntRaw(key, t, bits));
      fatal := false;
    }

    method AddTensor(t: Tensor)
      requires Valid()
      modifies `tensors
      ensures Valid() && tensors == old(tensors) + [t]
    {
      tensors := tensors + [t];
    }

    method Emit(b: Bytes)
      modifies `out
      ensures out == old(out) + b
    {
      out := out + b;
    }

    method EmitText(s: Bytes)
      modifies `out
      ensures out == old(out) + EncText(s)
    {
      Emit(LE(|s|, 8));
      Emit(s);
    }

    method EmitTexts(items: seq<Bytes>)
      modifies `out
      ensures out == old(out) + EncTexts(items, |items|)
    {
      hide EncText;
      for j := 0 to |items|
        invariant out == old(out) + EncTexts(items, j)
      {
        EmitText(items[j]);
      }
    }

    method EmitElems(elems: seq<nat>)
      modifies `out
      ensures out == old(out) + EncElems(elems, |elems|)
    {
      hide LE;
      for j := 0 to |elems|
        invariant out == old(out) + EncElems(elems, j)
      {
        Emit(LE(elems[j], 4));
      }
    }

    method EmitArrayHead(t: nat, n: nat)
      modifies `out
      ensures out == old(out) + (LE(ARRAY, 4) + (LE(t, 4) + LE(n, 8)))
    {
      hide LE;
      Emit(LE(ARRAY, 4));
      Emit(LE(t, 4));
      Emit(LE(n, 8));
    }

    method EmitValue(v: Value)
      modifies `out
      ensures out == old(out) + EncValue(v)
    {
      hide LE, EncText, Narrowed, EncTexts, EncElems;
      match v {
        case Scalar(t, bits) =>
          Emit(LE(t, 4));
          Emit(LE(Narrowed(t, bits), Width(t)));
        case Text(s) =>
          Emit(LE(STRING, 4));
          EmitText(s);
        case Texts(items) =>
          EmitArrayHead(STRING, |items|);
          EmitTexts(items);
        case Elements(t, elems) =>
          EmitArrayHead(t, |elems|);
          EmitElems(elems);
      }
    }

    method EmitKVs()
      modifies `out
      ensures out == old(out) + EncKVs(kvs, |kvs|)
    {
      hide EncText, EncValue;
      for i := 0 to |kvs|
        invariant out == old(out) + EncKVs(kvs, i)
      {
        EmitText(kvs[i].key);
        EmitValue(kvs[i].value);
      }
    }

    method Offsets() returns (offsets: seq<nat>)
      requires alignment > 0
      ensures |offsets| == |tensors| && forall i :: 0 <= i < |offsets| ==> offsets[i] == OffsetAt(tensors, alignment, i)
    {
      hide OffsetAt, AlignUp;
      offsets := [];
      var running := 0;
      NoTensors(tensors, alignment);
      for i := 0 to |tensors|
        invariant |offsets| == i && running == OffsetAt(tensors, alignment, i)
        invariant forall k :: 0 <= k < i ==> offsets[k] == OffsetAt(tensors, alignment, k)
      {
        offsets := offsets + [running];
        running := AlignUp(running + |tensors[i].data|, alignment);
        NextOffset(tensors, alignment, i);
      }
    }

    method EmitInfo(t: Tensor, offset: nat)
      modifies `out
      ensures out == old(out) + EncInfo(t, offset)
    {
      hide LE, EncText;
      EmitText(t.name);
      Emit(LE(|t.ne|, 4));
      ghost var head := out;
      for d := 0 to |t.ne|
        invariant out == head + EncDims(t.ne, d)
      {
        Emit(LE(t.ne[d], 8));
      }
      Emit(LE(t.t, 4));
      Emit(LE(offset, 8));
    }

    method EmitZeros(n: nat)
      modifies `out
      ensures out == old(out) + Zeros(n)
    {
      var cursor := 0;
      while cursor < n
        invariant cursor <= n && out == old(out) + Zeros(cursor)
      {
        var chunk := if n - cursor > 64 then 64 else n - cursor;
        Emit(Zeros(chunk));
        cursor := cursor + chunk;
      }
    }

    method EmitData()
      requires alignment > 0
      modifies `out
      ensures out == old(out) + EncData(tensors, alignment, |tensors|)
    {
      hide OffsetAt, AlignUp;
      var cursor := 0;
      assert OffsetAt(tensors, alignment, 0) == 0 by { NoTensors(tensors, alignment); }
      for i := 0 to |tensors|
        invariant cursor == OffsetAt(tensors, alignment, i)
        invariant out == old(out) + EncData(tensors, alignment, i)
      {
        Emit(tensors[i].data);
        var end := cursor + |tensors[i].data|;
        AlignUpIsNext(end, alignment);
        EmitZeros(AlignUp(end, alignment) - end);
        cursor := AlignUp(end, alignment);
        NextOffset(tensors, alignment, i);
      }
    }

    /** Header, pairs, tensor descriptions with their offsets, padding, and the data section. */
    method Finish()
      requires Valid() && out == []
      modifies `out
      ensures out == FileBytes(kvs, tensors, alignment)
    {
      hide LE, EncKVs, EncInfo, EncData, OffsetAt, KVsOf, WriterAlignment, AlignUp;
      Emit(MAGIC);
      Emit(LE(3, 4));
      Emit(LE(|tensors|, 8));
      Emit(LE(|kvs|, 8));
      assert out == Header(|tensors|, |kvs|);
      EmitKVs();
      ghost var head := out;
      var offsets := Offsets();
      for i := 0 to |tensors|
        invariant out == head + EncInfos(tensors, alignment, i)
      {
        EmitInfo(tensors[i], offsets[i]);
      }
      assert out == Front(kvs, tensors, alignment);
      AlignUpIsNext(|out|, alignment);
      EmitZeros(AlignUp(|out|, alignment) - |out|);
      EmitData();
    }
  }

  lemma {:induction false} NoTensors(ts: seq<Tensor>, a: nat)
    requires a > 0
    ensures OffsetAt(ts, a, 0) == 0
  {
  }

  lemma {:induction false} NextOffset(ts: seq<Tensor>, a: nat, i: nat)
    requires a > 0 && i < |ts|
    ensures OffsetAt(ts, a, i + 1) == AlignUp(OffsetAt(ts, a, i) + |ts[i].data|, a)
  {
  }

  lemma {:induction false} PrefixAlignment(calls: seq<Call>, c: Call, n: nat)
    requires n <= |calls|
    ensures WriterAlignment(calls + [c], n) == WriterAlignment(calls, n)
  {
    if n > 0 {
      PrefixAlignment(calls, c, n - 1);
    }
  }

  /** The calls that move the writer's alignment: a 32-bit, 64-bit or raw integer under general.alignment with a positive value; it starts at 32. */
  lemma {:induction false} AlignmentMoves(calls: seq<Call>, n: nat)
    requires n < |calls|
    ensures WriterAlignment(calls, 0) == 32
    ensures var c := calls[n];
            WriterAlignment(calls, n + 1)
            == if (c.U32? || c.U64? || c.IntRaw?) && c.bits > 0
                  && c.key == [103, 101, 110, 101, 114, 97, 108, 46, 97, 108, 105, 103, 110, 109, 101, 110, 116]
               then c.bits else WriterAlignment(calls, n)
  {
  }
}
