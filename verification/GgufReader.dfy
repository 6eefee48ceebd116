/** The bounds-checked cursor and gguf_open; None is a FATAL refusal. */
module GgufReader {
  import opened Common
  import opened GgufFormat

  class Cursor {
    const base: Bytes
    var pos: nat

    constructor (base: Bytes)
      ensures this.base == base && pos == 0
    {
      this.base, pos := base, 0;
    }

    method Num(w: nat) returns (r: Option<nat>)
      modifies this
      ensures r == ReadNum(base, old(pos), w)
      ensures r.Some? ==> pos == old(pos) + w
    {
      if pos + w > |base| {
        return None;
      }
      r := Some(UnLE(base[pos..pos + w]));
      pos := pos + w;
    }

    method Text() returns (r: Option<Bytes>)
      modifies this
      ensures r == ReadText(base, old(pos))
      ensures r.Some? ==> pos == old(pos) + 8 + |r.value|
    {
      var n := Num(8);
      if n.None? || pos + n.value > |base| {
        return None;
      }
      r := Some(base[pos..pos + n.value]);
      pos := pos + n.value;
    }

    method Array() returns (r: Option<Value>)
      modifies this
      ensures r.Some? ==> ReadArray(base, old(pos)) == Some((r.value, pos))
      ensures r.None? ==> ReadArray(base, old(pos)).None?
    {
      hide ReadNum, ReadText, ElementsAt;
      var t := Num(4);
      if t.None? { return None; }
      var n := Num(8);
      if n.None? { return None; }
      if t.value == STRING {
        ghost var first := pos;
        var items: seq<Bytes> := [];
        for j := 0 to n.value
          invariant ReadTexts(base, first, j) == Some((items, pos))
        {
          var s := Text();
          if s.None? {
            TextsFail(base, first, j + 1, n.value);
            return None;
          }
          items := items + [s.value];
        }
        return Some(Texts(items));
      }
      var w := Width(t.value);
      if w == 0 || pos + n.value * w > |base| { return None; }
      r := Some(Elements(t.value, ElementsAt(base, pos, w, n.value)));
      pos := pos + n.value * w;
    }

    method ValueNext() returns (r: Option<Value>)
      modifies this
      ensures r.Some? ==> ReadValue(base, old(pos)) == Some((r.value, pos))
      ensures r.None? ==> ReadValue(base, old(pos)).None?
    {
      hide ReadNum, ReadText, ReadArray, SignExtended;
      var tag := Num(4);
      if tag.None? { return None; }
      if tag.value == ARRAY {
        r := Array();
      } else if tag.value == STRING {
        var s := Text();
        if s.None? { return None; }
        r := Some(Value.Text(s.value));
      } else if Width(tag.value) == 0 {
        r := None;
      } else {
        var z := Num(Width(tag.value));
        if z.None? { return None; }
        r := Some(Scalar(tag.value, SignExtended(tag.value, z.value)));
      }
    }

    method Pair() returns (r: Option<KV>)
      modifies this
      ensures r.Some? ==> ReadKV(base, old(pos)) == Some((r.value, pos))
      ensures r.None? ==> ReadKV(base, old(pos)).None?
    {
      hide ReadText, ReadValue, CString;
      var key := Text();
      if key.None? { return None; }
      var v := ValueNext();
      if v.None? { return None; }
      r := Some(KV(CString(key.value), v.value));
    }

    method Info() returns (r: Option<TensorInfo>)
      modifies this
      ensures r.Some? ==> ReadInfo(base, old(pos)) == Some((r.value, pos))
      ensures r.None? ==> ReadInfo(base, old(pos)).None?
    {
      hide ReadNum, ReadText, CString, ByteSize;
      var name := Text();
      if name.None? { return None; }
      var dims := Num(4);
      if dims.None? || dims.value == 0 || dims.value > 4 { return None; }
      var ne: seq<nat> := [];
      ghost var first := pos;
      for d := 0 to dims.value
        invariant ReadDims(base, first, d) == Some(ne) && pos == first + 8 * d && |ne| == d
      {
        var x := Num(8);
        if x.None? {
          DimsFail(base, first, d + 1, dims.value);
          return None;
        }
        ne := ne + [x.value];
      }
      var t := Num(4);
      if t.None? { return None; }
      var rel := Num(8);
      if rel.None? { return None; }
      var size := ByteSize(t.value, ne);
      if size.None? { return None; }
      r := Some(TensorInfo(CString(name.value), ne, t.value, size.value, rel.value));
    }
  }

  lemma {:induction false} TextsFail(b: Bytes, pos: nat, i: nat, n: nat)
    requires i <= n && ReadTexts(b, pos, i).None?
    ensures ReadTexts(b, pos, n).None?
    decreases n
  {
    if i < n {
      TextsFail(b, pos, i, n - 1);
    }
  }

  lemma {:induction false} DimsFail(b: Bytes, pos: nat, i: nat, n: nat)
    requires i <= n && ReadDims(b, pos, i).None?
    ensures ReadDims(b, pos, n).None?
    decreases n
  {
    if i < n {
      DimsFail(b, pos, i, n - 1);
    }
  }

  lemma {:induction false} KVsFail(b: Bytes, pos: nat, i: nat, n: nat)
    requires i <= n && ReadKVs(b, pos, i).None?
    ensures ReadKVs(b, pos, n).None?
    decreases n
  {
    hide ReadKV;
    if i < n {
      KVsFail(b, pos, i, n - 1);
    }
  }

  lemma {:induction false} InfosFail(b: Bytes, pos: nat, i: nat, n: nat)
    requires i <= n && ReadInfos(b, pos, i).None?
    ensures ReadInfos(b, pos, n).None?
    decreases n
  {
    hide ReadInfo;
    if i < n {
      InfosFail(b, pos, i, n - 1);
    }
  }

  lemma {:induction false} PlaceFail(start: nat, ts: seq<TensorInfo>, i: nat, n: nat, size: nat)
    requires i <= n <= |ts| && PlaceAll(start, ts, i, size).None?
    ensures PlaceAll(start, ts, n, size).None?
    decreases n
  {
    if i < n {
      PlaceFail(start, ts, i, n - 1, size);
    }
  }

  /** The last honoured general.alignment wins. */
  method AlignmentOf(kvs: seq<KV>) returns (a: nat)
    ensures a == ReaderAlignment(kvs, |kvs|)
  {
    a := 32;
    for i := 0 to |kvs|
      invariant a == ReaderAlignment(kvs, i)
    {
      if Honoured(kvs[i]) {
        a := kvs[i].value.bits;
      }
    }
  }

  method PlaceTensors(b: Bytes, version: nat, kvs: seq<KV>, ts: seq<TensorInfo>, pos: nat) returns (r: Option<File>)
    ensures r == OpenData(b, version, kvs, ts, pos)
  {
    var a := AlignmentOf(kvs);
    if a == 0 { return None; }
    var start := AlignUp(pos, a) % TWO_64;
    var placed: seq<TensorInfo> := [];
    for i := 0 to |ts|
      invariant PlaceAll(start, ts, i, |b|) == Some(placed)
    {
      var at := (start + ts[i].offset) % TWO_64;
      if at + ts[i].bytes >= TWO_64 || at + ts[i].bytes > |b| {
        PlaceFail(start, ts, i + 1, |ts|, |b|);
        return None;
      }
      placed := placed + [ts[i].(offset := at)];
    }
    r := Some(File(version, a, kvs, placed));
  }

  method OpenFile(b: Bytes) returns (r: Option<File>)
    ensures r == Open(b)
  {
    hide ReadNum, ReadKV, ReadInfo, OpenData;
    if |b| < 4 || b[..4] != MAGIC { return None; }
    var c := new Cursor(b);
    c.pos := 4;
    var version := c.Num(4);
    if version.None? || (version.value != 2 && version.value != 3) { return None; }
    var nt := c.Num(8);
    if nt.None? { return None; }
    var nkv := c.Num(8);
    if nkv.None? { return None; }
    var kvs: seq<KV> := [];
    for i := 0 to nkv.value
      invariant ReadKVs(b, 24, i) == Some((kvs, c.pos)) && fresh(c) && c.base == b
    {
      var kv := c.Pair();
      if kv.None? {
        KVsFail(b, 24, i + 1, nkv.value);
        return None;
      }
      kvs := kvs + [kv.value];
    }
    ghost var mid := c.pos;
    var ts: seq<TensorInfo> := [];
    for i := 0 to nt.value
      invariant ReadInfos(b, mid, i) == Some((ts, c.pos)) && fresh(c) && c.base == b
    {
      var t := c.Info();
      if t.None? {
        InfosFail(b, mid, i + 1, nt.value);
        return None;
      }
      ts := ts + [t.value];
    }
    r := PlaceTensors(b, version.value, kvs, ts, c.pos);
  }
}
