/** The container in plain numbers: type tags, byte order, signs, the bytes of small files, and what every opened file has. */
module GgufMeaning {
  import opened Common
  import opened GgufFormat
  import opened GgufRoundTrip
  import opened GgufWriter

  // ---- numbers ----

  /** Byte i of a little-endian number is its digit of weight 256^i. */
  lemma {:induction false} LowestFirst(x: nat, w: nat, i: nat)
    requires i < w
    ensures LE(x, w)[i] == x / Pow256(i) % 256
    decreases w
  {
    if i > 0 {
      LowestFirst(x / 256, w - 1, i - 1);
      DivDiv(x, 256, Pow256(i - 1));
    }
  }

  lemma {:induction false} DivDiv(x: nat, a: nat, b: nat)
    requires a > 0 && b > 0
    ensures a * b > 0 && x / a / b == x / (a * b)
  {
    Positive(a, b);
    var y, r := x / a, x % a;
    var q, s := y / b, y % b;
    Divided(x, a);
    Divided(y, b);
    Compose(x, a, b, q, s, r);
    Below(a, b, s, r);
    DivMod(x, a * b, q, a * s + r);
  }

  lemma {:induction false} Divided(x: nat, a: nat)
    requires a > 0
    ensures x == a * (x / a) + x % a
  {
  }

  lemma {:induction false} Compose(x: nat, a: nat, b: nat, q: nat, s: nat, r: nat)
    requires x == a * (b * q + s) + r
    ensures x == q * (a * b) + (a * s + r)
  {
    Distribute(a, b, q, s);
  }

  lemma {:induction false} Positive(a: nat, b: nat)
    requires a > 0 && b > 0
    ensures a * b > 0
  {
  }

  lemma {:induction false} Distribute(a: nat, b: nat, q: nat, s: nat)
    ensures a * (b * q + s) == (a * b) * q + a * s
    ensures (a * b) * q == q * (a * b)
  {
    assert a * (b * q) == (a * b) * q;
  }

  lemma {:induction false} Below(a: nat, b: nat, s: nat, r: nat)
    requires s < b && r < a
    ensures a * s + r < a * b
  {
    assert a * (s + 1) <= a * b;
  }

  // ---- tags ----

  /** The widths of the thirteen tags of the format, in order. */
  lemma {:induction false} WidthsAre(t: nat)
    ensures Width(t) == if t < 13 then [1, 1, 2, 2, 4, 4, 4, 1, 0, 0, 8, 8, 8][t] else 0
    ensures IntegerTag(t) <==> t in [0, 1, 2, 3, 4, 5, 7, 10, 11]
  {
  }

  /** v as a two's complement number modulo m. */
  function Signed(v: nat, m: nat): int {
    if 2 * v >= m then v - m else v
  }

  /** A stored number keeps its value in the 64-bit union: tags 1, 3 and 5 with their sign, 7 as a truth value, the others as they are. */
  lemma {:induction false} SignKept(t: nat, z: nat)
    requires z < (if Width(t) == 1 then 0x100 else if Width(t) == 2 then 0x1_0000 else if Width(t) == 4 then 0x1_0000_0000 else 0x1_0000_0000_0000_0000)
    ensures SignExtended(t, z) < 0x1_0000_0000_0000_0000
    ensures t == 1 ==> Signed(SignExtended(t, z), 0x1_0000_0000_0000_0000) == Signed(z, 0x100)
    ensures t == 3 ==> Signed(SignExtended(t, z), 0x1_0000_0000_0000_0000) == Signed(z, 0x1_0000)
    ensures t == 5 ==> Signed(SignExtended(t, z), 0x1_0000_0000_0000_0000) == Signed(z, 0x1_0000_0000)
    ensures t == 7 ==> SignExtended(t, z) == if z == 0 then 0 else 1
    ensures t != 1 && t != 3 && t != 5 && t != 7 ==> SignExtended(t, z) == z
  {
  }

  /** Writing at a type's width and reading back reduces modulo its size and then extends; a boolean is the truth of its low word. */
  lemma {:induction false} CanonicalIs(t: nat, bits: nat)
    requires t in [0, 1, 2, 3, 4, 5, 6, 7, 10, 11, 12]
    ensures t == 7 ==> Canonical(t, bits) == if bits % 0x1_0000_0000 == 0 then 0 else 1
    ensures t == 0 || t == 1 ==> Canonical(t, bits) == SignExtended(t, bits % 0x100)
    ensures t == 2 || t == 3 ==> Canonical(t, bits) == SignExtended(t, bits % 0x1_0000)
    ensures t == 4 || t == 5 || t == 6 ==> Canonical(t, bits) == SignExtended(t, bits % 0x1_0000_0000)
    ensures t >= 10 ==> Canonical(t, bits) == bits % 0x1_0000_0000_0000_0000
  {
  }

  lemma {:induction false} SmallTag(t: nat)
    requires t < 256
    ensures LE(t, 4) == [t, 0, 0, 0]
  {
    assert LE(t, 4)[1..] == LE(0, 3);
    assert LE(0, 3) == [0, 0, 0];
  }

  /** The tag each registration call writes before its value. */
  function TagOf(c: Call): nat {
    match c
    case Str(_, _) => 8
    case U32(_, _) => 4
    case U64(_, _) => 10
    case I64(_, _) => 11
    case F32(_, _) => 6
    case F64(_, _) => 12
    case Bool(_, _) => 7
    case IntRaw(_, t, _) => t
    case StrArray(_, _) => 9
    case I32Array(_, _) => 9
    case F32Array(_, _) => 9
  }

  /** Every value begins with its tag; an array then has the tag of its elements, 8, 5 or 6, and its length. */
  lemma {:induction false} ValueBegins(c: Call)
    requires c.IntRaw? ==> c.t < 256
    ensures [TagOf(c), 0, 0, 0] <= EncValue(ValueOf(c))
    ensures c.StrArray? ==> [9, 0, 0, 0, 8, 0, 0, 0] + LE(|c.items|, 8) <= EncValue(ValueOf(c))
    ensures c.I32Array? ==> [9, 0, 0, 0, 5, 0, 0, 0] + LE(|c.elems|, 8) <= EncValue(ValueOf(c))
    ensures c.F32Array? ==> [9, 0, 0, 0, 6, 0, 0, 0] + LE(|c.elems|, 8) <= EncValue(ValueOf(c))
  {
    hide LE, EncTexts, EncElems;
    SmallTag(TagOf(c));
    SmallTag(8);
    SmallTag(5);
    SmallTag(6);
  }

  // ---- alignment ----

  /** "general.alignment" */
  function AlignmentName(): Bytes {
    ['g' as int, 'e' as int, 'n' as int, 'e' as int, 'r' as int, 'a' as int, 'l' as int, '.' as int, 'a' as int, 'l' as int, 'i' as int,
     'g' as int, 'n' as int, 'm' as int, 'e' as int, 'n' as int, 't' as int]
  }

  /** Without a pair under that name of type 4, 10 or 5 the reader takes 32 ... */
  lemma {:induction false} AlignmentByDefault(kvs: seq<KV>, n: nat)
    requires n <= |kvs| && forall i :: 0 <= i < n ==> !Counts(kvs[i])
    ensures ReaderAlignment(kvs, n) == 32
  {
    hide Honoured, Counts;
    if n > 0 {
      HonouredCounts(kvs[n - 1]);
      AlignmentByDefault(kvs, n - 1);
    }
  }

  /** ... and otherwise the last one. */
  lemma {:induction false} LastAlignment(kvs: seq<KV>, n: nat, i: nat)
    requires i < n <= |kvs| && Counts(kvs[i]) && forall j :: i < j < n ==> !Counts(kvs[j])
    ensures kvs[i].value.Scalar? && ReaderAlignment(kvs, n) == kvs[i].value.bits
  {
    hide Honoured, Counts;
    HonouredCounts(kvs[n - 1]);
    if i < n - 1 {
      LastAlignment(kvs, n - 1, i);
    }
  }

  lemma {:induction false} HonouredCounts(kv: KV)
    ensures Honoured(kv) <==> Counts(kv)
    ensures Counts(kv) ==> kv.value.Scalar?
  {
  }

  predicate Counts(kv: KV) {
    kv.key == AlignmentName() && kv.value.Scalar? && kv.value.t in [4, 5, 10]
  }

  /** A key ends at its first zero byte. */
  lemma {:induction false} CStringIs(s: Bytes)
    ensures CString(s) <= s && (forall k :: 0 <= k < |CString(s)| ==> s[k] != 0)
    ensures |CString(s)| < |s| ==> s[|CString(s)|] == 0
    decreases |s|
  {
    if s != [] && s[0] != 0 {
      CStringIs(s[1..]);
    }
  }

  // ---- whole files ----

  /** The magic, version 3, the number of tensors and the number of pairs. */
  lemma {:induction false} HeaderIs(nt: nat, nkv: nat)
    requires nt < 256 && nkv < 256
    ensures Header(nt, nkv) == [71, 71, 85, 70, 3, 0, 0, 0, nt, 0, 0, 0, 0, 0, 0, 0, nkv, 0, 0, 0, 0, 0, 0, 0]
  {
    SmallTag(3);
    SmallCount(nt);
    SmallCount(nkv);
  }

  lemma {:induction false} SmallCount(n: nat)
    requires n < 256
    ensures LE(n, 8) == [n, 0, 0, 0, 0, 0, 0, 0]
  {
    assert LE(n, 8)[1..] == LE(0, 7);
    assert LE(0, 4) == [0, 0, 0, 0];
    assert LE(0, 7) == [0, 0, 0] + LE(0, 4);
  }

  /** The description of a float tensor t of one element at offset 0: name, dimensions, type, offset. */
  lemma {:induction false} OneDescription()
    ensures EncInfo(OneFloat()[0], 0)
         == [1, 0, 0, 0, 0, 0, 0, 0, 116, 1, 0, 0, 0, 1, 0, 0, 0, 0, 0, 0, 0, 0, 0, 0, 0, 0, 0, 0, 0, 0, 0, 0, 0]
  {
    hide LE;
    var t := OneFloat()[0];
    SmallCount(1);
    SmallCount(0);
    SmallTag(1);
    SmallTag(0);
    assert EncDims(t.ne, 0) == [];
    assert EncDims(t.ne, 1) == [] + LE(1, 8);
  }

  lemma {:induction false} OneLengths()
    ensures |Header(1, 0)| == 24 && |EncInfo(OneFloat()[0], 0)| == 33
  {
    hide LE;
    var t := OneFloat()[0];
    assert EncDims(t.ne, 0) == [] && |EncDims(t.ne, 1)| == 8;
    assert |EncText(t.name)| == 9;
  }

  lemma {:induction false} OneInfo(ts: seq<Tensor>, a: nat)
    requires |ts| == 1 && a > 0
    ensures EncInfos(ts, a, 1) == EncInfo(ts[0], 0)
  {
    hide EncInfo;
    assert OffsetAt(ts, a, 0) == 0 && EncInfos(ts, a, 0) == [];
    assert EncInfos(ts, a, 1) == EncInfos(ts, a, 0) + EncInfo(ts[0], 0);
  }

  lemma {:induction false} FrontOfOne(ts: seq<Tensor>, a: nat)
    requires |ts| == 1 && a > 0
    ensures Front([], ts, a) == Header(1, 0) + EncInfo(ts[0], 0)
  {
    OneInfo(ts, a);
    hide EncInfo, EncInfos, Header;
    var none: seq<KV> := [];
    assert EncKVs(none, 0) == [];
    assert [] + EncInfo(ts[0], 0) == EncInfo(ts[0], 0);
  }

  lemma {:induction false} OneFront()
    ensures Front([], OneFloat(), 32) == Header(1, 0) + EncInfo(OneFloat()[0], 0) && |Front([], OneFloat(), 32)| == 57
  {
    hide Header, EncInfo, Front;
    OneLengths();
    FrontOfOne(OneFloat(), 32);
  }

  /** A file of one float tensor: header, description, and its four bytes at the next multiple of 32. */
  lemma {:induction false} OneTensorFile()
    ensures FileBytes([], OneFloat(), 32) == Front([], OneFloat(), 32) + Zeros(7) + ([1, 2, 3, 4] + Zeros(28))
    ensures |FileBytes([], OneFloat(), 32)| == 96 && FileBytes([], OneFloat(), 32)[64..68] == [1, 2, 3, 4]
  {
    var ts := OneFloat();
    OneFront();
    hide Front;
    assert AlignUp(57, 32) == 64 && AlignUp(4, 32) == 32;
    assert EncData(ts, 32, 0) == [] && OffsetAt(ts, 32, 0) == 0;
    assert EncData(ts, 32, 1) == [] + ts[0].data + Zeros(28);
    var data: Bytes := [1, 2, 3, 4];
    assert EncData(ts, 32, 1) == data + Zeros(28);
    var b := FileBytes([], ts, 32);
    assert b[64..] == data + Zeros(28);
    assert b[64..68] == b[64..][..4] == data;
  }

  lemma {:induction false} ZerosAreNothing(n: nat)
    ensures UnLE(Zeros(n)) == 0
  {
    if n > 0 {
      assert Zeros(n)[1..] == Zeros(n - 1);
      ZerosAreNothing(n - 1);
    }
  }

  /** An empty file of version 2 opens as well. */
  lemma {:induction false} VersionTwoOpens()
    ensures Open([71, 71, 85, 70, 2, 0, 0, 0] + Zeros(16)) == Some(File(2, 32, [], []))
  {
    var b: Bytes := [71, 71, 85, 70, 2, 0, 0, 0] + Zeros(16);
    assert b[..4] == [71, 71, 85, 70] && b[4..8] == [2] + Zeros(3) && b[8..16] == Zeros(8) && b[16..24] == Zeros(8);
    ZerosAreNothing(3);
    ZerosAreNothing(8);
    assert ([2] + Zeros(3))[1..] == Zeros(3);
    assert UnLE(b[4..8]) == 2;
    var noKvs: seq<KV> := [];
    var noTs: seq<TensorInfo> := [];
    assert ReadKVs(b, 24, 0) == Some((noKvs, 24)) && ReadInfos(b, 24, 0) == Some((noTs, 24));
    assert ReaderAlignment(noKvs, 0) == 32;
    assert PlaceAll(AlignUp(24, 32) % TWO_64, noTs, 0, |b|) == Some(noTs);
  }

  /** A number pair: the key's length and bytes, the tag, and the low bytes of the value, lowest first. */
  lemma {:induction false} PairIs(key: Bytes, t: nat, bits: nat)
    requires t in [0, 1, 2, 3, 4, 5, 6, 10, 11, 12]
    ensures EncKV(KV(key, Scalar(t, bits))) == LE(|key|, 8) + key + [t, 0, 0, 0] + LE(bits, [1, 1, 2, 2, 4, 4, 4, 1, 0, 0, 8, 8, 8][t])
  {
    SmallTag(t);
    WidthsAre(t);
    hide LE, Width;
    assert Narrowed(t, bits) == bits;
  }

  /** A boolean is one byte, 1 or 0. */
  lemma {:induction false} BoolIs(bits: nat)
    ensures EncValue(Scalar(7, bits)) == [7, 0, 0, 0, if bits % 0x1_0000_0000 == 0 then 0 else 1]
  {
    SmallTag(7);
    assert LE(1, 1) == [1] && LE(0, 1) == [0];
    hide LE;
  }

  /** Whatever opens begins with GGUF and version 2 or 3, and has a positive alignment and tensors of known types with one to four dimensions. */
  lemma {:induction false} OpenedHas(b: Bytes)
    requires Open(b).Some?
    ensures |b| >= 24 && b[..4] == [71, 71, 85, 70] && (b[4..8] == [2, 0, 0, 0] || b[4..8] == [3, 0, 0, 0])
    ensures Open(b).value.alignment > 0 && Open(b).value.version == b[4]
    ensures forall i :: 0 <= i < |Open(b).value.tensors| ==> Described(Open(b).value.tensors[i])
  {
    hide ReadKVs, ReadInfos, PlaceAll, AlignUp, ReaderAlignment, UnLE, Described;
    VersionBytes(b[4..8]);
    var nt, nkv := ReadNum(b, 8, 8).value, ReadNum(b, 16, 8).value;
    var (kvs, p) := ReadKVs(b, 24, nkv).value;
    var (ts, q) := ReadInfos(b, p, nt).value;
    InfosDescribed(b, p, nt);
    PlacedDescribed(AlignUp(q, ReaderAlignment(kvs, |kvs|)) % TWO_64, ts, |ts|, |b|);
  }

  predicate Described(t: TensorInfo) {
    1 <= |t.ne| <= 4 && t.t in [0, 1, 2, 3, 6, 7, 8, 9, 10, 11, 12, 13, 14, 15, 30, 39]
  }

  lemma {:induction false} VersionBytes(v: Bytes)
    requires |v| == 4 && (UnLE(v) == 2 || UnLE(v) == 3)
    ensures v == [UnLE(v), 0, 0, 0]
  {
    var t1 := v[1..];
    var t2 := t1[1..];
    var t3 := t2[1..];
    var t4 := t3[1..];
    assert t4 == [] && UnLE(t4) == 0;
    assert UnLE(t3) == t3[0] as int && UnLE(t2) == t2[0] as int + 256 * UnLE(t3);
    assert UnLE(t1) == t1[0] as int + 256 * UnLE(t2) && UnLE(v) == v[0] as int + 256 * UnLE(t1);
    assert v[1] == t1[0] && v[2] == t2[0] && v[3] == t3[0];
  }

  lemma {:induction false} InfoDescribed(b: Bytes, pos: nat)
    ensures ReadInfo(b, pos).Some? ==> Described(ReadInfo(b, pos).value.0)
  {
    hide ReadText, CString, ReadNum, Count;
    if ReadText(b, pos).Some? && ReadNum(b, pos + 8 + |ReadText(b, pos).value|, 4).Some? {
      var at := pos + 8 + |ReadText(b, pos).value|;
      DimsCount(b, at + 4, ReadNum(b, at, 4).value);
    }
  }

  lemma {:induction false} DimsCount(b: Bytes, pos: nat, n: nat)
    ensures ReadDims(b, pos, n).Some? ==> |ReadDims(b, pos, n).value| == n
  {
    if n > 0 {
      DimsCount(b, pos, n - 1);
    }
  }

  lemma {:induction false} InfosDescribed(b: Bytes, pos: nat, n: nat)
    ensures ReadInfos(b, pos, n).Some? ==>
              forall i :: 0 <= i < |ReadInfos(b, pos, n).value.0| ==> Described(ReadInfos(b, pos, n).value.0[i])
  {
    hide ReadInfo, Described;
    if n > 0 {
      InfosDescribed(b, pos, n - 1);
      if ReadInfos(b, pos, n - 1).Some? {
        InfoDescribed(b, ReadInfos(b, pos, n - 1).value.1);
      }
    }
  }

  lemma {:induction false} PlacedDescribed(start: nat, ts: seq<TensorInfo>, n: nat, size: nat)
    requires n <= |ts| && forall i :: 0 <= i < |ts| ==> Described(ts[i])
    ensures PlaceAll(start, ts, n, size).Some? ==>
              forall i :: 0 <= i < |PlaceAll(start, ts, n, size).value| ==> Described(PlaceAll(start, ts, n, size).value[i])
  {
    if n > 0 {
      PlacedDescribed(start, ts, n - 1, size);
    }
  }
}
