/**
 The GGUF container as bytes: little-endian numbers, length-prefixed strings, key-value pairs,
 tensor descriptions and the aligned data section; and what a reader makes of any bytes.
 A floating-point value is its bit pattern.
 */
module GgufFormat {
  import opened Common

  const TWO_32 := 0x1_0000_0000
  const TWO_63 := 0x8000_0000_0000_0000
  const TWO_64 := 0x1_0000_0000_0000_0000

  // value type tags
  const UINT8 := 0
  const INT8 := 1
  const UINT16 := 2
  const INT16 := 3
  const UINT32 := 4
  const INT32 := 5
  const FLOAT32 := 6
  const BOOL := 7
  const STRING := 8
  const ARRAY := 9
  const UINT64 := 10
  const INT64 := 11
  const FLOAT64 := 12

  const ALIGNMENT_KEY: Bytes := [103, 101, 110, 101, 114, 97, 108, 46, 97, 108, 105, 103, 110, 109, 101, 110, 116]
  const MAGIC: Bytes := [71, 71, 85, 70]

  /** Bytes of a fixed-width value, 0 for a string, an array or an unknown tag. */
  function Width(t: nat): nat {
    if t == UINT8 || t == INT8 || t == BOOL then 1
    else if t == UINT16 || t == INT16 then 2
    else if t == UINT32 || t == INT32 || t == FLOAT32 then 4
    else if t == UINT64 || t == INT64 || t == FLOAT64 then 8
    else 0
  }

  predicate IntegerTag(t: nat) {
    Width(t) > 0 && t != FLOAT32 && t != FLOAT64
  }

  /** Block and block byte size of the known tensor types. */
  function TypeInfo(t: nat): Option<(nat, nat)> {
    match t
    case 0 => Some((1, 4))
    case 1 => Some((1, 2))
    case 2 => Some((32, 18))
    case 3 => Some((32, 20))
    case 6 => Some((32, 22))
    case 7 => Some((32, 24))
    case 8 => Some((32, 34))
    case 9 => Some((32, 40))
    case 10 => Some((256, 84))
    case 11 => Some((256, 110))
    case 12 => Some((256, 144))
    case 13 => Some((256, 176))
    case 14 => Some((256, 210))
    case 15 => Some((256, 292))
    case 30 => Some((1, 2))
    case 39 => Some((32, 17))
    case _ => None
  }

  /** `bits` is the 64-bit scalar union: zero-extended, or sign-extended as two's complement. */
  datatype Value =
    | Scalar(t: nat, bits: nat)
    | Text(s: Bytes)
    | Texts(items: seq<Bytes>)
    | Elements(t: nat, elems: seq<nat>)

  datatype KV = KV(key: Bytes, value: Value)

  datatype Tensor = Tensor(name: Bytes, t: nat, ne: seq<nat>, data: Bytes)

  // ---- numbers ----

  function Pow256(w: nat): (p: nat)
    ensures p > 0
  {
    if w == 0 then 1 else 256 * Pow256(w - 1)
  }

  function LE(x: nat, w: nat): (b: Bytes)
    ensures |b| == w
  {
    if w == 0 then [] else [x % 256] + LE(x / 256, w - 1)
  }

  function UnLE(b: Bytes): nat {
    if b == [] then 0 else b[0] + 256 * UnLE(b[1..])
  }

  lemma {:induction false} UnLEOfLE(x: nat, w: nat)
    ensures UnLE(LE(x, w)) == x % Pow256(w)
  {
    if w == 0 {
    } else {
      UnLEOfLE(x / 256, w - 1);
      assert LE(x, w)[1..] == LE(x / 256, w - 1);
      LowByteFirst(x, Pow256(w - 1));
    }
  }

  lemma {:induction false} LowByteFirst(x: nat, p: nat)
    requires p > 0
    ensures x % (256 * p) == 256 * (x / 256 % p) + x % 256
  {
    var h := x / 256;
    var q, r := h / p, h % p;
    Recompose(h, p);
    Times256(q, p);
    DivMod(x, 256 * p, q, 256 * r + x % 256);
  }

  lemma {:induction false} Recompose(h: nat, p: nat)
    requires p > 0
    ensures h == h / p * p + h % p
  {
  }

  lemma {:induction false} Times256(q: nat, p: nat)
    ensures q * (256 * p) == 256 * (q * p)
  {
  }

  lemma {:induction false} Widths()
    ensures Pow256(1) == 256 && Pow256(2) == 0x1_0000 && Pow256(4) == TWO_32 && Pow256(8) == TWO_64
  {
    assert Pow256(3) == 0x100_0000;
    assert Pow256(6) == 0x1_0000_0000_0000;
  }

  function ZeroExtended(t: nat, bits: nat): nat {
    if Width(t) == 1 then bits % 256 else if Width(t) == 2 then bits % 0x1_0000
    else if Width(t) == 4 then bits % TWO_32 else bits % TWO_64
  }

  /** What the scalar union holds after the value is written at its width and read back. */
  function Canonical(t: nat, bits: nat): nat {
    if t == BOOL then if bits % TWO_32 != 0 then 1 else 0
    else
      var z := ZeroExtended(t, bits);
      if t == INT8 && z >= 0x80 then z + TWO_64 - 0x100
      else if t == INT16 && z >= 0x8000 then z + TWO_64 - 0x1_0000
      else if t == INT32 && z >= 0x8000_0000 then z + TWO_64 - TWO_32
      else z
  }

  /** The bytes w_scalar_value emits: the low bytes of the union, or the truth of its low word. */
  function Narrowed(t: nat, bits: nat): nat {
    if t == BOOL then if bits % TWO_32 != 0 then 1 else 0 else bits
  }

  function SignExtended(t: nat, z: nat): nat {
    if t == BOOL then if z != 0 then 1 else 0
    else if t == INT8 && z >= 0x80 then z + TWO_64 - 0x100
    else if t == INT16 && z >= 0x8000 then z + TWO_64 - 0x1_0000
    else if t == INT32 && z >= 0x8000_0000 then z + TWO_64 - TWO_32
    else z
  }

  // ---- encoding ----

  function EncText(s: Bytes): Bytes {
    LE(|s|, 8) + s
  }

  function EncTexts(items: seq<Bytes>, n: nat): Bytes
    requires n <= |items|
  {
    if n == 0 then [] else EncTexts(items, n - 1) + EncText(items[n - 1])
  }

  function EncElems(elems: seq<nat>, n: nat): Bytes
    requires n <= |elems|
  {
    if n == 0 then [] else EncElems(elems, n - 1) + LE(elems[n - 1], 4)
  }

  function EncValue(v: Value): Bytes {
    match v
    case Scalar(t, bits) => LE(t, 4) + LE(Narrowed(t, bits), Width(t))
    case Text(s) => LE(STRING, 4) + EncText(s)
    case Texts(items) => LE(ARRAY, 4) + (LE(STRING, 4) + (LE(|items|, 8) + EncTexts(items, |items|)))
    case Elements(t, elems) => LE(ARRAY, 4) + (LE(t, 4) + (LE(|elems|, 8) + EncElems(elems, |elems|)))
  }

  function EncKV(kv: KV): Bytes {
    EncText(kv.key) + EncValue(kv.value)
  }

  function EncKVs(kvs: seq<KV>, n: nat): Bytes
    requires n <= |kvs|
  {
    if n == 0 then [] else EncKVs(kvs, n - 1) + EncKV(kvs[n - 1])
  }

  function EncDims(ne: seq<nat>, n: nat): Bytes
    requires n <= |ne|
  {
    if n == 0 then [] else EncDims(ne, n - 1) + LE(ne[n - 1], 8)
  }

  function EncInfo(t: Tensor, offset: nat): Bytes {
    EncText(t.name) + (LE(|t.ne|, 4) + (EncDims(t.ne, |t.ne|) + (LE(t.t, 4) + LE(offset, 8))))
  }

  function AlignUp(x: nat, a: nat): (r: nat)
    requires a > 0
  {
    if x % a == 0 then x else x + (a - x % a)
  }

  lemma {:induction false} AlignUpIsNext(x: nat, a: nat)
    requires a > 0
    ensures x <= AlignUp(x, a) < x + a && AlignUp(x, a) % a == 0
  {
    if x % a != 0 {
      var q := x / a;
      assert x == q * a + x % a;
      assert AlignUp(x, a) == (q + 1) * a;
      DivMod((q + 1) * a, a, q + 1, 0);
    }
  }

  /** Where tensor i starts, relative to the data section. */
  function OffsetAt(ts: seq<Tensor>, a: nat, i: nat): nat
    requires i <= |ts| && a > 0
  {
    if i == 0 then 0 else AlignUp(OffsetAt(ts, a, i - 1) + |ts[i - 1].data|, a)
  }

  function EncInfos(ts: seq<Tensor>, a: nat, n: nat): Bytes
    requires n <= |ts| && a > 0
  {
    if n == 0 then [] else EncInfos(ts, a, n - 1) + EncInfo(ts[n - 1], OffsetAt(ts, a, n - 1))
  }

  function Zeros(n: nat): (z: Bytes)
    ensures |z| == n
  {
    seq(n, _ => 0)
  }

  function EncData(ts: seq<Tensor>, a: nat, n: nat): (b: Bytes)
    requires n <= |ts| && a > 0
  {
    if n == 0 then []
    else
      var end := OffsetAt(ts, a, n - 1) + |ts[n - 1].data|;
      AlignUpIsNext(end, a);
      EncData(ts, a, n - 1) + ts[n - 1].data + Zeros(AlignUp(end, a) - end)
  }

  function Header(nt: nat, nkv: nat): Bytes {
    MAGIC + (LE(3, 4) + (LE(nt, 8) + LE(nkv, 8)))
  }

  function Front(kvs: seq<KV>, ts: seq<Tensor>, a: nat): Bytes
    requires a > 0
  {
    Header(|ts|, |kvs|) + (EncKVs(kvs, |kvs|) + EncInfos(ts, a, |ts|))
  }

  /** The whole file. */
  function FileBytes(kvs: seq<KV>, ts: seq<Tensor>, a: nat): Bytes
    requires a > 0
  {
    var front := Front(kvs, ts, a);
    AlignUpIsNext(|front|, a);
    front + Zeros(AlignUp(|front|, a) - |front|) + EncData(ts, a, |ts|)
  }

  // ---- decoding any bytes ----

  function ReadNum(b: Bytes, pos: nat, w: nat): Option<nat> {
    if pos + w > |b| then None else Some(UnLE(b[pos..pos + w]))
  }

  function ReadText(b: Bytes, pos: nat): Option<Bytes> {
    match ReadNum(b, pos, 8)
    case None => None
    case Some(n) => if pos + 8 + n > |b| then None else Some(b[pos + 8..pos + 8 + n])
  }

  /** The first n strings from pos, and the position after them. */
  function ReadTexts(b: Bytes, pos: nat, n: nat): Option<(seq<Bytes>, nat)> {
    if n == 0 then Some(([], pos))
    else
      match ReadTexts(b, pos, n - 1)
      case None => None
      case Some((items, p)) =>
        match ReadText(b, p)
        case None => None
        case Some(s) => Some((items + [s], p + 8 + |s|))
  }

  /** Element j of a packed array is a view into the bytes. */
  function ElementsAt(b: Bytes, pos: nat, w: nat, n: nat): seq<nat>
    requires pos + n * w <= |b|
  {
    seq(n, j requires 0 <= j < n => assert (j + 1) * w <= n * w; assert j * w >= 0; UnLE(b[pos + j * w..pos + (j + 1) * w]))
  }

  function ReadValue(b: Bytes, pos: nat): Option<(Value, nat)> {
    match ReadNum(b, pos, 4)
    case None => None
    case Some(tag) =>
      if tag == ARRAY then ReadArray(b, pos + 4)
      else if tag == STRING then
        match ReadText(b, pos + 4)
        case None => None
        case Some(s) => Some((Text(s), pos + 12 + |s|))
      else if Width(tag) == 0 then None
      else
        match ReadNum(b, pos + 4, Width(tag))
        case None => None
        case Some(z) => Some((Scalar(tag, SignExtended(tag, z)), pos + 4 + Width(tag)))
  }

  function ReadArray(b: Bytes, pos: nat): Option<(Value, nat)> {
    match ReadNum(b, pos, 4)
    case None => None
    case Some(t) =>
      match ReadNum(b, pos + 4, 8)
      case None => None
      case Some(n) =>
        if t == STRING then
          match ReadTexts(b, pos + 12, n)
          case None => None
          case Some((items, p)) => Some((Texts(items), p))
        else if Width(t) == 0 || pos + 12 + n * Width(t) > |b| then None
        else Some((Elements(t, ElementsAt(b, pos + 12, Width(t), n)), pos + 12 + n * Width(t)))
  }

  /** A key is used as a C string: it ends at its first NUL. */
  function CString(s: Bytes): Bytes {
    if s == [] || s[0] == 0 then [] else [s[0]] + CString(s[1..])
  }

  function ReadKV(b: Bytes, pos: nat): Option<(KV, nat)> {
    match ReadText(b, pos)
    case None => None
    case Some(key) =>
      match ReadValue(b, pos + 8 + |key|)
      case None => None
      case Some((v, p)) => Some((KV(CString(key), v), p))
  }

  function ReadKVs(b: Bytes, pos: nat, n: nat): Option<(seq<KV>, nat)> {
    if n == 0 then Some(([], pos))
    else
      match ReadKVs(b, pos, n - 1)
      case None => None
      case Some((kvs, p)) =>
        match ReadKV(b, p)
        case None => None
        case Some((kv, q)) => Some((kvs + [kv], q))
  }

  datatype TensorInfo = TensorInfo(name: Bytes, ne: seq<nat>, t: nat, bytes: nat, offset: nat)

  function ReadDims(b: Bytes, pos: nat, n: nat): Option<seq<nat>> {
    if n == 0 then Some([])
    else
      match ReadDims(b, pos, n - 1)
      case None => None
      case Some(ne) =>
        match ReadNum(b, pos + 8 * (n - 1), 8)
        case None => None
        case Some(d) => Some(ne + [d])
  }

  /** The element count, computed in 64 bits. */
  function Count(ne: seq<nat>, n: nat): nat
    requires n <= |ne|
  {
    if n == 0 then 1 else Count(ne, n - 1) * ne[n - 1] % TWO_64
  }

  /** The byte size a tensor of this type and shape must have; None if the reader refuses it. */
  function ByteSize(t: nat, ne: seq<nat>): Option<nat> {
    match TypeInfo(t)
    case None => None
    case Some((block, size)) =>
      var n := Count(ne, |ne|);
      if n % block != 0 then None else Some(n / block * size % TWO_64)
  }

  function ReadInfo(b: Bytes, pos: nat): Option<(TensorInfo, nat)> {
    match ReadText(b, pos)
    case None => None
    case Some(name) => ReadShape(b, pos + 8 + |name|, name)
  }

  function ReadShape(b: Bytes, pos: nat, name: Bytes): Option<(TensorInfo, nat)> {
    match ReadNum(b, pos, 4)
    case None => None
    case Some(dims) =>
      if dims == 0 || dims > 4 then None
      else
        match ReadDims(b, pos + 4, dims)
        case None => None
        case Some(ne) =>
          var p := pos + 4 + 8 * dims;
          match ReadNum(b, p, 4)
          case None => None
          case Some(t) =>
            match ReadNum(b, p + 4, 8)
            case None => None
            case Some(rel) =>
              match ByteSize(t, ne)
              case None => None
              case Some(size) => Some((TensorInfo(CString(name), ne, t, size, rel), p + 12))
  }

  function ReadInfos(b: Bytes, pos: nat, n: nat): Option<(seq<TensorInfo>, nat)> {
    if n == 0 then Some(([], pos))
    else
      match ReadInfos(b, pos, n - 1)
      case None => None
      case Some((ts, p)) =>
        match ReadInfo(b, p)
        case None => None
        case Some((t, q)) => Some((ts + [t], q))
  }

  /** A general.alignment value of a type the reader honours. */
  predicate Honoured(kv: KV) {
    kv.key == ALIGNMENT_KEY && kv.value.Scalar? && (kv.value.t == UINT32 || kv.value.t == UINT64 || kv.value.t == INT32)
  }

  function ReaderAlignment(kvs: seq<KV>, n: nat): nat
    requires n <= |kvs|
  {
    if n == 0 then 32
    else if Honoured(kvs[n - 1]) then kvs[n - 1].value.bits
    else ReaderAlignment(kvs, n - 1)
  }

  /** The extent of a tensor from the start of the data section, in 64 bits; None if it leaves the file. */
  function Placed(start: nat, t: TensorInfo, size: nat): Option<TensorInfo> {
    var at := (start + t.offset) % TWO_64;
    if at + t.bytes >= TWO_64 || at + t.bytes > size then None else Some(t.(offset := at))
  }

  function PlaceAll(start: nat, ts: seq<TensorInfo>, n: nat, size: nat): Option<seq<TensorInfo>>
    requires n <= |ts|
  {
    if n == 0 then Some([])
    else
      match PlaceAll(start, ts, n - 1, size)
      case None => None
      case Some(done) =>
        match Placed(start, ts[n - 1], size)
        case None => None
        case Some(t) => Some(done + [t])
  }

  datatype File = File(version: nat, alignment: nat, kvs: seq<KV>, tensors: seq<TensorInfo>)

  function Open(b: Bytes): Option<File> {
    if |b| < 4 || b[..4] != MAGIC then None
    else
      match ReadNum(b, 4, 4)
      case None => None
      case Some(version) => if version != 2 && version != 3 then None else OpenTables(b, version)
  }

  function OpenTables(b: Bytes, version: nat): Option<File> {
    match ReadNum(b, 8, 8)
    case None => None
    case Some(nt) =>
      match ReadNum(b, 16, 8)
      case None => None
      case Some(nkv) =>
        match ReadKVs(b, 24, nkv)
        case None => None
        case Some((kvs, p)) =>
          match ReadInfos(b, p, nt)
          case None => None
          case Some((ts, q)) => OpenData(b, version, kvs, ts, q)
  }

  function OpenData(b: Bytes, version: nat, kvs: seq<KV>, ts: seq<TensorInfo>, pos: nat): Option<File> {
    var a := ReaderAlignment(kvs, |kvs|);
    if a == 0 then None
    else
      match PlaceAll(AlignUp(pos, a) % TWO_64, ts, |ts|, |b|)
      case None => None
      case Some(placed) => Some(File(version, a, kvs, placed))
  }
}
