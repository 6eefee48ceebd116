/**
 The two character codings of the tokenizer: UTF-8 as it decodes it (section 3 of RFC 3629,
 without any validity check), and the table that writes every byte as one printable character.
 */
module ByteText {
  import opened Common

  const REPLACEMENT: nat := 0xFFFD

  /** Length by the top four bits of the first byte. */
  function LeadLength(b: Byte): (n: nat)
    ensures 1 <= n <= 4
  {
    if b < 0xC0 then 1 else if b < 0xE0 then 2 else if b < 0xF0 then 3 else 4
  }

  /** Bytes one decoding step consumes at p: one for a truncated character. */
  function StepLength(s: Bytes, p: nat): (n: nat)
    requires p < |s|
    ensures 1 <= n <= |s| - p
  {
    if p + LeadLength(s[p]) > |s| then 1 else LeadLength(s[p])
  }

  /** The code point one decoding step yields at p. */
  function CodePoint(s: Bytes, p: nat): (c: nat)
    requires p < |s|
    ensures c <= 0x1F_FFFF
  {
    var len := LeadLength(s[p]);
    if p + len > |s| then REPLACEMENT
    else
      var b0: int := s[p];
      if len == 1 then b0
      else
        var b1: int := s[p + 1];
        if len == 2 then b0 % 32 * 64 + b1 % 64
        else
          var b2: int := s[p + 2];
          if len == 3 then b0 % 16 * 4096 + b1 % 64 * 64 + b2 % 64
          else
            var b3: int := s[p + 3];
            b0 % 8 * 262144 + b1 % 64 * 4096 + b2 % 64 * 64 + b3 % 64
  }

  // ---- the byte <-> character table ----

  /** BYTE_TO_UNICODE: printable bytes stand for themselves, the others for U+0100 and up. */
  function ByteToCpt(b: Byte): (c: nat)
    ensures 0x21 <= c <= 0x143
  {
    if 0x21 <= b <= 0x7E || 0xA1 <= b <= 0xAC || 0xAE <= b then b
    else if b <= 0x20 then 0x100 + b
    else if b <= 0xA0 then 0x121 + (b - 0x7F)
    else 0x143
  }

  /** UNICODE_TO_BYTE: the byte a code point stands for, if any. */
  function CptToByte(c: nat): Option<Byte> {
    if 0x21 <= c <= 0x7E || 0xA1 <= c <= 0xAC || 0xAE <= c <= 0xFF then Some(c)
    else if 0x100 <= c <= 0x120 then Some(c - 0x100)
    else if 0x121 <= c <= 0x142 then Some(c - 0x121 + 0x7F)
    else if c == 0x143 then Some(0xAD)
    else None
  }

  /** The two tables are inverse to each other. */
  lemma {:induction false} TablesAreInverse(b: Byte, c: nat)
    ensures CptToByte(ByteToCpt(b)) == Some(b)
    ensures CptToByte(c).Some? ==> ByteToCpt(CptToByte(c).value) == c
  {
  }

  /** The UTF-8 form of the character a byte stands for. */
  function MapByte(b: Byte): (m: Bytes)
    ensures 1 <= |m| <= 2
  {
    var c := ByteToCpt(b);
    if c < 0x80 then [c] else [0xC0 + c / 64, 0x80 + c % 64]
  }

  function MapBytes(bs: Bytes): Bytes {
    if bs == [] then [] else MapByte(bs[0]) + MapBytes(bs[1..])
  }

  lemma {:induction false} MapAppend(a: Bytes, b: Bytes)
    ensures MapBytes(a + b) == MapBytes(a) + MapBytes(b)
  {
    hide ByteToCpt;
    if a == [] {
      assert a + b == b;
    } else {
      MapAppend(a[1..], b);
      assert (a + b)[1..] == a[1..] + b && (a + b)[0] == a[0];
    }
  }

  lemma {:induction false} MapOne(b: Byte)
    ensures MapBytes([b]) == MapByte(b)
  {
    hide MapByte;
    assert [b][1..] == [] && MapBytes([]) == [];
    assert MapByte(b) + [] == MapByte(b);
  }

  /** The text of a token from byte p on: a mapped character becomes its byte, anything else is copied. */
  function DecodeToken(tok: Bytes, p: nat): Bytes
    requires p <= |tok|
    decreases |tok| - p
  {
    if p == |tok| then []
    else
      var n, b := StepLength(tok, p), CptToByte(CodePoint(tok, p));
      (if b.Some? then [b.value] else tok[p..p + n]) + DecodeToken(tok, p + n)
  }

  lemma {:induction false} MappedByteDecodes(b: Byte, rest: Bytes, s: Bytes, p: nat)
    requires p <= |s| && s[p..] == MapByte(b) + rest
    ensures p + |MapByte(b)| <= |s|
    ensures StepLength(s, p) == |MapByte(b)| && CodePoint(s, p) == ByteToCpt(b)
  {
    var m := MapByte(b);
    assert s[p] == s[p..][0] == m[0];
    if |m| == 2 {
      assert s[p + 1] == s[p..][1] == m[1];
    }
  }

  /** Decoding undoes the byte mapping. */
  lemma {:induction false} DecodeUndoesMap(bs: Bytes, s: Bytes, p: nat)
    requires p <= |s| && s[p..] == MapBytes(bs)
    ensures DecodeToken(s, p) == bs
    decreases |bs|
  {
    hide ByteToCpt, CptToByte, CodePoint, StepLength, MapByte;
    if bs != [] {
      var m := MapByte(bs[0]);
      MappedByteDecodes(bs[0], MapBytes(bs[1..]), s, p);
      assert s[p + |m|..] == s[p..][|m|..] == MapBytes(bs[1..]);
      DecodeUndoesMap(bs[1..], s, p + |m|);
      TablesAreInverse(bs[0], 0);
      assert bs == [bs[0]] + bs[1..];
    }
  }

  // ---- which token texts decode to themselves ----

  /** Every character of tok from p on that the table maps to a byte is one byte long. */
  predicate PlainFrom(tok: Bytes, p: nat)
    requires p <= |tok|
    decreases |tok| - p
  {
    p == |tok| ||
    ((CptToByte(CodePoint(tok, p)).Some? ==> StepLength(tok, p) == 1) && PlainFrom(tok, p + StepLength(tok, p)))
  }

  lemma {:induction false} DecodeNeverGrows(tok: Bytes, p: nat)
    requires p <= |tok|
    ensures |DecodeToken(tok, p)| <= |tok| - p
    decreases |tok| - p
  {
    if p < |tok| {
      DecodeNeverGrows(tok, p + StepLength(tok, p));
    }
  }

  /** One character at the front: equal texts have equal fronts and equal rests. */
  lemma {:induction false} FrontAndRest(tok: Bytes, p: nat, n: nat, head: Bytes, rest: Bytes)
    requires p + n <= |tok| && |head| == n
    ensures head + rest == tok[p..] <==> head == tok[p..p + n] && rest == tok[p + n..]
  {
    var whole := head + rest;
    assert whole[..n] == head && whole[n..] == rest;
    assert tok[p..][..n] == tok[p..p + n] && tok[p..][n..] == tok[p + n..];
    assert tok[p..] == tok[p..p + n] + tok[p + n..];
  }

  /** A text decodes to itself exactly when its mapped characters are single bytes. */
  lemma {:induction false} PlainIsExact(tok: Bytes, p: nat)
    requires p <= |tok|
    ensures DecodeToken(tok, p) == tok[p..] <==> PlainFrom(tok, p)
    decreases |tok| - p
  {
    hide CodePoint, CptToByte, StepLength;
    if p < |tok| {
      var n, b := StepLength(tok, p), CptToByte(CodePoint(tok, p));
      PlainIsExact(tok, p + n);
      DecodeNeverGrows(tok, p + n);
      if b.Some? && n > 1 {
        assert |DecodeToken(tok, p)| < |tok[p..]|;
      } else {
        if b.Some? {
          MappedByteIsItself(tok, p);
        }
        FrontAndRest(tok, p, n, tok[p..p + n], DecodeToken(tok, p + n));
      }
    }
  }

  lemma {:induction false} MappedByteIsItself(tok: Bytes, p: nat)
    requires p < |tok| && StepLength(tok, p) == 1 && CptToByte(CodePoint(tok, p)).Some?
    ensures [CptToByte(CodePoint(tok, p)).value] == tok[p..p + 1]
  {
  }

  predicate IsAscii(t: Bytes) {
    forall k :: 0 <= k < |t| ==> t[k] < 0x80
  }

  lemma {:induction false} AsciiIsPlain(t: Bytes, p: nat)
    requires p <= |t| && IsAscii(t)
    ensures PlainFrom(t, p)
    decreases |t| - p
  {
    if p < |t| {
      AsciiIsPlain(t, p + 1);
    }
  }

  /** U+0100, written as two bytes, decodes to the single byte 0. */
  lemma {:induction false} MappedSpecialIsNotPlain()
    ensures !PlainFrom([0xC4, 0x80], 0) && DecodeToken([0xC4, 0x80], 0) == [0]
  {
    var t: Bytes := [0xC4, 0x80];
    assert CodePoint(t, 0) == 0x100 && StepLength(t, 0) == 2;
    assert DecodeToken(t, 2) == [];
  }
}
