/**
 The character codings against their definitions: UTF-8 as section 3 of RFC 3629 writes it, and the
 byte table as it is built, printable bytes first and the others numbered from U+0100.
 */
module Utf8Text {
  import opened Common
  import opened ByteText
  import opened BpeMerge
  import BpeCodec

  function Utf8(c: nat): (u: Bytes)
    requires c < 0x11_0000
    ensures 1 <= |u| <= 4
  {
    if c < 0x80 then [c]
    else if c < 0x800 then [0xC0 + c / 64, 0x80 + c % 64]
    else if c < 0x1_0000 then [0xE0 + c / 4096, 0x80 + c / 64 % 64, 0x80 + c % 64]
    else [0xF0 + c / 262144, 0x80 + c / 4096 % 64, 0x80 + c / 64 % 64, 0x80 + c % 64]
  }

  predicate Characters(cs: seq<nat>) {
    forall k :: 0 <= k < |cs| ==> cs[k] < 0x11_0000
  }

  function Utf8All(cs: seq<nat>): Bytes
    requires Characters(cs)
  {
    if cs == [] then [] else Utf8(cs[0]) + Utf8All(cs[1..])
  }

  lemma {:induction false} Digits64(c: nat)
    ensures c == c / 64 * 64 + c % 64
    ensures c / 64 == c / 4096 * 64 + c / 64 % 64
    ensures c / 4096 == c / 262144 * 64 + c / 4096 % 64
  {
    assert c / 64 / 64 == c / 4096;
    assert c / 4096 / 64 == c / 262144;
  }

  lemma {:induction false} OneOrTwo(c: nat, s: Bytes, p: nat)
    requires c < 0x800 && p + |Utf8(c)| <= |s| && s[p..p + |Utf8(c)|] == Utf8(c)
    ensures LeadLength(s[p]) == |Utf8(c)| && CodePoint(s, p) == c
  {
    var u := Utf8(c);
    assert s[p] == u[0] && (|u| > 1 ==> s[p + 1] == u[1]);
  }

  lemma {:induction false} Three(c: nat, s: Bytes, p: nat)
    requires 0x800 <= c < 0x1_0000 && p + 3 <= |s| && s[p..p + 3] == Utf8(c)
    ensures LeadLength(s[p]) == 3 && CodePoint(s, p) == c
  {
    var u := Utf8(c);
    var a, b, d := c / 4096, c / 64 % 64, c % 64;
    assert s[p] == u[0] == 0xE0 + a && s[p + 1] == u[1] == 0x80 + b && s[p + 2] == u[2] == 0x80 + d;
    Digits64(c);
    hide Utf8;
    assert CodePoint(s, p) == a * 4096 + b * 64 + d;
  }

  lemma {:induction false} Four(c: nat, s: Bytes, p: nat)
    requires 0x1_0000 <= c < 0x11_0000 && p + 4 <= |s| && s[p..p + 4] == Utf8(c)
    ensures LeadLength(s[p]) == 4 && CodePoint(s, p) == c
  {
    var u := Utf8(c);
    var a, b, d, e := c / 262144, c / 4096 % 64, c / 64 % 64, c % 64;
    assert s[p] == u[0] == 0xF0 + a && s[p + 1] == u[1] == 0x80 + b && s[p + 2] == u[2] == 0x80 + d && s[p + 3] == u[3] == 0x80 + e;
    Digits64(c);
    hide Utf8, CodePoint;
    FourDigits(s, p, a, b, d, e);
  }

  lemma {:induction false} FourDigits(s: Bytes, p: nat, a: nat, b: nat, d: nat, e: nat)
    requires p + 4 <= |s| && a < 8 && b < 64 && d < 64 && e < 64
    requires s[p] == 0xF0 + a && s[p + 1] == 0x80 + b && s[p + 2] == 0x80 + d && s[p + 3] == 0x80 + e
    ensures LeadLength(s[p]) == 4 && CodePoint(s, p) == a * 262144 + b * 4096 + d * 64 + e
  {
    assert (0xF0 + a) % 8 == a;
    assert (0x80 + b) % 64 == b && (0x80 + d) % 64 == d && (0x80 + e) % 64 == e;
  }

  /** The tokenizer reads every well-formed character as itself, and consumes just its bytes. */
  lemma {:induction false} CharacterIsRead(c: nat, s: Bytes, p: nat, rest: Bytes)
    requires c < 0x11_0000 && p <= |s| && s[p..] == Utf8(c) + rest
    ensures p + |Utf8(c)| <= |s| && StepLength(s, p) == |Utf8(c)| && CodePoint(s, p) == c
    ensures s[p + |Utf8(c)|..] == rest
  {
    var u := Utf8(c);
    assert s[p..p + |u|] == s[p..][..|u|] == u;
    assert s[p + |u|..] == s[p..][|u|..];
    hide CodePoint, LeadLength;
    if c < 0x800 {
      OneOrTwo(c, s, p);
    } else if c < 0x1_0000 {
      Three(c, s, p);
    } else {
      Four(c, s, p);
    }
  }

  /** Lengths by the first four bits; a character cut off by the end of the text is U+FFFD, one byte long. */
  lemma {:induction false} ReadAnyway(s: Bytes, p: nat)
    requires p < |s|
    ensures LeadLength(s[p]) == [1, 1, 1, 1, 1, 1, 1, 1, 1, 1, 1, 1, 2, 2, 3, 4][s[p] / 16]
    ensures p + LeadLength(s[p]) > |s| ==> StepLength(s, p) == 1 && CodePoint(s, p) == 65533
    ensures p + LeadLength(s[p]) <= |s| ==> StepLength(s, p) == LeadLength(s[p])
  {
  }

  /** A well-formed text has the code points it was written with. */
  lemma {:induction false} TextIsRead(cs: seq<nat>, s: Bytes, p: nat)
    requires Characters(cs) && p <= |s| && s[p..] == Utf8All(cs)
    ensures BpeCodec.CodePoints(s, p) == cs
    decreases |cs|
  {
    hide Utf8, StepLength, CodePoint;
    if cs != [] {
      CharacterIsRead(cs[0], s, p, Utf8All(cs[1..]));
      TextIsRead(cs[1..], s, p + |Utf8(cs[0])|);
      assert cs == [cs[0]] + cs[1..];
    }
  }

  /** The merge loop cuts a well-formed word into its characters. */
  lemma {:induction false} WordIsCut(cs: seq<nat>)
    requires Characters(cs)
    ensures |SplitChars(Utf8All(cs))| == |cs|
    ensures forall k :: 0 <= k < |cs| ==> SplitChars(Utf8All(cs))[k] == Utf8(cs[k])
    decreases |cs|
  {
    if cs != [] {
      WordIsCut(cs[1..]);
      CutFirst(cs[0], Utf8All(cs[1..]));
      hide Utf8, SplitChars;
      var rest := SplitChars(Utf8All(cs[1..]));
      assert SplitChars(Utf8All(cs)) == [Utf8(cs[0])] + rest;
      forall k | 0 <= k < |cs| ensures ([Utf8(cs[0])] + rest)[k] == Utf8(cs[k]) {
        if k > 0 {
          assert cs[k] == cs[1..][k - 1];
        }
      }
    }
  }

  lemma {:induction false} CutFirst(c: nat, rest: Bytes)
    requires c < 0x11_0000
    ensures SplitChars(Utf8(c) + rest) == [Utf8(c)] + SplitChars(rest)
  {
    var u := Utf8(c);
    assert CharLen(u[0]) == |u|;
    assert (u + rest)[..|u|] == u && (u + rest)[|u|..] == rest;
  }

  // ---- the byte table ----

  /** The bytes that stand for themselves. */
  predicate Printable(b: nat) {
    0x21 <= b <= 0x7E || 0xA1 <= b <= 0xAC || 0xAE <= b <= 0xFF
  }

  function OthersBelow(b: nat): (n: nat)
    ensures n <= b
  {
    if b == 0 then 0 else OthersBelow(b - 1) + (if Printable(b - 1) then 0 else 1)
  }

  lemma {:induction false} OthersCounted(b: nat)
    requires b <= 256
    ensures OthersBelow(b) == if b <= 0x21 then b else if b <= 0x7F then 0x21 else if b <= 0xA1 then b - 0x5E else if b <= 0xAD then 0x43 else 0x44
  {
    if b > 0 {
      OthersCounted(b - 1);
    }
  }

  /** A printable byte stands for itself, any other for U+0100 plus the number of such bytes before it. */
  lemma {:induction false} TableAsBuilt(b: Byte)
    ensures ByteToCpt(b) == if Printable(b) then b else 0x100 + OthersBelow(b)
  {
    OthersCounted(b);
  }

  /** A character decodes to a byte if and only if it is that byte's image. */
  lemma {:induction false} TableReadBack(c: nat, b: Byte)
    ensures CptToByte(c) == Some(b) <==> c == if Printable(b) then b else 0x100 + OthersBelow(b)
  {
    TableAsBuilt(b);
    TablesAreInverse(b, c);
  }

  /** A mapped word is the UTF-8 form of its bytes' images. */
  lemma {:induction false} MapByteIsUtf8(b: Byte)
    ensures MapByte(b) == Utf8(if Printable(b) then b else 0x100 + OthersBelow(b))
  {
    TableAsBuilt(b);
  }

  /** A well-formed character of a token decodes to its byte when it is an image, and is copied when it is not. */
  lemma {:induction false} CharacterIsDecoded(c: nat, tok: Bytes, p: nat, rest: Bytes)
    requires c < 0x11_0000 && p <= |tok| && tok[p..] == Utf8(c) + rest
    ensures p + |Utf8(c)| <= |tok|
    ensures forall b: Byte :: c == ByteToCpt(b) ==> DecodeToken(tok, p) == [b] + DecodeToken(tok, p + |Utf8(c)|)
    ensures (forall b: Byte :: c != ByteToCpt(b)) ==> DecodeToken(tok, p) == Utf8(c) + DecodeToken(tok, p + |Utf8(c)|)
  {
    hide Utf8, StepLength, CodePoint, ByteToCpt, CptToByte;
    CharacterIsRead(c, tok, p, rest);
    assert tok[p..p + |Utf8(c)|] == tok[p..][..|Utf8(c)|] == Utf8(c);
    forall b: Byte ensures c == ByteToCpt(b) <==> CptToByte(c) == Some(b) {
      TablesAreInverse(b, c);
    }
  }
}
