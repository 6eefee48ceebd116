/** Bits of bytes and of code words, and codes spread over bit planes or laid end to end in a bit stream. */
module BitPlanes {
  import opened Common
  import opened ErrorFeedback

  // ---- bits of a byte ----

  function Mask(k: nat): bv8
    requires k < 8
  {
    match k
    case 0 => 1
    case 1 => 2
    case 2 => 4
    case 3 => 8
    case 4 => 16
    case 5 => 32
    case 6 => 64
    case 7 => 128
  }

  predicate HasBit(b: bv8, k: nat)
    requires k < 8
  {
    b & Mask(k) != 0
  }

  /** b |= 1 << k */
  function WithBit(b: bv8, k: nat): bv8
    requires k < 8
  {
    b | Mask(k)
  }

  lemma {:induction false} WithBitSetsOne(b: bv8, k: nat, i: nat)
    requires k < 8 && i < 8
    ensures HasBit(WithBit(b, k), i) <==> i == k || HasBit(b, i)
  {
    if i == k {
    } else {
      MasksDisjoint(k, i);
      var m, q := Mask(k), Mask(i);
      assert (b | m) & q == (b & q) | (m & q);
      assert (b & q) | 0 == b & q;
    }
  }

  lemma {:induction false} MasksDisjoint(k: nat, i: nat)
    requires k < 8 && i < 8 && k != i
    ensures Mask(k) & Mask(i) == 0
  {
  }

  /** A byte is its bits. */
  lemma {:induction false} ByteIsItsBits(a: bv8, b: bv8)
    requires forall k :: 0 <= k < 8 ==> (HasBit(a, k) <==> HasBit(b, k))
    ensures a == b
  {
    assert HasBit(a, 0) <==> HasBit(b, 0);
    assert HasBit(a, 1) <==> HasBit(b, 1);
    assert HasBit(a, 2) <==> HasBit(b, 2);
    assert HasBit(a, 3) <==> HasBit(b, 3);
    assert HasBit(a, 4) <==> HasBit(b, 4);
    assert HasBit(a, 5) <==> HasBit(b, 5);
    assert HasBit(a, 6) <==> HasBit(b, 6);
    assert HasBit(a, 7) <==> HasBit(b, 7);
  }

  lemma {:induction false} ZeroHasNoBits(k: nat)
    requires k < 8
    ensures !HasBit(0, k)
  {
  }

  // ---- bits of a code ----

  /** (u >> j) & 1 */
  predicate Bit(u: nat, j: nat) {
    u / Pow2(j) % 2 == 1
  }

  /** The number whose low n bits are f's. */
  function FromBits(f: seq<bool>): nat {
    if f == [] then 0 else FromBits(f[..|f| - 1]) + (if f[|f| - 1] then Pow2(|f| - 1) else 0)
  }

  function BitsOf(u: nat, n: nat): seq<bool> {
    seq(n, j requires 0 <= j < n => Bit(u, j))
  }

  lemma {:induction false} FromBitsOf(u: nat, n: nat)
    ensures FromBits(BitsOf(u, n)) == u % Pow2(n)
  {
    var f := BitsOf(u, n);
    if n > 0 {
      FromBitsOf(u, n - 1);
      assert f[..n - 1] == BitsOf(u, n - 1);
      TopBit(u, Pow2(n - 1));
    }
  }

  lemma {:induction false} TopBit(u: nat, p: nat)
    requires p > 0
    ensures u % (2 * p) == u % p + (if u / p % 2 == 1 then p else 0)
  {
    var q, r := u / p, u % p;
    var h := q / 2;
    assert u == q * p + r;
    if q % 2 == 1 {
      assert q == 2 * h + 1;
      assert q * p == h * (2 * p) + p by { Twice(h, p); }
      DivMod(u, 2 * p, h, p + r);
    } else {
      assert q == 2 * h;
      assert q * p == h * (2 * p) by { Twice(h, p); }
      DivMod(u, 2 * p, h, r);
    }
  }

  lemma {:induction false} Twice(h: nat, p: nat)
    ensures (2 * h) * p == h * (2 * p) && (2 * h + 1) * p == h * (2 * p) + p
  {
  }

  lemma {:induction false} SmallMod(u: nat, m: nat)
    requires u < m
    ensures u % m == u
  {
  }

  // ---- bit planes: bit j of the code at p is bit p % 8 of byte j * 8 + p / 8 ----

  predicate PlaneBit(planes: seq<bv8>, j: nat, p: nat)
    requires p < 64 && 8 * j + 8 <= |planes|
  {
    HasBit(planes[j * 8 + p / 8], p % 8)
  }

  /** The planes hold these codes and nothing else. */
  predicate PlanesHold(planes: seq<bv8>, n: nat, us: seq<nat>) {
    && |planes| == 8 * n && |us| == 64
    && forall j, p :: 0 <= j < n && 0 <= p < 64 ==> (PlaneBit(planes, j, p) <==> Bit(us[p], j))
  }

  function PlaneBits(planes: seq<bv8>, n: nat, p: nat): seq<bool>
    requires |planes| == 8 * n && p < 64
  {
    seq(n, j requires 0 <= j < n => PlaneBit(planes, j, p))
  }

  /** What qng64_decode_code reads, before the bias is taken off. */
  function PlaneCode(planes: seq<bv8>, n: nat, p: nat): nat
    requires |planes| == 8 * n && p < 64
  {
    FromBits(PlaneBits(planes, n, p))
  }

  lemma {:induction false} PlanesGiveCodes(planes: seq<bv8>, n: nat, us: seq<nat>, p: nat)
    requires PlanesHold(planes, n, us) && p < 64 && us[p] < Pow2(n)
    ensures PlaneCode(planes, n, p) == us[p]
  {
    hide PlaneBit, Bit;
    assert PlaneBits(planes, n, p) == BitsOf(us[p], n);
    FromBitsOf(us[p], n);
    SmallMod(us[p], Pow2(n));
  }

  /** The codes determine every byte of the planes. */
  lemma {:induction false} CodesDeterminePlanes(a: seq<bv8>, b: seq<bv8>, n: nat, us: seq<nat>)
    requires PlanesHold(a, n, us) && PlanesHold(b, n, us)
    ensures a == b
  {
    hide HasBit, Bit;
    forall i | 0 <= i < 8 * n ensures a[i] == b[i] {
      forall k | 0 <= k < 8 ensures HasBit(a[i], k) <==> HasBit(b[i], k) {
        var j, p := i / 8, 8 * (i % 8) + k;
        assert p / 8 == i % 8 && p % 8 == k && i == j * 8 + p / 8;
        assert PlaneBit(a, j, p) <==> PlaneBit(b, j, p);
      }
      ByteIsItsBits(a[i], b[i]);
    }
  }

  // ---- the bit stream: bit b of the code at p is bit p * n + b ----

  predicate StreamBit(stream: seq<bv8>, x: nat)
    requires x < 8 * |stream|
  {
    HasBit(stream[x / 8], x % 8)
  }

  lemma {:induction false} SetStreamBit(s: seq<bv8>, x: nat)
    requires x < 8 * |s|
    ensures var t := s[x / 8 := WithBit(s[x / 8], x % 8)];
            forall y :: 0 <= y < 8 * |s| ==> (StreamBit(t, y) <==> y == x || StreamBit(s, y))
  {
    hide HasBit, WithBit;
    var t := s[x / 8 := WithBit(s[x / 8], x % 8)];
    forall y | 0 <= y < 8 * |s| ensures StreamBit(t, y) <==> y == x || StreamBit(s, y) {
      if y / 8 == x / 8 {
        WithBitSetsOne(s[x / 8], x % 8, y % 8);
      }
    }
  }

  /** The n bits from x on, low bit first. */
  function StreamCode(stream: seq<bv8>, x: nat, n: nat): nat
    requires x + n <= 8 * |stream|
  {
    FromBits(seq(n, b requires 0 <= b < n => StreamBit(stream, x + b)))
  }

  /** Where bit b of code p stands in the stream. */
  function Pos(p: nat, n: nat, b: nat): nat {
    p * n + b
  }

  lemma {:induction false} Inside(p: nat, n: nat, b: nat)
    requires p < 64 && b < n
    ensures Pos(p, n, b) < 64 * n && p * n + n <= 64 * n
  {
    assert (p + 1) * n <= 64 * n;
  }

  predicate StreamHolds(stream: seq<bv8>, planes: seq<bv8>, n: nat, p: nat)
    requires |stream| == 8 * n == |planes| && p < 64
  {
    forall b :: 0 <= b < n ==> SameBit(stream, planes, n, p, b)
  }

  predicate SameBit(stream: seq<bv8>, planes: seq<bv8>, n: nat, p: nat, b: nat)
    requires |stream| == 8 * n == |planes| && p < 64 && b < n
  {
    Inside(p, n, b);
    StreamBit(stream, Pos(p, n, b)) <==> PlaneBit(planes, b, p)
  }

  /** Both layouts spell the same code at every position. */
  lemma {:induction false} StreamGivesCodes(stream: seq<bv8>, planes: seq<bv8>, n: nat, p: nat)
    requires |stream| == 8 * n == |planes| && p < 64 && StreamHolds(stream, planes, n, p)
    ensures p * n + n <= 64 * n
    ensures StreamCode(stream, p * n, n) == PlaneCode(planes, n, p)
  {
    hide PlaneBit, StreamBit;
    if n == 0 {
      assert PlaneBits(planes, n, p) == [];
    } else {
      Inside(p, n, 0);
      var x := p * n;
      var s := seq(n, b requires 0 <= b < n => StreamBit(stream, x + b));
      forall b | 0 <= b < n ensures s[b] == PlaneBits(planes, n, p)[b] {
        assert SameBit(stream, planes, n, p, b);
      }
      assert s == PlaneBits(planes, n, p);
    }
  }
}
