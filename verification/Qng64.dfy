/**
 The encoders that write bit planes and nibbles in place, the decoder, and the repack into
 MLX's bit stream.
 */
module Qng64 {
  import opened Common
  import opened ErrorFeedback
  import opened BitPlanes

  const GROUP := 64

  /** Codes with the bias added: what is spread over the planes. */
  function Biased(grp: seq<real>, scale: real, n: nat): (us: seq<nat>)
    requires n >= 2 && scale > 0.0
    ensures |us| == |grp|
  {
    seq(|grp|, p requires 0 <= p < |grp| => BiasedFits(grp, scale, n, p); CodeAt(grp, scale, Qmax(n), p) + Pow2(n - 1))
  }

  lemma {:induction false} BiasedFits(grp: seq<real>, scale: real, n: nat, p: nat)
    requires n >= 2 && scale > 0.0 && p < |grp|
    ensures 0 <= CodeAt(grp, scale, Qmax(n), p) + Pow2(n - 1) < Pow2(n)
  {
  }

  /** Decoding returns the chosen code, at every position and width. */
  lemma {:induction false} DecodeReturnsTheCode(planes: seq<bv8>, grp: seq<real>, scale: real, n: nat, p: nat)
    requires n >= 2 && scale > 0.0 && |grp| == GROUP && p < GROUP
    requires PlanesHold(planes, n, Biased(grp, scale, n))
    ensures PlaneCode(planes, n, p) - Pow2(n - 1) == CodeAt(grp, scale, Qmax(n), p)
  {
    hide PlanesHold, PlaneCode, CodeAt, Qmax;
    BiasedFits(grp, scale, n, p);
    PlanesGiveCodes(planes, n, Biased(grp, scale, n), p);
  }

  // ---- writing one group ----

  lemma {:induction false} SetPlaneBit(s: seq<bv8>, n: nat, j: nat, p: nat)
    requires |s| == 8 * n && j < n && p < GROUP
    ensures var t := s[j * 8 + p / 8 := WithBit(s[j * 8 + p / 8], p % 8)];
            forall i, q :: 0 <= i < n && 0 <= q < GROUP ==>
              (PlaneBit(t, i, q) <==> (i == j && q == p) || PlaneBit(s, i, q))
  {
    hide HasBit, WithBit;
    var t := s[j * 8 + p / 8 := WithBit(s[j * 8 + p / 8], p % 8)];
    forall i, q | 0 <= i < n && 0 <= q < GROUP
      ensures PlaneBit(t, i, q) <==> (i == j && q == p) || PlaneBit(s, i, q)
    {
      if i * 8 + q / 8 == j * 8 + p / 8 {
        WithBitSetsOne(s[j * 8 + p / 8], p % 8, q % 8);
      }
    }
  }

  /** Everything before (p, j) is written, nothing after it. */
  predicate WrittenUpTo(s: seq<bv8>, n: nat, us: seq<nat>, p: nat, j: nat) {
    && |s| == 8 * n && |us| == GROUP
    && forall i, q :: 0 <= i < n && 0 <= q < GROUP ==>
         (PlaneBit(s, i, q) <==> (q < p || (q == p && i < j)) && Bit(us[q], i))
  }

  lemma {:induction false} WriteBit(s: seq<bv8>, n: nat, us: seq<nat>, p: nat, j: nat)
    requires WrittenUpTo(s, n, us, p, j) && p < GROUP && j < n
    ensures var t := if Bit(us[p], j) then s[j * 8 + p / 8 := WithBit(s[j * 8 + p / 8], p % 8)] else s;
            WrittenUpTo(t, n, us, p, j + 1)
  {
    hide PlaneBit, Bit, WithBit;
    SetPlaneBit(s, n, j, p);
  }

  lemma {:induction false} NextPosition(s: seq<bv8>, n: nat, us: seq<nat>, p: nat)
    requires WrittenUpTo(s, n, us, p, n)
    ensures WrittenUpTo(s, n, us, p + 1, 0)
  {
    hide PlaneBit, Bit;
  }

  lemma {:induction false} NothingWritten(s: seq<bv8>, n: nat, us: seq<nat>)
    requires |s| == 8 * n && |us| == GROUP && forall i :: 0 <= i < |s| ==> s[i] == 0
    ensures WrittenUpTo(s, n, us, 0, 0)
  {
    hide HasBit, Bit;
    forall i, q | 0 <= i < n && 0 <= q < GROUP ensures !PlaneBit(s, i, q) {
      ZeroHasNoBits(q % 8);
    }
  }

  lemma {:induction false} AllWritten(s: seq<bv8>, n: nat, us: seq<nat>)
    requires WrittenUpTo(s, n, us, GROUP, 0)
    ensures PlanesHold(s, n, us)
  {
    hide PlaneBit, Bit;
  }

  /** Everything outside the slot of 8 * n bytes at base is as it was. */
  predicate SameOutside(a: seq<bv8>, b: seq<bv8>, base: nat, size: nat) {
    |a| == |b| && forall i :: 0 <= i < |a| && !(base <= i < base + size) ==> a[i] == b[i]
  }

  method SpreadCode(u: nat, n: nat, p: nat, planes: array<bv8>, base: nat, ghost us: seq<nat>)
    requires p < GROUP && base + 8 * n <= planes.Length
    requires WrittenUpTo(planes[base..base + 8 * n], n, us, p, 0) && us[p] == u
    modifies planes
    ensures WrittenUpTo(planes[base..base + 8 * n], n, us, p + 1, 0)
    ensures SameOutside(planes[..], old(planes[..]), base, 8 * n)
  {
    hide WrittenUpTo, Bit, WithBit;
    for j := 0 to n
      invariant WrittenUpTo(planes[base..base + 8 * n], n, us, p, j)
      invariant SameOutside(planes[..], old(planes[..]), base, 8 * n)
    {
      ghost var s := planes[base..base + 8 * n];
      WriteBit(s, n, us, p, j);
      if Bit(u, j) {
        planes[base + j * 8 + p / 8] := WithBit(planes[base + j * 8 + p / 8], p % 8);
        assert planes[base..base + 8 * n] == s[j * 8 + p / 8 := WithBit(s[j * 8 + p / 8], p % 8)];
      }
    }
    NextPosition(planes[base..base + 8 * n], n, us, p);
  }

  lemma {:induction false} ReciprocalIsQuotient(x: real, scale: real, inv: real)
    requires scale > 0.0 && inv == 1.0 / scale
    ensures x * inv == x / scale
  {
    assert x * (1.0 / scale) == x / scale;
  }

  method Clear(planes: array<bv8>, base: nat, size: nat)
    requires base + size <= planes.Length
    modifies planes
    ensures forall k :: base <= k < base + size ==> planes[k] == 0
    ensures SameOutside(planes[..], old(planes[..]), base, size)
  {
    for i := base to base + size
      invariant forall k :: base <= k < i ==> planes[k] == 0
      invariant forall k :: 0 <= k < planes.Length && !(base <= k < base + size) ==> planes[k] == old(planes[k])
    {
      planes[i] := 0;
    }
  }

  method NextCode(x: real, scale: real, inv: real, qmax: nat) returns (q: int, err: real)
    requires scale > 0.0 && inv == 1.0 / scale
    ensures q == Code(x, scale, qmax) && err == Residual(x, scale, qmax)
  {
    hide Clamp, Rint;
    ReciprocalIsQuotient(x, scale, inv);
    q := Clamp(Rint(x * inv), qmax);
    err := x - q as real * scale;
  }

  /** One group into a slot of zero bytes. */
  method EncodeGroup(grp: seq<real>, n: nat, scale: real, planes: array<bv8>, base: nat)
    requires n >= 2 && |grp| == GROUP && scale > 0.0 && base + 8 * n <= planes.Length
    requires forall k :: base <= k < base + 8 * n ==> planes[k] == 0
    modifies planes
    ensures PlanesHold(planes[base..base + 8 * n], n, Biased(grp, scale, n))
    ensures SameOutside(planes[..], old(planes[..]), base, 8 * n)
  {
    hide PlanesHold, WrittenUpTo, Code, Residual;
    ghost var us := Biased(grp, scale, n);
    NothingWritten(planes[base..base + 8 * n], n, us);
    var qmax, bias := Qmax(n), Pow2(n - 1);
    var inv, err := 1.0 / scale, 0.0;
    for p := 0 to GROUP
      invariant err == ErrAt(grp, scale, qmax, p)
      invariant WrittenUpTo(planes[base..base + 8 * n], n, us, p, 0)
      invariant SameOutside(planes[..], old(planes[..]), base, 8 * n)
    {
      var q;
      q, err := NextCode(grp[p] + err, scale, inv, qmax);
      BiasedFits(grp, scale, n, p);
      var u := (q + bias) % Pow2(n);
      SmallMod(us[p], Pow2(n));
      SpreadCode(u, n, p, planes, base, us);
    }
    AllWritten(planes[base..base + 8 * n], n, us);
  }

  method LargestMagnitude(grp: seq<real>) returns (m: real)
    ensures m == MaxAbs(grp, |grp|)
  {
    m := 0.0;
    for p := 0 to |grp|
      invariant m == MaxAbs(grp, p)
    {
      var a := Abs(grp[p]);
      if a > m { m := a; }
    }
  }

  // ---- a whole matrix ----

  /** Group g of row r, in a matrix of `cols` inputs per row. */
  function GroupOf(w: seq<real>, cols: nat, r: nat, g: nat): seq<real>
    requires r * cols + g * GROUP + GROUP <= |w|
  {
    w[r * cols + g * GROUP..r * cols + g * GROUP + GROUP]
  }

  function Slot(ng: nat, r: nat, g: nat): nat {
    r * ng + g
  }

  function ScaleOf(grp: seq<real>, n: nat, dense: bool): (s: real)
    requires n >= 2
    ensures s > 0.0
  {
    var m := MaxAbs(grp, |grp|);
    TranscodeCovers(m, Qmax(n));
    DenseCovers(m, Qmax(n));
    if dense then DenseScale(m, Qmax(n)) else TranscodeScale(m, Qmax(n))
  }

  /** Where their floor tests agree, the two encoders write the same scale and the same bytes. */
  lemma {:induction false} EncodersAgree(grp: seq<real>, n: nat, transcoded: seq<bv8>, dense: seq<bv8>)
    requires n >= 2 && |grp| == GROUP
    requires var m := MaxAbs(grp, |grp|); m / Qmax(n) as real < FLOOR <==> m <= FLOOR
    requires PlanesHold(transcoded, n, Biased(grp, ScaleOf(grp, n, false), n))
    requires PlanesHold(dense, n, Biased(grp, ScaleOf(grp, n, true), n))
    ensures ScaleOf(grp, n, false) == ScaleOf(grp, n, true) && transcoded == dense
  {
    hide PlanesHold, Biased, MaxAbs;
    ScalesAgreeIff(MaxAbs(grp, |grp|), n);
    CodesDeterminePlanes(transcoded, dense, n, Biased(grp, ScaleOf(grp, n, true), n));
  }

  /** The group's scale and codes stand in their slots. */
  predicate Encoded(planes: seq<bv8>, scales: seq<real>, w: seq<real>, cols: nat, ng: nat, n: nat, dense: bool, r: nat, g: nat)
    requires n >= 2
  {
    var k, size := Slot(ng, r, g), 8 * n;
    && k < |scales| && k * size + size <= |planes| && r * cols + g * GROUP + GROUP <= |w|
    && var grp := GroupOf(w, cols, r, g);
    scales[k] == ScaleOf(grp, n, dense)
    && PlanesHold(planes[k * size..k * size + size], n, Biased(grp, ScaleOf(grp, n, dense), n))
  }

  lemma {:induction false} SlotFits(rows: nat, ng: nat, r: nat, g: nat, size: nat)
    requires r < rows && g < ng
    ensures Slot(ng, r, g) < rows * ng && Slot(ng, r, g) * size + size <= rows * ng * size
  {
    assert (r + 1) * ng <= rows * ng;
    assert (Slot(ng, r, g) + 1) * size <= rows * ng * size;
  }

  lemma {:induction false} SlotOrder(ng: nat, r: nat, g: nat, r': nat, g': nat, size: nat)
    requires g < ng && g' < ng && (r' < r || (r' == r && g' < g))
    ensures Slot(ng, r', g') < Slot(ng, r, g) && Slot(ng, r', g') * size + size <= Slot(ng, r, g) * size
  {
    if r' < r {
      assert (r' + 1) * ng <= r * ng;
    }
    hide Slot;
    EndsBefore(Slot(ng, r', g'), Slot(ng, r, g), size);
  }

  lemma {:induction false} EndsBefore(k: nat, m: nat, size: nat)
    requires k < m
    ensures k * size + size <= m * size
  {
    assert (k + 1) * size <= m * size;
  }

  lemma {:induction false} GroupFits(rows: nat, cols: nat, r: nat, g: nat)
    requires r < rows && g < cols / GROUP
    ensures r * cols + g * GROUP + GROUP <= rows * cols
  {
    assert (r + 1) * cols <= rows * cols;
  }

  /** A write into a later slot leaves an encoded group alone. */
  lemma {:induction false} StaysEncoded(p0: seq<bv8>, s0: seq<real>, p1: seq<bv8>, s1: seq<real>, w: seq<real>, cols: nat, ng: nat, n: nat,
                     dense: bool, r: nat, g: nat, r': nat, g': nat)
    requires n >= 2 && g < ng && g' < ng && (r' < r || (r' == r && g' < g))
    requires Encoded(p0, s0, w, cols, ng, n, dense, r', g')
    requires SameOutside(p1, p0, Slot(ng, r, g) * (8 * n), 8 * n)
    requires |s1| == |s0| && forall k :: 0 <= k < |s0| && k != Slot(ng, r, g) ==> s1[k] == s0[k]
    ensures Encoded(p1, s1, w, cols, ng, n, dense, r', g')
  {
    hide PlanesHold, Biased, ScaleOf, Slot;
    var size := 8 * n;
    SlotOrder(ng, r, g, r', g', size);
    var k := Slot(ng, r', g');
    assert p1[k * size..k * size + size] == p0[k * size..k * size + size];
  }

  /**
   gguf_quantize_qNg64 (which clears each slot first) and, with `dense`, qng64_quantize_f32
   (which clears everything first).
   */
  method EncodeMatrix(w: seq<real>, rows: nat, cols: nat, n: nat, dense: bool, planes: array<bv8>, scales: array<real>)
    requires n >= 2 && |w| == rows * cols
    requires scales.Length == rows * (cols / GROUP) && planes.Length == rows * (cols / GROUP) * (8 * n)
    modifies planes, scales
    ensures forall r: nat, g: nat :: r < rows && g < cols / GROUP ==>
              Encoded(planes[..], scales[..], w, cols, cols / GROUP, n, dense, r, g)
  {
    hide Encoded, Slot, ScaleOf, PlanesHold, Biased;
    var ng, size := cols / GROUP, 8 * n;
    if dense {
      Clear(planes, 0, planes.Length);
    }
    for r := 0 to rows
      invariant forall r': nat, g': nat :: r' < r && g' < ng ==> Encoded(planes[..], scales[..], w, cols, ng, n, dense, r', g')
      invariant dense ==> forall i :: Slot(ng, r, 0) * size <= i < planes.Length ==> planes[i] == 0
    {
      NextSlot(ng, r, 0, size);
      for g := 0 to ng
        invariant forall r': nat, g': nat :: g' < ng && (r' < r || (r' == r && g' < g)) ==>
                    Encoded(planes[..], scales[..], w, cols, ng, n, dense, r', g')
        invariant dense ==> forall i :: Slot(ng, r, g) * size <= i < planes.Length ==> planes[i] == 0
      {
        ghost var p0, s0 := planes[..], scales[..];
        EncodeSlot(w, rows, cols, n, dense, planes, scales, r, g);
        forall r': nat, g': nat | g' < ng && (r' < r || (r' == r && g' < g))
          ensures Encoded(planes[..], scales[..], w, cols, ng, n, dense, r', g')
        {
          StaysEncoded(p0, s0, planes[..], scales[..], w, cols, ng, n, dense, r, g, r', g');
        }
        NextSlot(ng, r, g, size);
      }
    }
  }

  method EncodeSlot(w: seq<real>, rows: nat, cols: nat, n: nat, dense: bool, planes: array<bv8>, scales: array<real>, r: nat, g: nat)
    requires n >= 2 && |w| == rows * cols && r < rows && g < cols / GROUP
    requires scales.Length == rows * (cols / GROUP) && planes.Length == rows * (cols / GROUP) * (8 * n)
    requires dense ==> forall i :: Slot(cols / GROUP, r, g) * (8 * n) <= i < planes.Length ==> planes[i] == 0
    modifies planes, scales
    ensures Encoded(planes[..], scales[..], w, cols, cols / GROUP, n, dense, r, g)
    ensures SameOutside(planes[..], old(planes[..]), Slot(cols / GROUP, r, g) * (8 * n), 8 * n)
    ensures forall k :: 0 <= k < scales.Length && k != Slot(cols / GROUP, r, g) ==> scales[k] == old(scales[k])
  {
    hide Encoded, ScaleOf, PlanesHold, Biased, Slot;
    var ng, size := cols / GROUP, 8 * n;
    GroupFits(rows, cols, r, g);
    SlotFits(rows, ng, r, g, size);
    var k := Slot(ng, r, g);
    var base := k * size;
    var grp := GroupOf(w, cols, r, g);
    if !dense {
      Clear(planes, base, size);
    }
    var scale := ChooseScale(grp, n, dense);
    scales[k] := scale;
    EncodeGroup(grp, n, scale, planes, base);
    NowEncoded(planes[..], scales[..], w, cols, ng, n, dense, r, g);
  }

  lemma {:induction false} NextSlot(ng: nat, r: nat, g: nat, size: nat)
    ensures Slot(ng, r, g + 1) * size == Slot(ng, r, g) * size + size
    ensures Slot(ng, r, ng) == Slot(ng, r + 1, 0)
  {
    assert Slot(ng, r, g + 1) == Slot(ng, r, g) + 1;
  }

  lemma {:induction false} NowEncoded(p: seq<bv8>, s: seq<real>, w: seq<real>, cols: nat, ng: nat, n: nat, dense: bool, r: nat, g: nat)
    requires n >= 2 && r * cols + g * GROUP + GROUP <= |w|
    requires Slot(ng, r, g) < |s| && Slot(ng, r, g) * (8 * n) + 8 * n <= |p|
    requires var grp := GroupOf(w, cols, r, g);
             s[Slot(ng, r, g)] == ScaleOf(grp, n, dense)
             && PlanesHold(p[Slot(ng, r, g) * (8 * n)..Slot(ng, r, g) * (8 * n) + 8 * n], n, Biased(grp, ScaleOf(grp, n, dense), n))
    ensures Encoded(p, s, w, cols, ng, n, dense, r, g)
  {
  }

  method ChooseScale(grp: seq<real>, n: nat, dense: bool) returns (scale: real)
    requires n >= 2
    ensures scale == ScaleOf(grp, n, dense)
  {
    var maxabs := LargestMagnitude(grp);
    var qmax := Qmax(n);
    if dense {
      scale := if maxabs > FLOOR then maxabs / qmax as real else 1.0;
    } else {
      scale := maxabs / qmax as real;
      if scale < FLOOR { scale := 1.0; }
    }
  }

  /** qng64_quantize_f32 refuses shapes that are not whole groups, and four bits. */
  method QuantizeDense(w: seq<real>, rows: int, cols: int, n: int, planes: array<bv8>, scales: array<real>) returns (rc: int)
    requires rows > 0 && cols > 0 && n > 0 ==>
               |w| == rows * cols && scales.Length == rows * (cols / GROUP)
               && planes.Length == rows * (cols / GROUP) * (8 * n)
    modifies planes, scales
    ensures rc == 0 <==> rows > 0 && cols > 0 && cols % GROUP == 0 && 2 <= n <= 15 && n != 4
    ensures rc == 0 ==> forall r: nat, g: nat :: r < rows && g < cols / GROUP ==>
              Encoded(planes[..], scales[..], w, cols, cols / GROUP, n, true, r, g)
    ensures rc != 0 ==> rc == -1 && planes[..] == old(planes[..]) && scales[..] == old(scales[..])
  {
    hide Encoded;
    if rows <= 0 || cols <= 0 || cols % GROUP != 0 || n < 2 || n > 15 || n == 4 {
      return -1;
    }
    EncodeMatrix(w, rows, cols, n, true, planes, scales);
    rc := 0;
  }

  /** qng64_decode_code: 0 for arguments it refuses. */
  method DecodeCode(planes: seq<bv8>, n: int, index: int) returns (code: int)
    requires n >= 0 ==> |planes| == 8 * n
    ensures code == if 2 <= n <= 15 && n != 4 && 0 <= index < GROUP then PlaneCode(planes, n, index) - Pow2(n - 1) else 0
  {
    hide HasBit;
    if n < 2 || n > 15 || n == 4 || index < 0 || index >= GROUP {
      return 0;
    }
    var u := 0;
    ghost var bits := PlaneBits(planes, n, index);
    for j := 0 to n
      invariant u == FromBits(bits[..j])
    {
      assert bits[..j + 1][..j] == bits[..j];
      if HasBit(planes[j * 8 + index / 8], index % 8) {
        u := u + Pow2(j);     // u |= 1 << j, with bit j clear so far
      }
    }
    assert bits[..n] == bits;
    code := u - Pow2(n - 1);
  }

  // ---- the chosen scale, without the loop that finds it ----

  /** Some input is at least, or for the dense encoder above, this magnitude. */
  predicate SomeBeyond(grp: seq<real>, x: real, strictly: bool) {
    exists k :: 0 <= k < |grp| && Beyond(grp[k], x, strictly)
  }

  predicate Beyond(g: real, x: real, strictly: bool) {
    if strictly then g > x || -g > x else g >= x || -g >= x
  }

  lemma {:induction false} MaximumBeyond(grp: seq<real>, x: real, strictly: bool)
    requires |grp| > 0 && x > 0.0
    ensures SomeBeyond(grp, x, strictly) <==> Beyond(MaxAbs(grp, |grp|), x, strictly)
  {
    hide MaxAbs;
    var m := MaxAbs(grp, |grp|);
    var k := MaxAbsAttained(grp, |grp|);
    if Beyond(m, x, strictly) {
      assert Beyond(grp[k], x, strictly);
    }
    if j :| 0 <= j < |grp| && Beyond(grp[j], x, strictly) {
      MaxAbsCovers(grp, |grp|, j);
    }
  }

  lemma {:induction false} AtTheFloor(m: real, q: real)
    requires q > 0.0
    ensures 1000000000000.0 * (m / q) >= 1.0 <==> m >= q / 1000000000000.0
  {
    QuotientBack(m, q);
    var s := m / q;
    if 1000000000000.0 * s >= 1.0 {
      Product(q, 1.0 / 1000000000000.0, s);
    } else {
      StrictProduct(q, s, 1.0 / 1000000000000.0);
    }
  }

  /**
   The scale of a group: the smallest that reaches every input with qmax steps, when some input is
   above 1e-12 for the dense encoder, or qmax * 1e-12 or more for the other; and 1 otherwise.
   */
  lemma {:induction false} ScaleOfIsTight(grp: seq<real>, n: nat, dense: bool)
    requires |grp| > 0 && n >= 2
    ensures var floor := if dense then 1.0 / 1000000000000.0 else Qmax(n) as real / 1000000000000.0;
            if SomeBeyond(grp, floor, dense) then Tight(grp, ScaleOf(grp, n, dense), Qmax(n)) else ScaleOf(grp, n, dense) == 1.0
  {
    hide MaxAbs, Tight, SomeBeyond, Qmax;
    var m, q := MaxAbs(grp, |grp|), Qmax(n) as real;
    ScalesAreTight(grp, Qmax(n));
    AtTheFloor(m, q);
    MaximumBeyond(grp, if dense then 1.0 / 1000000000000.0 else q / 1000000000000.0, dense);
  }
}
