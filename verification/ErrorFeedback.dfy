/**
 The error-feedback quantizers in exact arithmetic: every input of a group is rounded together
 with the error left by the inputs before it.
 */
module ErrorFeedback {
  import opened Common

  const FLOOR := 1.0 / 1000000000000.0

  function Pow2(n: nat): (p: nat)
    ensures p > 0
  {
    if n == 0 then 1 else 2 * Pow2(n - 1)
  }

  function Qmax(n: nat): (q: nat)
    requires n >= 2
    ensures q > 0
  {
    assert Pow2(n - 1) == 2 * Pow2(n - 2);
    Pow2(n - 1) - 1
  }

  function Abs(x: real): real {
    if x < 0.0 then -x else x
  }

  /** Round to nearest, ties to even. */
  function Rint(x: real): int {
    var f := x.Floor;
    var d := x - f as real;
    if d < 0.5 then f else if d > 0.5 then f + 1 else if f % 2 == 0 then f else f + 1
  }

  /** Codes run from -(qmax + 1) to qmax. */
  function Clamp(q: int, qmax: nat): int {
    if q > qmax then qmax else if q < -(qmax + 1) then -(qmax + 1) else q
  }

  function MaxAbs(grp: seq<real>, p: nat): (m: real)
    requires p <= |grp|
    ensures m >= 0.0
  {
    if p == 0 then 0.0
    else
      var m := MaxAbs(grp, p - 1);
      if Abs(grp[p - 1]) > m then Abs(grp[p - 1]) else m
  }

  /** The scale gguf_transcode.c chooses, for q4g64 (qmax = 7) and qNg64 alike. */
  function TranscodeScale(maxabs: real, qmax: nat): real
    requires qmax > 0
  {
    var s := maxabs / qmax as real;
    if s < FLOOR then 1.0 else s
  }

  /** The scale qng64_dense.c chooses. */
  function DenseScale(maxabs: real, qmax: nat): real
    requires qmax > 0
  {
    if maxabs > FLOOR then maxabs / qmax as real else 1.0
  }

  /** The code for a running value x: divide, round, clamp. */
  function Code(x: real, scale: real, qmax: nat): int
    requires scale > 0.0
  {
    Clamp(Rint(x / scale), qmax)
  }

  /** What the code leaves of x. */
  function Residual(x: real, scale: real, qmax: nat): real
    requires scale > 0.0
  {
    x - Code(x, scale, qmax) as real * scale
  }

  /** The error carried into position p. */
  function ErrAt(grp: seq<real>, scale: real, qmax: nat, p: nat): real
    requires p <= |grp| && scale > 0.0
  {
    if p == 0 then 0.0 else Residual(grp[p - 1] + ErrAt(grp, scale, qmax, p - 1), scale, qmax)
  }

  /** The code chosen at position p. */
  function CodeAt(grp: seq<real>, scale: real, qmax: nat, p: nat): int
    requires p < |grp| && scale > 0.0
  {
    Code(grp[p] + ErrAt(grp, scale, qmax, p), scale, qmax)
  }

  function SumOf(grp: seq<real>, p: nat): real
    requires p <= |grp|
  {
    if p == 0 then 0.0 else SumOf(grp, p - 1) + grp[p - 1]
  }

  function SumDecoded(grp: seq<real>, scale: real, qmax: nat, p: nat): real
    requires p <= |grp| && scale > 0.0
  {
    if p == 0 then 0.0
    else SumDecoded(grp, scale, qmax, p - 1) + CodeAt(grp, scale, qmax, p - 1) as real * scale
  }

  // ---- the scale covers the group ----

  lemma {:induction false} MaxAbsCovers(grp: seq<real>, p: nat, k: nat)
    requires k < p <= |grp|
    ensures Abs(grp[k]) <= MaxAbs(grp, p)
  {
    if k < p - 1 {
      MaxAbsCovers(grp, p - 1, k);
    }
  }

  lemma {:induction false} MaxAbsAttained(grp: seq<real>, p: nat) returns (k: nat)
    requires 0 < p <= |grp|
    ensures k < p && (MaxAbs(grp, p) == grp[k] || MaxAbs(grp, p) == -grp[k])
  {
    if p == 1 || Abs(grp[p - 1]) > MaxAbs(grp, p - 1) {
      assert MaxAbs(grp, 0) == 0.0;
      k := p - 1;
    } else {
      k := MaxAbsAttained(grp, p - 1);
    }
  }

  /** No input exceeds qmax steps of this scale. */
  predicate Covers(grp: seq<real>, scale: real, qmax: nat) {
    scale > 0.0 && forall k :: 0 <= k < |grp| ==> Abs(grp[k]) <= qmax as real * scale
  }

  lemma {:induction false} QuotientBack(x: real, y: real)
    requires y > 0.0
    ensures y * (x / y) == x
  {
  }

  lemma {:induction false} TranscodeCovers(m: real, qmax: nat)
    requires qmax > 0 && m >= 0.0
    ensures TranscodeScale(m, qmax) > 0.0 && m <= qmax as real * TranscodeScale(m, qmax)
  {
    var q := qmax as real;
    QuotientBack(m, q);
    if m / q < FLOOR {
      Product(q, m / q, 1.0);
    }
  }

  lemma {:induction false} DenseCovers(m: real, qmax: nat)
    requires qmax > 0 && m >= 0.0
    ensures DenseScale(m, qmax) > 0.0 && m <= qmax as real * DenseScale(m, qmax)
  {
    var q := qmax as real;
    QuotientBack(m, q);
    if m > FLOOR {
      if m / q <= 0.0 {
        Product(q, m / q, 0.0);
        assert false;
      }
    }
  }

  /** Both scales cover their group, the one put in at the floor included. */
  lemma {:induction false} ScalesCover(grp: seq<real>, qmax: nat)
    requires qmax > 0
    ensures Covers(grp, TranscodeScale(MaxAbs(grp, |grp|), qmax), qmax)
    ensures Covers(grp, DenseScale(MaxAbs(grp, |grp|), qmax), qmax)
  {
    hide TranscodeScale, DenseScale, MaxAbs, Abs;
    var m := MaxAbs(grp, |grp|);
    TranscodeCovers(m, qmax);
    DenseCovers(m, qmax);
    forall k | 0 <= k < |grp| ensures Abs(grp[k]) <= m {
      MaxAbsCovers(grp, |grp|, k);
    }
  }

  lemma {:induction false} Product(q: real, x: real, y: real)
    requires q > 0.0 && x <= y
    ensures q * x <= q * y
  {
  }

  // ---- the bound ----

  lemma {:induction false} RintNearest(x: real)
    ensures -0.5 <= x - Rint(x) as real <= 0.5
  {
  }

  /** What rounding and clamping leave of x, for x at most half a step outside the codes. */
  lemma {:induction false} StepBound(y: real, qmax: nat)
    requires qmax % 2 == 1
    requires -(qmax as real) - 0.5 <= y <= qmax as real + 0.5
    ensures -0.5 <= y - Clamp(Rint(y), qmax) as real <= 0.5
    ensures Clamp(Rint(y), qmax) != Rint(y) <==> y == qmax as real + 0.5
  {
    RintNearest(y);
    if y == qmax as real + 0.5 {
      assert y.Floor == qmax;
    } else {
      assert Rint(y) <= qmax;
    }
  }

  lemma {:induction false} Distribute(s: real, x: real, y: real)
    ensures s * (x + y) == s * x + s * y
    ensures s * (x - y) == s * x - s * y
  {
  }

  /** The quotient of the running value, y = (g + err) / scale, stays within half a step of the codes. */
  lemma {:induction false} QuotientBound(g: real, err: real, scale: real, q: real, y: real)
    requires scale > 0.0 && scale * y == g + err
    requires Abs(g) <= q * scale && Abs(err) <= scale / 2.0
    ensures -q - 0.5 <= y <= q + 0.5
  {
    var reach := scale * (q + 0.5);
    assert reach == q * scale + scale / 2.0 by {
      Distribute(scale, q, 0.5);
      Commute(q, scale);
    }
    SumWithin(g, err, q * scale, scale / 2.0);
    Squeeze(scale, q + 0.5, y, reach, g + err);
  }

  lemma {:induction false} Squeeze(s: real, c: real, y: real, sc: real, sy: real)
    requires s > 0.0 && sc == s * c && sy == s * y && -sc <= sy <= sc
    ensures -c <= y <= c
  {
    Negate(s, c);
    if y > c {
      StrictProduct(s, c, y);
    } else if y < -c {
      StrictProduct(s, y, -c);
    }
  }

  lemma {:induction false} SumWithin(x: real, y: real, a: real, b: real)
    requires Abs(x) <= a && Abs(y) <= b
    ensures -(a + b) <= x + y <= a + b
  {
  }

  lemma {:induction false} Negate(s: real, x: real)
    ensures s * -x == -(s * x)
  {
  }

  lemma {:induction false} Rescale(x: real, c: real, scale: real, y: real)
    requires scale > 0.0 && scale * y == x && -0.5 <= y - c <= 0.5
    ensures Abs(x - c * scale) <= scale / 2.0
  {
    Distribute(scale, y, c);
    Commute(c, scale);
    var d := y - c;
    assert scale * d == x - c * scale;
    HalfStep(scale, d);
  }

  lemma {:induction false} Commute(x: real, y: real)
    ensures x * y == y * x
  {
  }

  lemma {:induction false} HalfStep(s: real, d: real)
    requires s > 0.0 && -0.5 <= d <= 0.5
    ensures -(s / 2.0) <= s * d <= s / 2.0
  {
    Product(s, d, 0.5);
    Product(s, -0.5, d);
  }

  lemma {:induction false} ErrBoundStep(g: real, err: real, scale: real, qmax: nat)
    requires scale > 0.0 && qmax % 2 == 1
    requires Abs(g) <= qmax as real * scale && Abs(err) <= scale / 2.0
    ensures -(qmax as real) - 0.5 <= (g + err) / scale <= qmax as real + 0.5
    ensures Abs(Residual(g + err, scale, qmax)) <= scale / 2.0
  {
    hide Rint, Clamp;
    var x := g + err;
    var y := x / scale;
    QuotientBack(x, scale);
    QuotientBound(g, err, scale, qmax as real, y);
    StepBound(y, qmax);
    ResidualBound(x, scale, qmax, y);
  }

  lemma {:induction false} ResidualBound(x: real, scale: real, qmax: nat, y: real)
    requires scale > 0.0 && y == x / scale && -0.5 <= y - Clamp(Rint(y), qmax) as real <= 0.5
    ensures Abs(Residual(x, scale, qmax)) <= scale / 2.0
  {
    hide Rint, Clamp;
    QuotientBack(x, scale);
    Rescale(x, Clamp(Rint(y), qmax) as real, scale, y);
  }

  lemma {:induction false} StrictProduct(s: real, x: real, y: real)
    requires s > 0.0 && x < y
    ensures s * x < s * y
  {
  }

  lemma {:induction false} AbsZero(scale: real)
    requires scale > 0.0
    ensures Abs(0.0) <= scale / 2.0
  {
  }

  lemma {:induction false} ErrBound(grp: seq<real>, scale: real, qmax: nat, p: nat)
    requires Covers(grp, scale, qmax) && qmax % 2 == 1 && p <= |grp|
    ensures Abs(ErrAt(grp, scale, qmax, p)) <= scale / 2.0
  {
    hide Residual;
    if p > 0 {
      ErrBound(grp, scale, qmax, p - 1);
      ErrBoundStep(grp[p - 1], ErrAt(grp, scale, qmax, p - 1), scale, qmax);
    } else {
      AbsZero(scale);
    }
  }

  lemma {:induction false} ErrIsDifference(grp: seq<real>, scale: real, qmax: nat, p: nat)
    requires scale > 0.0 && p <= |grp|
    ensures ErrAt(grp, scale, qmax, p) == SumOf(grp, p) - SumDecoded(grp, scale, qmax, p)
  {
    hide Code;
    if p > 0 {
      ErrIsDifference(grp, scale, qmax, p - 1);
    }
  }

  lemma {:induction false} QmaxOdd(n: nat)
    requires n >= 2
    ensures Qmax(n) % 2 == 1
  {
    assert Pow2(n - 1) == 2 * Pow2(n - 2);
  }

  /**
   For every group, every width and every prefix, the decoded values add up to the inputs within
   half a step, clamping and the scale floor included.
   */
  lemma {:induction false} PrefixSumBound(grp: seq<real>, n: nat, p: nat)
    requires n >= 2 && p <= |grp|
    ensures var t := TranscodeScale(MaxAbs(grp, |grp|), Qmax(n));
            t > 0.0 && Abs(SumOf(grp, p) - SumDecoded(grp, t, Qmax(n), p)) <= t / 2.0
    ensures var d := DenseScale(MaxAbs(grp, |grp|), Qmax(n));
            d > 0.0 && Abs(SumOf(grp, p) - SumDecoded(grp, d, Qmax(n), p)) <= d / 2.0
  {
    hide TranscodeScale, DenseScale, MaxAbs, SumOf, SumDecoded, Pow2;
    QmaxOdd(n);
    var qmax := Qmax(n);
    ScalesCover(grp, qmax);
    var t, d := TranscodeScale(MaxAbs(grp, |grp|), qmax), DenseScale(MaxAbs(grp, |grp|), qmax);
    ErrBound(grp, t, qmax, p);
    ErrBound(grp, d, qmax, p);
    ErrIsDifference(grp, t, qmax, p);
    ErrIsDifference(grp, d, qmax, p);
  }

  /** Clamping changes a code only at the one tie above the largest code; the lower clamp never acts. */
  lemma {:induction false} ClampOnlyAtTheTie(grp: seq<real>, scale: real, n: nat, p: nat)
    requires n >= 2 && Covers(grp, scale, Qmax(n)) && p < |grp|
    ensures var y := (grp[p] + ErrAt(grp, scale, Qmax(n), p)) / scale;
            && (CodeAt(grp, scale, Qmax(n), p) != Rint(y) <==> y == Qmax(n) as real + 0.5)
            && -(Qmax(n) + 1) <= Rint(y)
  {
    hide Qmax, ErrAt, Rint, Clamp;
    QmaxOdd(n);
    var qmax := Qmax(n);
    ErrBound(grp, scale, qmax, p);
    ErrBoundStep(grp[p], ErrAt(grp, scale, qmax, p), scale, qmax);
    var y := (grp[p] + ErrAt(grp, scale, qmax, p)) / scale;
    StepBound(y, qmax);
    RintNearest(y);
    assert CodeAt(grp, scale, qmax, p) == Clamp(Rint(y), qmax);
  }

  // ---- two encoders ----

  /** The two encoders pick the same scale exactly when their floor tests agree. */
  lemma {:induction false} ScalesAgreeIff(maxabs: real, n: nat)
    requires n >= 2 && maxabs >= 0.0
    ensures TranscodeScale(maxabs, Qmax(n)) == DenseScale(maxabs, Qmax(n))
       <==> (maxabs / Qmax(n) as real < FLOOR <==> maxabs <= FLOOR)
  {
    var q := Qmax(n) as real;
    QuotientBack(maxabs, q);
    if maxabs <= FLOOR && maxabs / q >= FLOOR {
      Product(q, FLOOR, maxabs / q);
      Product(FLOOR, 1.0, q);
      assert maxabs == FLOOR;
    }
  }

  /** A group whose first entry is x and whose other entries are zero. */
  function LoneValue(x: real): (grp: seq<real>)
    ensures |grp| == 64
  {
    seq(64, k => if k == 0 then x else 0.0)
  }

  lemma {:induction false} LoneMaximum(x: real, p: nat)
    requires x >= 0.0 && 1 <= p <= 64
    ensures MaxAbs(LoneValue(x), p) == x
  {
    if p == 1 {
      assert MaxAbs(LoneValue(x), 0) == 0.0;
    } else {
      LoneMaximum(x, p - 1);
    }
  }

  /** Where they disagree they may choose other codes: 2e-12 and 63 zeros, at five bits. */
  lemma {:induction false} FloorsCanDisagree()
    ensures Qmax(5) == 15
    ensures exists grp: seq<real> ::
              && |grp| == 64
              && var m := MaxAbs(grp, 64);
              && TranscodeScale(m, 15) > 0.0 && DenseScale(m, 15) > 0.0
              && CodeAt(grp, TranscodeScale(m, 15), 15, 0) == 0 && CodeAt(grp, DenseScale(m, 15), 15, 0) == 15
  {
    var m := 2.0 * FLOOR;
    var grp := LoneValue(m);
    LoneMaximum(m, 64);
    assert Qmax(5) == 15 by { assert Pow2(4) == 16; }
    assert TranscodeScale(m, 15) == 1.0;
    var d := DenseScale(m, 15);
    QuotientBack(m, 15.0);
    assert 15.0 * d == m && d > 0.0;
    assert m / d == 15.0;
    assert Rint(15.0) == 15 && Rint(m / 1.0) == 0;
    assert CodeAt(grp, 1.0, 15, 0) == 0;
    assert CodeAt(grp, d, 15, 0) == 15;
  }


  // ---- the scale is no larger than it must be ----

  /** The largest codes of the widths in use. */
  lemma {:induction false} QmaxIs()
    ensures Qmax(2) == 1 && Qmax(3) == 3 && Qmax(4) == 7 && Qmax(5) == 15 && Qmax(6) == 31 && Qmax(7) == 63 && Qmax(8) == 127
  {
    assert Pow2(3) == 8 && Pow2(5) == 32 && Pow2(7) == 128;
  }

  /** s reaches every input with qmax steps. */
  predicate Reaches(grp: seq<real>, s: real, qmax: nat) {
    forall k :: 0 <= k < |grp| ==> -(s * qmax as real) <= grp[k] <= s * qmax as real
  }

  /** s reaches every input, one of them exactly, and no smaller scale reaches them all. */
  ghost predicate Tight(grp: seq<real>, s: real, qmax: nat) {
    && Reaches(grp, s, qmax)
    && (exists k :: 0 <= k < |grp| && (s * qmax as real == grp[k] || s * qmax as real == -grp[k]))
    && forall t: real :: t < s ==> !Reaches(grp, t, qmax)
  }

  lemma {:induction false} QuotientIsTight(grp: seq<real>, qmax: nat)
    requires |grp| > 0 && qmax > 0
    ensures Tight(grp, MaxAbs(grp, |grp|) / qmax as real, qmax)
  {
    hide MaxAbs;
    var m, q := MaxAbs(grp, |grp|), qmax as real;
    var s := m / q;
    QuotientBack(m, q);
    Commute(q, s);
    assert s * q == m;
    assert Reaches(grp, s, qmax) by {
      forall k | 0 <= k < |grp| ensures -m <= grp[k] <= m {
        MaxAbsCovers(grp, |grp|, k);
      }
    }
    hide Reaches;
    var k := MaxAbsAttained(grp, |grp|);
    forall t: real | t < s ensures !Reaches(grp, t, qmax) {
      FallsShort(q, t, s);
      TooSmall(grp, t, qmax, k, m);
    }
  }

  lemma {:induction false} TooSmall(grp: seq<real>, t: real, qmax: nat, k: nat, m: real)
    requires k < |grp| && (m == grp[k] || m == -grp[k]) && t * qmax as real < m
    ensures !Reaches(grp, t, qmax)
  {
  }

  lemma {:induction false} FallsShort(q: real, t: real, s: real)
    requires q > 0.0 && t < s
    ensures t * q < q * s
  {
    StrictProduct(q, t, s);
    Commute(q, t);
  }

  /**
   Above its floor each encoder's scale is the smallest that reaches every input; at the floor it
   is 1. The floors are 1e-12 of the scale for the one and of the maximum for the other.
   */
  lemma {:induction false} ScalesAreTight(grp: seq<real>, qmax: nat)
    requires |grp| > 0 && qmax > 0
    ensures var m, t := MaxAbs(grp, |grp|), TranscodeScale(MaxAbs(grp, |grp|), qmax);
            if 1000000000000.0 * (m / qmax as real) >= 1.0 then Tight(grp, t, qmax) else t == 1.0
    ensures var m, d := MaxAbs(grp, |grp|), DenseScale(MaxAbs(grp, |grp|), qmax);
            if 1000000000000.0 * m > 1.0 then Tight(grp, d, qmax) else d == 1.0
  {
    hide MaxAbs, Tight;
    QuotientIsTight(grp, qmax);
  }

  /** Round to nearest: within a half, and to the even neighbour from the middle. */
  lemma {:induction false} RintIs(x: real)
    ensures -0.5 <= x - Rint(x) as real <= 0.5
    ensures x - Rint(x) as real == 0.5 || x - Rint(x) as real == -0.5 ==> Rint(x) % 2 == 0
  {
  }

  /** Of the codes -(qmax + 1) to qmax, the clamped one is the nearest. */
  lemma {:induction false} ClampIsNearest(q: int, qmax: nat, c: int)
    requires -(qmax + 1) <= c <= qmax
    ensures -(qmax + 1) <= Clamp(q, qmax) <= qmax
    ensures (if q < Clamp(q, qmax) then Clamp(q, qmax) - q else q - Clamp(q, qmax)) <= (if q < c then c - q else q - c)
  {
  }

  lemma {:induction false} NearestQuotient(y: real, qmax: nat, c: int)
    requires -(qmax + 1) <= c <= qmax
    ensures Abs(y - Clamp(Rint(y), qmax) as real) <= Abs(y - c as real)
  {
    RintNearest(y);
    var r := Rint(y);
    if r > qmax {
      assert y >= qmax as real;
    } else if r < -(qmax + 1) {
      assert y <= -((qmax + 1) as real);
    } else if c < r {
      assert c + 1 <= r;
    } else if c > r {
      assert c >= r + 1;
    }
  }

  /** How far c steps of this scale are from x. */
  function Gap(x: real, c: int, scale: real): real {
    Abs(x - c as real * scale)
  }

  lemma {:induction false} ScaledGap(x: real, y: real, code: int, scale: real)
    requires scale > 0.0 && scale * y == x
    ensures Gap(x, code, scale) == scale * Abs(y - code as real)
  {
    var c := code as real;
    Distribute(scale, y, c);
    Commute(c, scale);
    assert x - c * scale == scale * (y - c);
    Negate(scale, y - c);
    Product(scale, 0.0, Abs(y - c));
    if y - c > 0.0 {
      Product(scale, 0.0, y - c);
    } else {
      Product(scale, y - c, 0.0);
    }
  }

  /** Of all codes from -(qmax + 1) to qmax, the one chosen decodes nearest to the running value. */
  lemma {:induction false} CodeIsNearest(x: real, scale: real, qmax: nat, c: int)
    requires scale > 0.0 && -(qmax + 1) <= c <= qmax
    ensures -(qmax + 1) <= Code(x, scale, qmax) <= qmax
    ensures Gap(x, Code(x, scale, qmax), scale) <= Gap(x, c, scale)
  {
    hide Abs, Gap, Rint, Clamp;
    var y := x / scale;
    QuotientBack(x, scale);
    ClampIsNearest(Rint(y), qmax, c);
    NearestQuotient(y, qmax, c);
    NearerIsNearer(x, y, Clamp(Rint(y), qmax), c, scale);
  }

  lemma {:induction false} NearerIsNearer(x: real, y: real, code: int, c: int, scale: real)
    requires scale > 0.0 && scale * y == x && Abs(y - code as real) <= Abs(y - c as real)
    ensures Gap(x, code, scale) <= Gap(x, c, scale)
  {
    hide Gap, Abs;
    ScaledGap(x, y, code, scale);
    ScaledGap(x, y, c, scale);
    Product(scale, Abs(y - code as real), Abs(y - c as real));
  }
}
