/** The open-short-load calibration of the vector network analyzer, over the complex numbers. */
module Calibration {

  datatype Complex = Complex(re: real, im: real) {
    function Plus(w: Complex): Complex { Complex(re + w.re, im + w.im) }

    function Minus(w: Complex): Complex { Complex(re - w.re, im - w.im) }

    function Times(w: Complex): Complex { Complex(re * w.re - im * w.im, re * w.im + im * w.re) }

    function Scale(k: real): Complex { Complex(k * re, k * im) }

    /** The square of the magnitude. */
    function Norm(): real { re * re + im * im }

    /** The quotient, where the divisor is not zero. */
    function Over(w: Complex): Complex
      requires w.Norm() != 0.0
    {
      var n := w.Norm();
      Complex((re * w.re + im * w.im) / n, (im * w.re - re * w.im) / n)
    }
  }

  const ZERO := Complex(0.0, 0.0)
  const REFERENCE := Complex(50.0, 0.0)

  // ---------- The program's formulas, at one frequency ----------

  function Numerator(open: Complex, short: Complex, load: Complex, dut: Complex): Complex {
    open.Minus(load).Scale(50.0).Times(dut.Minus(short))
  }

  function Denominator(open: Complex, short: Complex, load: Complex, dut: Complex): Complex {
    load.Minus(short).Times(open.Minus(dut))
  }

  /** impedance, before its clamp. */
  function RawImpedance(open: Complex, short: Complex, load: Complex, dut: Complex): Complex
    requires Denominator(open, short, load, dut).Norm() != 0.0
  {
    Numerator(open, short, load, dut).Over(Denominator(open, short, load, dut))
  }

  function Clamp(z: Complex): (r: Complex)
    ensures r.re > 0.0
  {
    if z.re < 0.01 then Complex(0.00999, z.im) else z
  }

  function Gamma(z: Complex): Complex
    requires z.Plus(REFERENCE).Norm() != 0.0
  {
    z.Minus(REFERENCE).Over(z.Plus(REFERENCE))
  }

  /** The standing wave ratio for a magnitude of the reflection coefficient. */
  function SwrQuotient(magnitude: real): real
    requires magnitude != 1.0
  {
    (1.0 + magnitude) / (1.0 - magnitude)
  }

  function Clip(swr: real): real { if swr < 1.0 then 1.0 else if swr > 99.99 then 99.99 else swr }

  // ---------- The error network ----------

  /** What stands between the analyzer and the standards. */
  datatype Network = Network(a: Complex, b: Complex, c: Complex, d: Complex) {
    function Determinant(): Complex { a.Times(d).Minus(b.Times(c)) }

    function Top(z: Complex): Complex { a.Times(z).Plus(b) }

    function Bottom(z: Complex): Complex { c.Times(z).Plus(d) }

    function Measured(z: Complex): Complex
      requires Bottom(z).Norm() != 0.0
    {
      Top(z).Over(Bottom(z))
    }

    /** The reading for an infinite impedance. */
    function MeasuredOpen(): Complex
      requires c.Norm() != 0.0
    {
      a.Over(c)
    }

    predicate Regular(z: Complex) {
      && Determinant().Norm() != 0.0 && c.Norm() != 0.0
      && Bottom(ZERO).Norm() != 0.0 && Bottom(REFERENCE).Norm() != 0.0 && Bottom(z).Norm() != 0.0
    }
  }

  /** With ideal standards the formula inverts every regular network. */
  lemma CalibrationIsExact(n: Network, z: Complex)
    requires n.Regular(z)
    ensures var open, short, load, dut := n.MeasuredOpen(), n.Measured(ZERO), n.Measured(REFERENCE), n.Measured(z);
      Denominator(open, short, load, dut).Norm() != 0.0 && RawImpedance(open, short, load, dut) == z
  {
    var open, short, load, dut := n.MeasuredOpen(), n.Measured(ZERO), n.Measured(REFERENCE), n.Measured(z);
    var det := n.Determinant();
    var c, s, l, m := n.c, n.Bottom(ZERO), n.Bottom(REFERENCE), n.Bottom(z);
    Differences(n, z);
    // Both products of differences carry the same factor.
    var k := c.Times(l).Times(s.Times(m));
    Regroup(open.Minus(load), dut.Minus(short), c.Times(l), s.Times(m));
    Regroup(load.Minus(short), open.Minus(dut), s.Times(l), c.Times(m));
    SameFactor(c, l, s, m);
    var top, bottom := Numerator(open, short, load, dut), Denominator(open, short, load, dut);
    assert open.Minus(load).Times(dut.Minus(short)).Times(k) == det.Times(z.Times(det));
    assert bottom.Times(k) == det.Scale(50.0).Times(det);
    Scaled(open.Minus(load), dut.Minus(short), k, 50.0);
    Rearranged(det, z);
    assert top.Times(k) == z.Times(bottom.Times(k));
    NonZero(c, l, s, m, det, bottom, k);
    Cancels(top, z, bottom, k);
  }

  /** Each difference of two readings, times both denominators. */
  lemma Differences(n: Network, z: Complex)
    requires n.Regular(z)
    ensures var open, short, load, dut := n.MeasuredOpen(), n.Measured(ZERO), n.Measured(REFERENCE), n.Measured(z);
      var det, s, l, m := n.Determinant(), n.Bottom(ZERO), n.Bottom(REFERENCE), n.Bottom(z);
      && open.Minus(load).Times(n.c.Times(l)) == det
      && dut.Minus(short).Times(s.Times(m)) == z.Times(det)
      && load.Minus(short).Times(s.Times(l)) == det.Scale(50.0)
      && open.Minus(dut).Times(n.c.Times(m)) == det
  {
    OpenMinus(n, REFERENCE);
    OpenMinus(n, z);
    MinusShort(n, REFERENCE);
    MinusShort(n, z);
    assert REFERENCE.Times(n.Determinant()) == n.Determinant().Scale(50.0);
  }

  lemma OpenMinus(n: Network, z: Complex)
    requires n.c.Norm() != 0.0 && n.Bottom(z).Norm() != 0.0
    ensures n.MeasuredOpen().Minus(n.Measured(z)).Times(n.c.Times(n.Bottom(z))) == n.Determinant()
  {
    CommonDenominator(n.a, n.c, n.Top(z), n.Bottom(z));
    OpenIdentity(n.a, n.b, n.c, n.d, z);
  }

  lemma MinusShort(n: Network, z: Complex)
    requires n.Bottom(ZERO).Norm() != 0.0 && n.Bottom(z).Norm() != 0.0
    ensures n.Measured(z).Minus(n.Measured(ZERO)).Times(n.Bottom(ZERO).Times(n.Bottom(z))) == z.Times(n.Determinant())
  {
    Commute(n.Bottom(ZERO), n.Bottom(z));
    CommonDenominator(n.Top(z), n.Bottom(z), n.Top(ZERO), n.Bottom(ZERO));
    assert n.Top(ZERO) == n.b && n.Bottom(ZERO) == n.d;
    ShortIdentity(n.a, n.b, n.c, n.d, z);
  }

  lemma OpenIdentity(a: Complex, b: Complex, c: Complex, d: Complex, z: Complex)
    ensures a.Times(c.Times(z).Plus(d)).Minus(a.Times(z).Plus(b).Times(c)) == a.Times(d).Minus(b.Times(c))
  {
    Associate(a, c, z);
    Associate(a, z, c);
    Commute(z, c);
    Distribute(a, c.Times(z), d);
    Commute(a.Times(z).Plus(b), c);
    Distribute(c, a.Times(z), b);
    Commute(c, a.Times(z));
    Commute(c, b);
  }

  lemma ShortIdentity(a: Complex, b: Complex, c: Complex, d: Complex, z: Complex)
    ensures a.Times(z).Plus(b).Times(d).Minus(b.Times(c.Times(z).Plus(d))) == z.Times(a.Times(d).Minus(b.Times(c)))
  {
    Commute(a.Times(z).Plus(b), d);
    Distribute(d, a.Times(z), b);
    Distribute(b, c.Times(z), d);
    Commute(d, b);
    var azd, bcz := d.Times(a.Times(z)), b.Times(c.Times(z));
    Commute(d, a.Times(z));
    Commute(a, z);
    Associate(z, a, d);
    Associate(b, c, z);
    Commute(b.Times(c), z);
    Distribute(z, a.Times(d), b.Times(c).Scale(-1.0));
    assert z.Times(b.Times(c).Scale(-1.0)) == z.Times(b.Times(c)).Scale(-1.0);
  }

  // ---------- Arithmetic of complex numbers ----------

  lemma Commute(x: Complex, y: Complex)
    ensures x.Times(y) == y.Times(x)
  {
  }

  lemma Associate(x: Complex, y: Complex, z: Complex)
    ensures x.Times(y).Times(z) == x.Times(y.Times(z))
  {
  }

  lemma Distribute(x: Complex, y: Complex, z: Complex)
    ensures x.Times(y.Plus(z)) == x.Times(y).Plus(x.Times(z))
    ensures x.Times(y.Minus(z)) == x.Times(y).Minus(x.Times(z))
  {
    DistributePlus(x, y, z);
    DistributePlus(x, y, z.Scale(-1.0));
    ScaleOut(x, z, -1.0);
    assert y.Plus(z.Scale(-1.0)) == y.Minus(z);
  }

  lemma DistributePlus(x: Complex, y: Complex, z: Complex)
    ensures x.Times(y.Plus(z)) == x.Times(y).Plus(x.Times(z))
  {
  }

  lemma NormOfProduct(x: Complex, y: Complex)
    ensures x.Times(y).Norm() == x.Norm() * y.Norm()
  {
  }

  lemma OverTimes(x: Complex, w: Complex)
    requires w.Norm() != 0.0
    ensures x.Over(w).Times(w) == x
  {
    var n, q := w.Norm(), x.Over(w);
    assert q.re * n == x.re * w.re + x.im * w.im;
    assert q.im * n == x.im * w.re - x.re * w.im;
    assert q.Times(w).re * n == x.re * n;
    assert q.Times(w).im * n == x.im * n;
  }

  lemma TimesOver(x: Complex, w: Complex)
    requires w.Norm() != 0.0
    ensures x.Times(w).Over(w) == x
  {
    var y, n := x.Times(w), w.Norm();
    assert y.re * w.re + y.im * w.im == x.re * n;
    assert y.im * w.re - y.re * w.im == x.im * n;
  }

  lemma CommonDenominator(p: Complex, x: Complex, q: Complex, y: Complex)
    requires x.Norm() != 0.0 && y.Norm() != 0.0
    ensures p.Over(x).Minus(q.Over(y)).Times(x.Times(y)) == p.Times(y).Minus(q.Times(x))
  {
    var u, v := p.Over(x), q.Over(y);
    OverTimes(p, x);
    OverTimes(q, y);
    Commute(u.Minus(v), x.Times(y));
    Distribute(x.Times(y), u, v);
    Commute(x.Times(y), u);
    Commute(x.Times(y), v);
    Associate(u, x, y);
    Commute(x, y);
    Associate(v, y, x);
  }

  lemma Regroup(x: Complex, y: Complex, u: Complex, v: Complex)
    ensures x.Times(y).Times(u.Times(v)) == x.Times(u).Times(y.Times(v))
  {
    Associate(x, y, u.Times(v));
    Associate(y, u, v);
    Commute(y, u);
    Associate(u, y, v);
    Associate(x, u, y.Times(v));
  }

  lemma SameFactor(c: Complex, l: Complex, s: Complex, m: Complex)
    ensures s.Times(l).Times(c.Times(m)) == c.Times(l).Times(s.Times(m))
  {
    Commute(s, l);
    Commute(c, l);
    Regroup(l, s, c, m);
    Regroup(l, c, s, m);
  }

  lemma Scaled(x: Complex, y: Complex, k: Complex, f: real)
    ensures x.Scale(f).Times(y).Times(k) == x.Times(y).Times(k).Scale(f)
  {
    ScaleOut(x, y, f);
    ScaleOut(x.Times(y), k, f);
  }

  lemma ScaleOut(x: Complex, y: Complex, f: real)
    ensures x.Scale(f).Times(y) == x.Times(y).Scale(f) == x.Times(y.Scale(f))
  {
  }

  lemma Rearranged(det: Complex, z: Complex)
    ensures det.Times(z.Times(det)).Scale(50.0) == z.Times(det.Scale(50.0).Times(det))
  {
    Associate(det, z, det);
    Commute(det, z);
    Associate(z, det, det);
    ScaleOut(det, det, 50.0);
    ScaleOut(z, det.Times(det), 50.0);
  }

  lemma NonZero(c: Complex, l: Complex, s: Complex, m: Complex, det: Complex, bottom: Complex, k: Complex)
    requires c.Norm() != 0.0 && l.Norm() != 0.0 && s.Norm() != 0.0 && m.Norm() != 0.0 && det.Norm() != 0.0
    requires k == c.Times(l).Times(s.Times(m)) && bottom.Times(k) == det.Scale(50.0).Times(det)
    ensures k.Norm() != 0.0 && bottom.Norm() != 0.0
  {
    NormOfProduct(c, l);
    NormOfProduct(s, m);
    NormOfProduct(c.Times(l), s.Times(m));
    NormOfProduct(bottom, k);
    NormOfProduct(det.Scale(50.0), det);
    assert det.Scale(50.0).Norm() == 2500.0 * det.Norm();
  }

  lemma Cancels(top: Complex, z: Complex, bottom: Complex, k: Complex)
    requires k.Norm() != 0.0 && bottom.Norm() != 0.0 && top.Times(k) == z.Times(bottom.Times(k))
    ensures top.Over(bottom) == z
  {
    Associate(z, bottom, k);
    TimesOver(top, k);
    TimesOver(z.Times(bottom), k);
    TimesOver(z, bottom);
  }

  // ---------- Reflection and standing wave ratio ----------

  /** The reflection is smaller than the incident wave exactly for a positive resistance. */
  lemma PassiveIff(z: Complex)
    requires z.Plus(REFERENCE).Norm() != 0.0
    ensures Gamma(z).Norm() < 1.0 <==> z.re > 0.0
  {
    var g, n := Gamma(z).Norm(), z.Plus(REFERENCE).Norm();
    GammaNorm(z);
    var sum, square := (z.re + 50.0) * (z.re + 50.0), (z.re - 50.0) * (z.re - 50.0);
    assert sum - square == 200.0 * z.re;
    Compare(g, n, square + z.im * z.im, z.re);
  }

  lemma Compare(g: real, n: real, p: real, re: real)
    requires n > 0.0 && g * n == p && n - p == 200.0 * re
    ensures g < 1.0 <==> re > 0.0
  {
    Below(g, n);
  }

  lemma Below(g: real, n: real)
    requires n > 0.0
    ensures g * n < n <==> g < 1.0
  {
    if g < 1.0 {
      assert (1.0 - g) * n > 0.0;
    } else {
      assert (g - 1.0) * n >= 0.0;
    }
  }

  lemma ClampedDivides(z: Complex)
    requires z.re > 0.0
    ensures z.Plus(REFERENCE).Norm() > 0.0
  {
    var q := z.Plus(REFERENCE);
    assert q.re * q.re > 0.0 && q.im * q.im >= 0.0;
  }

  /** The reflection coefficient of an impedance with a positive resistance: no division by zero. */
  function Reflection(z: Complex): Complex
    requires z.re > 0.0
  {
    ClampedDivides(z);
    Gamma(z)
  }

  /** The clamp only lifts a resistance below 0.01; the reflection is the one that belongs to the impedance, in magnitude and phase. */
  lemma ReflectionIs(raw: Complex)
    ensures var z := Clamp(raw);
      && z.im == raw.im && (raw.re >= 0.01 ==> z.re == raw.re) && (raw.re < 0.01 ==> 0.0 < z.re < 0.01 && 100000.0 * z.re == 999.0)
      && forall g: Complex :: g == Reflection(z) <==> g.Times(z.Plus(REFERENCE)) == z.Minus(REFERENCE)
  {
    var z := Clamp(raw);
    ClampedDivides(z);
    OverTimes(z.Minus(REFERENCE), z.Plus(REFERENCE));
    forall g: Complex | g.Times(z.Plus(REFERENCE)) == z.Minus(REFERENCE) ensures g == Reflection(z) {
      TimesOver(g, z.Plus(REFERENCE));
    }
  }

  /** For every clamped impedance the ratio exists, is at least 1, and is 1 only for a perfect match. */
  lemma SwrIsSound(raw: Complex, magnitude: real)
    requires magnitude >= 0.0 && magnitude * magnitude == Reflection(Clamp(raw)).Norm()
    ensures Clamp(raw).Plus(REFERENCE).Norm() != 0.0
    ensures magnitude < 1.0 && SwrQuotient(magnitude) >= 1.0
    ensures SwrQuotient(magnitude) == 1.0 <==> raw == REFERENCE
    ensures Clip(SwrQuotient(magnitude)) == if SwrQuotient(magnitude) > 99.99 then 99.99 else SwrQuotient(magnitude)
  {
    var z := Clamp(raw);
    ClampedDivides(z);
    SwrOf(z, magnitude, Gamma(z).Norm());
  }

  lemma SwrOf(z: Complex, m: real, g: real)
    requires z.re > 0.0 && m >= 0.0 && z.Plus(REFERENCE).Norm() != 0.0 && m * m == g == Gamma(z).Norm()
    ensures m < 1.0 && SwrQuotient(m) >= 1.0 && (SwrQuotient(m) == 1.0 <==> z == REFERENCE)
  {
    PassiveIff(z);
    MatchedIff(z);
    RatioOfSquare(m, g);
  }

  lemma RatioOfSquare(m: real, g: real)
    requires m >= 0.0 && m * m == g < 1.0
    ensures m < 1.0 && SwrQuotient(m) >= 1.0 && (SwrQuotient(m) == 1.0 <==> g == 0.0)
  {
    Root(m);
    Ratio(m);
    IsSquare(m, g);
  }

  lemma Positive(x: real, y: real, p: real)
    requires x > 0.0 && y > 0.0 && p == x * y
    ensures p > 0.0
  {
  }

  /** A positive factor keeps the sign. */
  lemma Sign(x: real, n: real)
    requires n > 0.0
    ensures x * n >= 0.0 <==> x >= 0.0
    ensures x * n == 0.0 <==> x == 0.0
  {
    if x > 0.0 {
      Positive(x, n, x * n);
    } else if x < 0.0 {
      var y := -x;
      assert y * n == -(x * n);
      Positive(y, n, -(x * n));
    }
  }

  lemma Root(m: real)
    requires m >= 0.0
    ensures m >= 1.0 ==> m * m >= 1.0
  {
    if m > 1.0 { Positive(m - 1.0, m, m * m - m); }
  }

  lemma IsSquare(m: real, g: real)
    requires g == m * m
    ensures g >= 0.0 && (g == 0.0 <==> m == 0.0)
  {
    if m > 0.0 {
      Positive(m, m, g);
    } else if m < 0.0 {
      var k := -m;
      assert k * k == m * m;
      Positive(k, k, g);
    } else {
      assert m * m == 0.0;
    }
  }

  lemma Ratio(m: real)
    requires 0.0 <= m < 1.0
    ensures SwrQuotient(m) >= 1.0 && (SwrQuotient(m) == 1.0 <==> m == 0.0)
  {
    var q := SwrQuotient(m);
    assert q * (1.0 - m) == 1.0 + m;
    assert (q - 1.0) * (1.0 - m) == q * (1.0 - m) - (1.0 - m) == 2.0 * m;
    Sign(q - 1.0, 1.0 - m);
  }

  lemma MatchedIff(z: Complex)
    requires z.Plus(REFERENCE).Norm() != 0.0
    ensures Gamma(z).Norm() == 0.0 <==> z == REFERENCE
  {
    GammaNorm(z);
    VanishesIff(Gamma(z).Norm(), z.Plus(REFERENCE).Norm(), z.re - 50.0, z.im);
  }

  lemma VanishesIff(g: real, n: real, re: real, im: real)
    requires n > 0.0 && g * n == re * re + im * im
    ensures g == 0.0 <==> re == 0.0 && im == 0.0
  {
    Sign(g, n);
    IsSquare(re, re * re);
    IsSquare(im, im * im);
    assert g * n == 0.0 <==> re * re == 0.0 && im * im == 0.0;
  }

  lemma GammaNorm(z: Complex)
    requires z.Plus(REFERENCE).Norm() != 0.0
    ensures z.Plus(REFERENCE).Norm() > 0.0
    ensures Gamma(z).Norm() * z.Plus(REFERENCE).Norm() == (z.re - 50.0) * (z.re - 50.0) + z.im * z.im
  {
    var p, q := z.Minus(REFERENCE), z.Plus(REFERENCE);
    OverTimes(p, q);
    NormOfProduct(Gamma(z), q);
    IsSquare(q.re, q.re * q.re);
    IsSquare(q.im, q.im * q.im);
  }

  /** For a pure resistance the ratio is the resistance over 50 ohms, or its inverse. */
  lemma SwrOfResistance(r: real)
    requires r > 0.0
    ensures var m := if r >= 50.0 then (r - 50.0) / (r + 50.0) else (50.0 - r) / (r + 50.0);
      && 0.0 <= m < 1.0 && Complex(r, 0.0).Plus(REFERENCE).Norm() != 0.0 && m * m == Gamma(Complex(r, 0.0)).Norm()
      && SwrQuotient(m) == if r >= 50.0 then r / 50.0 else 50.0 / r
  {
    var s, t := r + 50.0, if r >= 50.0 then r - 50.0 else 50.0 - r;
    var m := t / s;
    assert m * s == t;
    Sign(m, s);
    Below(m, s);
    GammaOfResistance(r, m);
    Proportion(SwrQuotient(m), m, s, t);
    if r >= 50.0 {
      assert SwrQuotient(m) * 100.0 == 2.0 * r;
    } else {
      SameQuotient(SwrQuotient(m), 50.0 / r, r);
    }
  }

  lemma Proportion(q: real, m: real, s: real, t: real)
    requires m < 1.0 && q == SwrQuotient(m) && m * s == t
    ensures q * (s - t) == s + t
  {
    assert q * (1.0 - m) == 1.0 + m;
    assert (1.0 - m) * s == s - t && (1.0 + m) * s == s + t;
    assert q * ((1.0 - m) * s) == (q * (1.0 - m)) * s;
  }

  lemma GammaOfResistance(r: real, m: real)
    requires r > 0.0 && m * (r + 50.0) == (if r >= 50.0 then r - 50.0 else 50.0 - r)
    ensures Complex(r, 0.0).Plus(REFERENCE).Norm() != 0.0 && m * m == Gamma(Complex(r, 0.0)).Norm()
  {
    var z, s := Complex(r, 0.0), r + 50.0;
    ClampedDivides(z);
    OverTimes(z.Minus(REFERENCE), z.Plus(REFERENCE));
    NormOfProduct(Gamma(z), z.Plus(REFERENCE));
    assert z.Plus(REFERENCE).Norm() == s * s;
    assert z.Minus(REFERENCE).Norm() == (r - 50.0) * (r - 50.0) == (m * s) * (m * s) == (m * m) * (s * s);
    SameQuotient(Gamma(z).Norm(), m * m, s * s);
  }

  lemma SameQuotient(x: real, y: real, n: real)
    requires n != 0.0 && x * n == y * n
    ensures x == y
  {
    assert (x - y) * n == 0.0;
  }
}
