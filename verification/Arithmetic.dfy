/** Products and quotients of natural numbers, as far as the solver needs to be told. */
module Arithmetic {

  lemma {:induction false} MulGrows(x: nat, y: nat, d: nat)
    requires x <= y
    ensures x * d <= y * d
  {
    if x < y {
      MulGrows(x, y - 1, d);
      assert y * d == (y - 1) * d + d;
    }
  }

  lemma Distribute(a: nat, b: nat, c: nat)
    ensures (a + b) * c == a * c + b * c
  {
  }

  lemma Reorder(a: nat, b: nat, c: nat)
    ensures a * b * c == a * c * b
  {
  }

  /** Quotient and remainder are unique. */
  lemma Divides(p: nat, w: nat, x: nat)
    requires x < w
    ensures (p * w + x) / w == p && (p * w + x) % w == x
  {
    var q := (p * w + x) / w;
    assert p * w + x == q * w + (p * w + x) % w;
    if q < p {
      MulGrows(q + 1, p, w);
      Distribute(q, 1, w);
    } else {
      MulGrows(p, q, w);
      if q > p {
        MulGrows(p + 1, q, w);
        Distribute(p, 1, w);
      }
    }
  }

  // ---------- Powers of two ----------

  function TwoTo(n: nat): (r: nat)
    ensures r > 0
  {
    if n == 0 then 1 else 2 * TwoTo(n - 1)
  }

  /** x >> n, one bit at a time. */
  function ShiftRight(x: nat, n: nat): nat { if n == 0 then x else ShiftRight(x / 2, n - 1) }

  lemma {:induction false} ShiftDivides(x: nat, n: nat)
    ensures ShiftRight(x, n) == x / TwoTo(n)
  {
    if n > 0 {
      ShiftDivides(x / 2, n - 1);
      HalfDivides(x, TwoTo(n - 1));
    }
  }

  lemma HalfDivides(x: nat, d: nat)
    requires d > 0
    ensures x / 2 / d == x / (2 * d)
  {
    var q, t := x / 2 / d, x / 2 % d;
    assert x / 2 == q * d + t;
    assert x == q * (2 * d) + (2 * t + x % 2) by { Reorder(q, 2, d); }
    Divides(q, 2 * d, 2 * t + x % 2);
  }
}
