// Vocabulary shared by every component model: optional values, raised errors,
// and the few real-number and sequence helpers that more than one module needs.
module Prelude {

  /** `None` stands for a NaN cell of a series, a missing dictionary entry or a Python `None`. */
  datatype Option<+T> = None | Some(value: T)

  /** `Err` stands for a raised `ValueError`. */
  datatype Result<+T> = Ok(value: T) | Err(error: string)

  function Abs(x: real): real {
    if x < 0.0 then -x else x
  }

  function Min(x: real, y: real): real {
    if x <= y then x else y
  }

  function Max(x: real, y: real): real {
    if x >= y then x else y
  }

  /** The running total of a series, read from its last cell backwards. */
  function Sum(xs: seq<real>): real {
    if xs == [] then 0.0 else Sum(xs[..|xs| - 1]) + xs[|xs| - 1]
  }

  function Last<T>(xs: seq<T>): T
    requires xs != []
  {
    xs[|xs| - 1]
  }

  function Front<T>(xs: seq<T>): seq<T>
    requires xs != []
  {
    xs[..|xs| - 1]
  }

  /** What a `deque(maxlen=n)` holds after the items of `xs` were appended in turn. */
  function LastN<T>(xs: seq<T>, n: nat): seq<T> {
    if |xs| <= n then xs else xs[|xs| - n..]
  }

  lemma LastNSnoc<T>(xs: seq<T>, x: T, n: nat)
    ensures LastN(LastN(xs, n) + [x], n) == LastN(xs + [x], n)
  {
  }

  /** How many timestamps lie at or after the cutoff. */
  function CountSince(times: seq<real>, cutoff: real): nat {
    if times == [] then 0
    else CountSince(Front(times), cutoff) + if Last(times) >= cutoff then 1 else 0
  }

  // ----- Products and quotients of reals, one fact at a time ------------------------

  lemma RatioNonNegative(a: real, b: real)
    requires a >= 0.0 && b > 0.0
    ensures a / b >= 0.0
  {
  }

  lemma ProductNonNegative(a: real, b: real)
    requires a >= 0.0 && b >= 0.0
    ensures a * b >= 0.0
  {
  }

  function Square(x: real): real {
    x * x
  }

  lemma SquareNonNegative(x: real)
    ensures Square(x) >= 0.0
  {
  }

  lemma CancelFactor(n: real, a: real, b: real)
    requires n > 0.0 && n * a <= n * b
    ensures a <= b
  {
    if a > b {
      ProductPositive(n, a - b);
      assert false;
    }
  }

  lemma ProductPositive(a: real, b: real)
    requires a > 0.0 && b > 0.0
    ensures a * b > 0.0
  {
  }

  lemma PositiveFactor(a: real, b: real)
    requires b > 0.0 && a * b > 0.0
    ensures a > 0.0
  {
    if a <= 0.0 {
      ProductNonNegative(-a, b);
      assert false;
    }
  }

  lemma SquareOfProduct(a: real, b: real)
    ensures (a * b) * (a * b) == (b * b) * (a * a)
  {
  }

  lemma EqualQuotients(a: real, b: real, c: real, d: real)
    requires b > 0.0 && d > 0.0 && a * d == c * b
    ensures a / b == c / d
  {
    var x, y := a / b, c / d;
    assert x * b == a && y * d == c;
    assert (x * b) * d == (y * d) * b;
    assert x * (b * d) == y * (b * d);
    ProductPositive(b, d);
    CancelFactor(b * d, x, y);
    CancelFactor(b * d, y, x);
  }

  lemma AddQuotients(a: real, b: real, s: real, c: real)
    requires s > 0.0 && a + b == c * s
    ensures a / s + b / s == c
  {
    assert a / s + b / s == (a + b) / s;
  }

  lemma QuotientOrder(a: real, b: real, c: real, d: real)
    requires b > 0.0 && d > 0.0 && a * d <= c * b
    ensures a / b <= c / d
  {
    var x, y := a / b, c / d;
    assert x * b == a && y * d == c;
    assert (x * b) * d <= (y * d) * b;
    assert x * (b * d) <= y * (b * d);
    ProductPositive(b, d);
    CancelFactor(b * d, x, y);
  }

  /** k copies of x added up: a product that stays linear for the verifier. */
  function Times(k: nat, x: real): real {
    if k == 0 then 0.0 else Times(k - 1, x) + x
  }

  lemma {:induction false} TimesIsProduct(k: nat, x: real)
    ensures Times(k, x) == k as real * x
  {
    if k > 0 {
      TimesIsProduct(k - 1, x);
      assert k as real * x == (k - 1) as real * x + x;
    }
  }

  lemma {:induction false} TimesMonotone(j: nat, k: nat, x: real)
    requires x >= 0.0 && j <= k
    ensures 0.0 <= Times(j, x) <= Times(k, x)
    decreases k
  {
    if j < k {
      TimesMonotone(j, k - 1, x);
    } else if j > 0 {
      TimesMonotone(j - 1, j - 1, x);
    }
  }
}
