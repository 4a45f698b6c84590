/** JavaScript values as the light store sees them: optional keys, numbers that
    may be NaN or infinite, values that may or may not be arrays, Math.PI,
    Math.trunc and the truncating remainder operator `%`. */
module JsValues {

  /** An optional value: `None` stands for `undefined` / `null`. */
  datatype Option<+T> = None | Some(value: T) {
    /** The value, or `default` when there is none. */
    function GetOr(default: T): T {
      match this
      case Some(v) => v
      case None => default
    }
  }

  /** A JavaScript number. A value that is not a number at all behaves like
      `NaN` under `Number.isFinite`, so it is represented by `NaN` too. */
  datatype Num = Finite(value: real) | Infinity(negative: bool) | NaN

  /** `Number.isFinite` */
  predicate IsFinite(n: Num) {
    n.Finite?
  }

  /** A value handed over where a vector is expected: an array of numbers, or
      anything else (`undefined`, an object, a string, ...). */
  datatype JsArray = NotArray | ArrayOf(items: seq<Num>)

  /** The finite numbers of a stored vector, as JavaScript numbers. */
  function Lift(v: seq<real>): (r: seq<Num>)
    ensures |r| == |v|
    ensures forall i :: 0 <= i < |v| ==> r[i] == Finite(v[i])
  {
    seq(|v|, i requires 0 <= i < |v| => Finite(v[i]))
  }

  /** `Math.PI`: the shortest decimal that rounds to the binary64 number
      nearest to pi (not that binary64 number's exact value). */
  const PI: real := 3.141592653589793

  function Max(a: real, b: real): (r: real)
    ensures a <= r && b <= r && (r == a || r == b)
  {
    if a < b then b else a
  }

  function Min(a: real, b: real): (r: real)
    ensures r <= a && r <= b && (r == a || r == b)
  {
    if a < b then a else b
  }

  /** `Math.trunc`: rounds towards zero. */
  function Trunc(x: real): (t: int)
    ensures 0.0 <= x ==> 0 <= t && 0.0 <= x - t as real < 1.0
    ensures x < 0.0 ==> t <= 0 && -1.0 < x - t as real <= 0.0
  {
    if 0.0 <= x then x.Floor else -((-x).Floor)
  }

  /** `r % m` for finite operands and a positive divisor: the remainder of the
      division truncated towards zero, which takes the sign of `r`. */
  function TruncRem(r: real, m: real): (rem: real)
    requires 0.0 < m
    ensures Congruent(rem, r, m)
  {
    var t := Trunc(r / m);
    assert m * (-t) as real == -(m * t as real);
    assert (r - m * t as real) - r == Turns(m, -t);
    r - m * t as real
  }

  /** `k` whole turns of size `m`. */
  function Turns(m: real, k: int): real {
    m * k as real
  }

  /** `a` and `b` are equal up to whole turns of size `m`. */
  ghost predicate Congruent(a: real, b: real, m: real) {
    exists k: int :: a - b == Turns(m, k)
  }

  lemma QuotientTimesDivisor(r: real, m: real)
    requires 0.0 < m
    ensures r / m * m == r
  {
  }

  /** Scaling by a positive factor keeps a strict order. */
  lemma ScaleLess(m: real, x: real, y: real)
    requires 0.0 < m && x < y
    ensures m * x < m * y
  {
    assert m * y - m * x == m * (y - x);
  }

  /** Scaling a number in [lo, hi) by a positive factor keeps it in the
      scaled interval. */
  lemma ScaleBetween(m: real, lo: real, x: real, hi: real)
    requires 0.0 < m && lo <= x < hi
    ensures m * lo <= m * x < m * hi
  {
    if lo < x {
      ScaleLess(m, lo, x);
    }
    ScaleLess(m, x, hi);
  }

  /** The part of the quotient `r / m` that `Math.trunc` cuts off. */
  function Frac(r: real, m: real): real
    requires 0.0 < m
  {
    r / m - Trunc(r / m) as real
  }

  /** The remainder is the divisor times the fractional part of the
      quotient, and that part has the dividend's sign and is below 1 in
      size. */
  lemma TruncRemFraction(r: real, m: real)
    requires 0.0 < m
    ensures TruncRem(r, m) == m * Frac(r, m)
    ensures 0.0 <= r ==> 0.0 <= Frac(r, m) < 1.0
    ensures r < 0.0 ==> -1.0 < Frac(r, m) <= 0.0
  {
    var q := r / m;
    var t := Trunc(q) as real;
    QuotientTimesDivisor(r, m);
    assert m * q == r;
    assert m * (q - t) == m * q - m * t;
    if 0.0 <= r && q < 0.0 {
      ScaleLess(m, q, 0.0);
    }
    if r < 0.0 && 0.0 < q {
      ScaleLess(m, 0.0, q);
    }
  }

  /** A fraction of a positive divisor is smaller than the divisor in size
      and has the fraction's sign. */
  lemma ScaledFractionBounds(m: real, frac: real)
    requires 0.0 < m
    ensures 0.0 <= frac < 1.0 ==> 0.0 <= m * frac < m
    ensures -1.0 < frac <= 0.0 ==> -m < m * frac <= 0.0
  {
    if 0.0 <= frac < 1.0 {
      ScaleBetween(m, 0.0, frac, 1.0);
    }
    if -1.0 < frac <= 0.0 {
      ScaleBetween(m, 0.0, -frac, 1.0);
      assert m * -frac == -(m * frac);
    }
  }

  /** For a non-negative dividend the remainder lies in [0, m). */
  lemma TruncRemNonNegative(r: real, m: real)
    requires 0.0 < m && 0.0 <= r
    ensures 0.0 <= TruncRem(r, m) < m
  {
    TruncRemFraction(r, m);
    var f := Frac(r, m);
    ScaledFractionBounds(m, f);
    assert 0.0 <= m * f < m;
  }

  /** For a negative dividend the remainder lies in (-m, 0]. */
  lemma TruncRemNegative(r: real, m: real)
    requires 0.0 < m && r < 0.0
    ensures -m < TruncRem(r, m) <= 0.0
  {
    TruncRemFraction(r, m);
    var f := Frac(r, m);
    ScaledFractionBounds(m, f);
    assert -m < m * f <= 0.0;
  }

  /** The remainder keeps the sign of the dividend, is smaller than the
      divisor in size, and differs from the dividend by a multiple of it. */
  lemma TruncRemBounds(r: real, m: real)
    requires 0.0 < m
    ensures 0.0 <= r ==> 0.0 <= TruncRem(r, m) < m
    ensures r < 0.0 ==> -m < TruncRem(r, m) <= 0.0
    ensures Congruent(TruncRem(r, m), r, m)
  {
    if 0.0 <= r {
      TruncRemNonNegative(r, m);
    } else {
      TruncRemNegative(r, m);
    }
  }

  /** On a dividend already inside (-m, m) the remainder changes nothing. */
  lemma TruncRemSmall(r: real, m: real)
    requires 0.0 < m && -m < r < m
    ensures TruncRem(r, m) == r
  {
    var q := r / m;
    QuotientTimesDivisor(r, m);
    if 1.0 < q {
      ScaleLess(m, 1.0, q);
    }
    if q < -1.0 {
      ScaleLess(m, q, -1.0);
    }
    assert -1.0 < q < 1.0;
    assert Trunc(q) == 0;
  }
}
