/** The few Python built-ins the upload code leans on: `None`, `min`, `zip`,
    `range` with a positive step and `str` of an integer, each written out
    with the semantics Python gives it, plus the decimal parser that inverts
    `str` on non-negative integers. */
module Builtins {

  /** Python's `None` versus a present value. */
  datatype Option<T> = None | Some(value: T)

  function Min(a: int, b: int): int
  {
    if a <= b then a else b
  }

  /** The ceiling of `n / d`, for a positive divisor. */
  function CeilDiv(n: nat, d: nat): nat
    requires d > 0
  {
    (n + d - 1) / d
  }

  /** `CeilDiv` is the least `k` with `k * d >= n`. */
  lemma CeilDivBounds(n: nat, d: nat)
    requires d > 0
    ensures CeilDiv(n, d) * d >= n
    ensures CeilDiv(n, d) == 0 || (CeilDiv(n, d) - 1) * d < n
  {
    var k := CeilDiv(n, d);
    var m := n + d - 1;
    assert m == k * d + m % d;
    assert 0 <= m % d < d;
  }

  /** The ceiling is the floor, plus one when the division leaves a remainder. */
  lemma CeilDivFloor(n: nat, d: nat)
    requires d > 0
    ensures CeilDiv(n, d) == n / d + (if n % d == 0 then 0 else 1)
  {
    var q, r := n / d, n % d;
    assert n == q * d + r;
    if r == 0 {
      DivUnique(n + d - 1, d, q, d - 1);
    } else {
      assert n + d - 1 == (q + 1) * d + (r - 1);
      DivUnique(n + d - 1, d, q + 1, r - 1);
    }
  }

  /** Python's `zip(xs, ys)`: pairs elements at equal positions and stops,
      without complaint, at the end of the shorter list. */
  function Zip<X, Y>(xs: seq<X>, ys: seq<Y>): (z: seq<(X, Y)>)
    ensures |z| == Min(|xs|, |ys|)
    ensures forall i :: 0 <= i < |z| ==> z[i] == (xs[i], ys[i])
  {
    if xs == [] || ys == [] then [] else [(xs[0], ys[0])] + Zip(xs[1..], ys[1..])
  }

  /** Python's `range(start, stop, step)` for a positive step: the arithmetic
      progression from `start` that stays strictly below `stop`. */
  function Range(start: int, stop: int, step: nat): (r: seq<int>)
    requires step > 0
    ensures |r| == if start < stop then CeilDiv(stop - start, step) else 0
    ensures forall i :: 0 <= i < |r| ==> r[i] == start + i * step
    decreases stop - start
  {
    if start >= stop then []
    else
      var rest := Range(start + step, stop, step);
      assert |rest| + 1 == CeilDiv(stop - start, step) by {
        CeilDivStep(stop - start, step);
      }
      assert forall i :: 1 <= i <= |rest| ==> start + step + (i - 1) * step == start + i * step by {
        forall i | 1 <= i <= |rest| ensures start + step + (i - 1) * step == start + i * step {
          assert (i - 1) * step == i * step - step;
        }
      }
      [start] + rest
  }

  /** One step of `range` consumes `step` of the distance still to cover. */
  lemma CeilDivStep(d: nat, step: nat)
    requires step > 0 && d > 0
    ensures (if d > step then CeilDiv(d - step, step) else 0) + 1 == CeilDiv(d, step)
  {
    if d > step {
      assert d + step - 1 == (d - step + step - 1) + step;
      DivPlusDivisor(d - step + step - 1, step);
    } else {
      assert step <= d + step - 1 < 2 * step;
      DivInUnitInterval(d + step - 1, step);
    }
  }

  lemma DivPlusDivisor(a: nat, d: nat)
    requires d > 0
    ensures (a + d) / d == a / d + 1
    ensures (a + d) % d == a % d
  {
    assert a + d == (a / d + 1) * d + a % d;
    DivUnique(a + d, d, a / d + 1, a % d);
  }

  lemma DivInUnitInterval(a: nat, d: nat)
    requires d > 0 && d <= a < 2 * d
    ensures a / d == 1
  {
    DivUnique(a, d, 1, a - d);
  }

  /** Euclidean division has exactly one quotient and remainder. */
  lemma DivUnique(a: int, d: int, q: int, r: int)
    requires d > 0 && 0 <= r < d && a == q * d + r
    ensures a / d == q
  {
    if a / d > q {
      MulLeft(a / d, q + 1, d);
    } else if a / d < q {
      MulLeft(q, a / d + 1, d);
    }
  }

  lemma MulLeft(a: int, b: int, d: int)
    requires d > 0 && a >= b
    ensures a * d >= b * d
  {
  }

  predicate IsDigit(c: char)
  {
    '0' <= c <= '9'
  }

  predicate AllDigits(s: string)
  {
    forall i :: 0 <= i < |s| ==> IsDigit(s[i])
  }

  /** The digit character for `d`; '0' is code point 48. */
  function DigitChar(d: nat): char
    requires d < 10
  {
    (48 + d) as char
  }

  /** The decimal digits of a natural number, most significant first, as
      Python's `str` writes them. */
  function Decimal(n: nat): string
  {
    if n < 10 then [DigitChar(n)] else Decimal(n / 10) + [DigitChar(n % 10)]
  }

  /** `Decimal` writes at least one character, and only digits. */
  lemma {:induction false} DecimalDigits(n: nat)
    ensures Decimal(n) != [] && AllDigits(Decimal(n))
  {
    if n >= 10 {
      DecimalDigits(n / 10);
    }
  }

  /** Appending a digit to a positive number appends its character to the
      decimal text. */
  lemma DecimalAppend(q: nat, d: nat)
    requires 0 < q && d < 10
    ensures Decimal(q * 10 + d) == Decimal(q) + [DigitChar(d)]
  {
    DivUnique(q * 10 + d, 10, q, d);
  }

  /** Python's `str(x)` (and an f-string field) for an integer. */
  function Str(x: int): string
  {
    if x < 0 then "-" + Decimal(-x) else Decimal(x)
  }

  /** The value of a string of decimal digits, as a receiver reads it. */
  function ParseDecimal(s: string): nat
    requires AllDigits(s)
  {
    if s == [] then 0
    else ParseDecimal(s[..|s| - 1]) * 10 + ((s[|s| - 1] as int) - ('0' as int))
  }

  /** Writing a natural number in decimal and reading it back is the identity. */
  lemma {:induction false} DecimalRoundTrip(n: nat)
    ensures AllDigits(Decimal(n)) && ParseDecimal(Decimal(n)) == n
  {
    DecimalDigits(n);
    var s := Decimal(n);
    if n >= 10 {
      assert s[..|s| - 1] == Decimal(n / 10);
      DecimalRoundTrip(n / 10);
    }
  }

  /** `str` of a non-negative integer consists of digits that read back as it. */
  lemma StrNonNegative(x: int)
    requires x >= 0
    ensures AllDigits(Str(x)) && Str(x) != [] && ParseDecimal(Str(x)) == x
  {
    DecimalDigits(x);
    DecimalRoundTrip(x);
  }
}
