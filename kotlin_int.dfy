/** The slice of Kotlin's `Int` arithmetic and standard library that the row's
    measure block relies on: the 32-bit range, `/` (which truncates toward zero,
    unlike Dafny's Euclidean `/`), `max`/`coerceAtLeast`, and `maxOrNull`. */
module KotlinInt {

  /** `Int.MIN_VALUE` and `Int.MAX_VALUE`. */
  const IntMin: int := -0x8000_0000
  const IntMax: int := 0x7FFF_FFFF

  /** True if `x` is representable as a Kotlin `Int`. */
  predicate IsInt(x: int) {
    IntMin <= x <= IntMax
  }

  datatype Option<+T> = None | Some(value: T)

  /** Kotlin's `a / b` on `Int` for a positive divisor: the quotient is rounded
      toward zero, so for a negative dividend it lies on or above the exact
      fraction, and for a non-negative one on or below it. */
  function Quot(a: int, b: int): (q: int)
    requires b > 0
    ensures 0 <= a ==> 0 <= q && q * b <= a < q * b + b
    ensures a < 0 ==> q <= 0 && q * b - b < a <= q * b
  {
    if a >= 0 then a / b else -((-a) / b)
  }

  /** The two bounds in `Quot`'s contract pin the quotient down: any `q` that
      meets them is `Quot(a, b)`. */
  lemma {:induction false} QuotUnique(a: int, b: int, q: int)
    requires b > 0
    requires 0 <= a ==> q * b <= a < q * b + b
    requires a < 0 ==> q * b - b < a <= q * b
    ensures q == Quot(a, b)
  {
    var q0 := Quot(a, b);
    if q < q0 {
      assert (q + 1) * b == q * b + b;
      MulMonotonic(q + 1, q0, b);
    } else if q0 < q {
      assert (q0 + 1) * b == q0 * b + b;
      MulMonotonic(q0 + 1, q, b);
    }
  }

  lemma MulMonotonic(x: int, y: int, b: int)
    requires x <= y && 0 < b
    ensures x * b <= y * b
  {
    assert y * b - x * b == (y - x) * b;
  }

  /** Truncating and Euclidean division agree except on a negative dividend that
      the divisor does not divide, where truncation gives one more. */
  lemma QuotVersusEuclid(a: int, b: int)
    requires b > 0
    ensures Quot(a, b) == if 0 <= a || a % b == 0 then a / b else a / b + 1
  {
    var e := a / b;
    assert a == e * b + a % b;
    if 0 <= a || a % b == 0 {
      QuotUnique(a, b, e);
    } else {
      assert (e + 1) * b == e * b + b;
      QuotUnique(a, b, e + 1);
    }
  }

  /** The case the row layout meets when the icon is wider than the row. */
  lemma QuotOfNegativeOdd()
    ensures Quot(-13, 2) == -6 && -13 / 2 == -7
  {
  }

  /** Kotlin's `max(a, b)`; `a.coerceAtLeast(b)` is the same value. */
  function Max(a: int, b: int): (m: int)
    ensures a <= m && b <= m
    ensures m == a || m == b
  {
    if a >= b then a else b
  }

  /** `Iterable<Int>.maxOrNull()`: `null` for an empty list, otherwise the
      running maximum taken left to right, replaced whenever it is below the
      next element. */
  function MaxOrNull(s: seq<int>): (r: Option<int>)
    ensures r.None? <==> |s| == 0
    ensures r.Some? ==> r.value in s
    ensures r.Some? ==> forall i :: 0 <= i < |s| ==> s[i] <= r.value
  {
    if |s| == 0 then None
    else
      var last := s[|s| - 1];
      match MaxOrNull(s[..|s| - 1])
      case None => Some(last)
      case Some(m) => Some(if m < last then last else m)
  }
}
