/** Shared vocabulary of the model: optional values, the time units the app
    works in (milliseconds, as java.util.concurrent.TimeUnit gives them) and
    Kotlin's integer division, which truncates toward zero. */
module Base {

  datatype Option<+T> = None | Some(value: T)

  const SECOND_MILLIS: int := 1000
  const MINUTE_MILLIS: int := 60 * SECOND_MILLIS
  const HOUR_MILLIS: int := 60 * MINUTE_MILLIS
  const DAY_MILLIS: int := 24 * HOUR_MILLIS

  /** Kotlin's `/` on Long: the quotient is truncated toward zero. */
  function KDiv(a: int, b: int): (q: int)
    requires b > 0
    ensures a >= 0 ==> q * b <= a < q * b + b
    ensures a < 0 ==> q * b >= a > q * b - b
  {
    if a >= 0 then a / b else -((-a) / b)
  }

  /** Kotlin's `%` on Long: the remainder takes the sign of the dividend. */
  function KRem(a: int, b: int): (r: int)
    requires b > 0
    ensures a == KDiv(a, b) * b + r
    ensures a >= 0 ==> 0 <= r < b
    ensures a < 0 ==> -b < r <= 0
  {
    a - KDiv(a, b) * b
  }

  /** `coerceAtLeast` */
  function AtLeast(x: int, floor: int): (r: int)
    ensures r >= floor && r >= x && (r == x || r == floor)
  {
    if x < floor then floor else x
  }

  /** `coerceAtMost` */
  function AtMost(x: int, ceiling: int): (r: int)
    ensures r <= ceiling && r <= x && (r == x || r == ceiling)
  {
    if x > ceiling then ceiling else x
  }
}
