/** Instants and durations as the Go kernel counts them: integer nanoseconds since the epoch. */
module GoTime {

  const SECOND: int := 1_000_000_000
  const DAY_SECONDS: int := 86_400
  const DAY: int := DAY_SECONDS * SECOND
  const MAX_DURATION: int := 0x7FFF_FFFF_FFFF_FFFF
  const MIN_DURATION: int := -0x8000_0000_0000_0000

  type Int64 = x: int | MIN_DURATION <= x <= MAX_DURATION

  /** `a.Sub(b)`: the elapsed nanoseconds, saturated to the 64-bit duration range. */
  function Sub(a: int, b: int): (d: int)
    ensures MIN_DURATION <= d <= MAX_DURATION
    ensures MIN_DURATION <= a - b <= MAX_DURATION ==> d == a - b
    ensures a <= b ==> a - b <= d <= 0
    ensures b <= a ==> 0 <= d <= a - b
  {
    if a - b > MAX_DURATION then MAX_DURATION
    else if a - b < MIN_DURATION then MIN_DURATION
    else a - b
  }

  /** Two's-complement 64-bit wrap-around. */
  function Wrap64(x: int): (r: int)
    ensures MIN_DURATION <= r <= MAX_DURATION
    ensures MIN_DURATION <= x <= MAX_DURATION ==> r == x
  {
    (x - MIN_DURATION) % 0x1_0000_0000_0000_0000 + MIN_DURATION
  }

  /** Go's `/`: the quotient truncated toward zero. */
  function Quo(a: int, b: int): int
    requires b > 0
  {
    if a >= 0 then a / b else -((-a) / b)
  }

  /** The kernel's floor division of a span by a day, built on the truncating quotient. */
  function FloorDays(span: int): (days: int)
    ensures days * DAY <= span < (days + 1) * DAY
  {
    var q := Quo(span, DAY);
    if span - q * DAY != 0 && span < 0 then q - 1 else q
  }

  /** The UTC calendar-day index of an instant. */
  function UtcDay(at: int): int { at / DAY }
}
