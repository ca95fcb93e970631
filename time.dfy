/** Time as integer milliseconds since the epoch, as JavaScript `Date` values
    compare and subtract. The wall clock is never read: callers pass a `Clock`. */
module Time {

  const MsPerHour: int := 1000 * 60 * 60
  const MsPerDay: int := 1000 * 60 * 60 * 24

  /** `Math.ceil(a / d)` for a positive divisor, on exact integers. */
  function CeilDiv(a: int, d: int): (q: int)
    requires d > 0
    ensures d * (q - 1) < a <= d * q
  {
    -((-a) / d)
  }

  function Abs(x: int): (r: int)
    ensures r >= 0 && (r == x || r == -x)
  {
    if x < 0 then -x else x
  }

  /** The moment of a request: `now` in UTC milliseconds and the offset of the
      server's local time zone (local time minus UTC, in milliseconds). */
  datatype Clock = Clock(now: int, utcOffset: int)

  /** `new Date().setHours(0, 0, 0, 0)`: the most recent local midnight, i.e. the
      start of the local calendar day that contains `now`. */
  function StartOfDay(c: Clock): (t: int)
    ensures t <= c.now < t + MsPerDay
    ensures (t + c.utcOffset) % MsPerDay == 0
  {
    var local := c.now + c.utcOffset;
    c.now - local % MsPerDay
  }
}
