/**
 * The clock readings the components make, as functions of the current
 * instant and of the device's time-zone offset (local time minus UTC, in
 * milliseconds; daylight-saving changes are not modelled).
 */
module Clock {
  import opened Types

  const MsPerDay: int := 86_400_000

  /** `new Date('YYYY-MM-DD')`: a date-only string is read as midnight UTC. */
  function DayStart(day: DayKey): Instant
  {
    day * MsPerDay
  }

  /** `new Date().toISOString().split('T')[0]`: the UTC calendar date of `now`. */
  function UtcDay(now: Instant): (d: DayKey)
    ensures DayStart(d) <= now < DayStart(d + 1)
  {
    now / MsPerDay
  }

  /** The calendar date of `now` on a device whose clock is `offset` ms ahead of UTC. */
  function LocalDay(now: Instant, offset: int): (d: DayKey)
    ensures DayStart(d) <= now + offset < DayStart(d + 1)
  {
    (now + offset) / MsPerDay
  }

  /** `new Date(new Date().setHours(0,0,0,0))`: the instant of the last local midnight. */
  function LocalMidnight(now: Instant, offset: int): (t: Instant)
    ensures t <= now < t + MsPerDay
    ensures t + offset == DayStart(LocalDay(now, offset))
  {
    LocalDay(now, offset) * MsPerDay - offset
  }
}
