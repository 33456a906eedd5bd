/** The part of .NET's `DateTime` the store relies on: a tick count tagged with a kind,
    and the two conversions between UTC and local time. The host's time zone is a fixed
    offset `zone`, the number of ticks by which local time is ahead of UTC. */
module DateTimes {

  /** `DateTimeKind`: which clock a value's ticks are read on. */
  datatype Kind = Utc | Local | Unspecified

  /** A `DateTime`: wall-clock ticks (100 ns each) on the clock its kind names. */
  datatype DateTime = DateTime(ticks: int, kind: Kind)

  /** The absolute point in time a value denotes, as ticks of UTC. A value of
      unspecified kind is read as local time, the way `ToUniversalTime` reads it. */
  function Instant(d: DateTime, zone: int): int
  {
    if d.kind == Utc then d.ticks else d.ticks - zone
  }

  /** `DateTime.ToUniversalTime`: the same instant, tagged UTC; a UTC value is returned as is. */
  function ToUniversalTime(d: DateTime, zone: int): (r: DateTime)
    ensures r.kind == Utc
    ensures Instant(r, zone) == Instant(d, zone)
    ensures d.kind == Utc ==> r == d
  {
    if d.kind == Utc then d else DateTime(d.ticks - zone, Utc)
  }

  /** `DateTime.ToLocalTime`: a local value is returned as is, and a UTC value becomes
      the same instant tagged local. A value of unspecified kind is read as UTC here
      (the opposite of `ToUniversalTime`), so its local ticks move by the offset. */
  function ToLocalTime(d: DateTime, zone: int): (r: DateTime)
    ensures r.kind == Local
    ensures d.kind != Unspecified ==> Instant(r, zone) == Instant(d, zone)
    ensures d.kind == Local ==> r == d
    ensures d.kind == Unspecified ==> r.ticks == d.ticks + zone
  {
    if d.kind == Local then d else DateTime(d.ticks + zone, Local)
  }
}
