/**
 Conversion between "local millis" and UTC millis.

 Local millis are a wall-clock reading written as milliseconds on the UTC
 calendar: the instant `utc` of a zone `offset(utc)` ahead of UTC reads
 `utc + offset(utc)` locally. The zone is not ambient: every conversion
 receives the zone's offset function, `offset(t)` being the milliseconds the
 zone is ahead of UTC at instant `t` (what `TimeZone.getDefault().getOffset(t)`
 answers). The offset is evaluated at the value being converted, so a
 daylight-saving transition between the two evaluations of a round trip
 breaks it.
 */
module TimeZone {

  /** The zone's offset from UTC, in milliseconds, valid at a given instant. */
  type OffsetAt = int -> int

  /**
   Local millis to UTC millis: subtract the offset read at the local value.
   Moving the result back to local time (adding the offset read at it) gives
   `local` again exactly when the offsets read at both values agree.
   */
  function LocalToUtc(offset: OffsetAt, local: int): (utc: int)
    ensures utc + offset(utc) == local <==> offset(utc) == offset(local)
  {
    local - offset(local)
  }

  /**
   UTC millis to local millis: add the offset read at the UTC instant.
   Converting the result back with LocalToUtc gives `utc` again exactly when the
   offset read at the local value agrees with the one read at `utc`.
   */
  function UtcToLocal(offset: OffsetAt, utc: int): (local: int)
    ensures LocalToUtc(offset, local) == utc <==> offset(local) == offset(utc)
  {
    utc + offset(utc)
  }

  /** Under an offset that agrees at both ends, LocalToUtc keeps the order of a range. */
  lemma LocalToUtcMonotone(offset: OffsetAt, a: int, b: int)
    requires a <= b
    requires offset(a) == offset(b)
    ensures LocalToUtc(offset, a) <= LocalToUtc(offset, b)
  {
  }

  /** A zone on UTC before instant 0 and one hour ahead of it from then on (a spring-forward transition). */
  function SpringForwardZone(t: int): int
  {
    if t < 0 then 0 else 3600000
  }

  /**
   Near a spring-forward transition the local round trip is not exact, and an
   ordered local range can turn into an inverted UTC range.
   */
  lemma SpringForwardBreaksRoundTripAndOrder()
    ensures UtcToLocal(SpringForwardZone, LocalToUtc(SpringForwardZone, 1800000)) == -1800000
    ensures LocalToUtc(SpringForwardZone, -1000) > LocalToUtc(SpringForwardZone, 1000)
  {
  }
}
