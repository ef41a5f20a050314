/** Time specifiers of a kaisan command and how they resolve to an instant
  * (src/model/time.rs). Instants are whole seconds since the Unix epoch,
  * read in UTC; the guild's timezone is a fixed offset east of UTC. */
module Time {
  import opened Wrappers
  import opened Numeric

  type Instant = int

  /** A fixed offset in seconds east of UTC, in the range chrono accepts. */
  type Offset = x: int | -86400 < x < 86400

  const SecondsPerMinute: int := 60
  const SecondsPerHour: int := 3600
  const SecondsPerDay: int := 86400

  /** An hour of the day; only `HourFromU8` builds one from a raw byte. */
  type Hour = x: U8 | x < 24

  /** A minute of the hour; only `MinuteFromU8` builds one from a raw byte. */
  type Minute = x: U8 | x < 60

  datatype InvalidHourError = InvalidHourError
  datatype InvalidMinuteError = InvalidMinuteError

  function HourFromU8(x: U8): (r: Result<Hour, InvalidHourError>)
    ensures r.Ok? <==> x < 24
    ensures r.Ok? ==> HourAsU32(r.value) == x
  {
    if x < 24 then Ok(x) else Err(InvalidHourError)
  }

  function HourAsU32(h: Hour): U32 { h }

  function MinuteFromU8(x: U8): (r: Result<Minute, InvalidMinuteError>)
    ensures r.Ok? <==> x < 60
    ensures r.Ok? ==> MinuteAsU32(r.value) == x
  {
    if x < 60 then Ok(x) else Err(InvalidMinuteError)
  }

  function MinuteAsU32(m: Minute): U32 { m }

  /** A duration counted from the moment the command is handled. */
  datatype AfterTimeSpecifier =
    | AfterHour(hours: U8)
    | AfterMinute(minutes: U8)
    | AfterHourMinute(hours: U8, minutes: U8)
    | AfterSecond(seconds: U8)

  /** A wall-clock time on the guild's current local date (or the next one). */
  datatype AtTimeSpecifier =
    | AtHour(hour: Hour, isTomorrow: bool)
    | AtMinute(minute: Minute)
    | AtHourMinute(hour: Hour, minute: Minute, isTomorrow: bool)

  /** An RFC 3339 timestamp: the instant it denotes and the offset it was written with. */
  datatype OffsetDateTime = OffsetDateTime(instant: Instant, offset: Offset)

  /** An IANA time-zone database entry, known by its name. Its offsets are looked up
    * in the database, which is outside this model. */
  datatype Tz = Tz(name: string)

  datatype TimeSpecifier =
    | Now
    | After(after: AfterTimeSpecifier)
    | At(at: AtTimeSpecifier)
    | Exactly(time: OffsetDateTime)

  function OptionalMinutes(m: Option<U8>): nat
  {
    if m.Some? then m.value else 0
  }

  /** `AfterTimeSpecifier::with_hour`: the hours, plus the minutes when given. */
  function AfterWithHour(h: U8, m: Option<U8>): (r: AfterTimeSpecifier)
    ensures CalculateDuration(r) == h * SecondsPerHour + OptionalMinutes(m) * SecondsPerMinute
    ensures r.AfterHour? || r.AfterHourMinute?
    ensures r.AfterHourMinute? <==> m.Some?
  {
    match m
    case Some(m) => AfterHourMinute(h, m)
    case None => AfterHour(h)
  }

  /** `AfterTimeSpecifier::with_minute`: the minutes, plus the hours when given. */
  function AfterWithMinute(m: U8, h: Option<U8>): (r: AfterTimeSpecifier)
    ensures CalculateDuration(r) == OptionalMinutes(h) * SecondsPerHour + m * SecondsPerMinute
    ensures r.AfterMinute? || r.AfterHourMinute?
    ensures r.AfterHourMinute? <==> h.Some?
  {
    match h
    case Some(h) => AfterHourMinute(h, m)
    case None => AfterMinute(m)
  }

  /** The length, in seconds, of a relative specifier. */
  function CalculateDuration(d: AfterTimeSpecifier): nat
  {
    match d
    case AfterHour(h) => h * SecondsPerHour
    case AfterMinute(m) => m * SecondsPerMinute
    case AfterHourMinute(h, m) => h * SecondsPerHour + m * SecondsPerMinute
    case AfterSecond(s) => s
  }

  lemma DurationBounds(d: AfterTimeSpecifier)
    ensures 0 <= CalculateDuration(d) <= 255 * SecondsPerHour + 255 * SecondsPerMinute
    ensures d.AfterSecond? ==> CalculateDuration(d) < SecondsPerMinute * 5
  {
  }

  /** Hours and minutes given together last as long as the two given one after the other. */
  lemma DurationIsAdditive(h: U8, m: U8)
    ensures CalculateDuration(AfterHourMinute(h, m))
         == CalculateDuration(AfterHour(h)) + CalculateDuration(AfterMinute(m))
  {
  }

  /** `AtTimeSpecifier::with_hour`: the hour, plus the minute when given. */
  function AtWithHour(hour: Hour, minute: Option<Minute>, isTomorrow: bool): (r: AtTimeSpecifier)
    ensures r.AtHour? || r.AtHourMinute?
    ensures r.hour == hour && r.isTomorrow == isTomorrow
    ensures r.AtHourMinute? <==> minute.Some?
    ensures r.AtHourMinute? ==> r.minute == minute.value
  {
    match minute
    case Some(minute) => AtHourMinute(hour, minute, isTomorrow)
    case None => AtHour(hour, isTomorrow)
  }

  /** `AtTimeSpecifier::with_minute`: the minute, plus the hour (today) when given. */
  function AtWithMinute(minute: Minute, hour: Option<Hour>): (r: AtTimeSpecifier)
    ensures r.AtMinute? || r.AtHourMinute?
    ensures r.minute == minute
    ensures r.AtHourMinute? <==> hour.Some?
    ensures r.AtHourMinute? ==> r.hour == hour.value && !r.isTomorrow
  {
    match hour
    case Some(hour) => AtHourMinute(hour, minute, false)
    case None => AtMinute(minute)
  }

  /** The day number (days since the epoch) of the local date at `t`. */
  function LocalDay(t: Instant, tz: Offset): int
  {
    (t + tz) / SecondsPerDay
  }

  /** The local hour of the day at `t`. */
  function LocalHour(t: Instant, tz: Offset): (h: Hour)
  {
    ((t + tz) % SecondsPerDay) / SecondsPerHour
  }

  /** The instant of `now`'s local date at the given wall-clock time, that wall-clock
    * time being read as UTC (`and_local_timezone(Utc)`), plus one day when asked. */
  function WallClock(now: Instant, tz: Offset, hour: int, minute: int, isTomorrow: bool): Instant
  {
    LocalDay(now, tz) * SecondsPerDay + hour * SecondsPerHour + minute * SecondsPerMinute
      + (if isTomorrow then SecondsPerDay else 0)
  }

  /** `TimeSpecifier::calculate_time`. */
  function CalculateTime(spec: TimeSpecifier, now: Instant, tz: Offset): Instant
  {
    match spec
    case Now => now
    case After(d) => now + CalculateDuration(d)
    case At(AtHour(h, tomorrow)) => WallClock(now, tz, h, 0, tomorrow)
    case At(AtMinute(m)) => WallClock(now, tz, LocalHour(now, tz), m, false)
    case At(AtHourMinute(h, m, tomorrow)) => WallClock(now, tz, h, m, tomorrow)
    case Exactly(t) => t.instant
  }

  /** The clock fields of an instant read in UTC. */
  predicate IsUtcClock(t: Instant, day: int, hour: int, minute: int)
  {
    t / SecondsPerDay == day && (t % SecondsPerDay) / SecondsPerHour == hour
      && (t % SecondsPerHour) / SecondsPerMinute == minute && t % SecondsPerMinute == 0
  }

  lemma ClockFields(day: int, hour: int, minute: int)
    requires 0 <= hour < 24 && 0 <= minute < 60
    ensures IsUtcClock(day * SecondsPerDay + hour * SecondsPerHour + minute * SecondsPerMinute,
                       day, hour, minute)
  {
    var t := day * SecondsPerDay + hour * SecondsPerHour + minute * SecondsPerMinute;
    var inDay := hour * SecondsPerHour + minute * SecondsPerMinute;
    assert 0 <= inDay < SecondsPerDay;
    assert t / SecondsPerDay == day && t % SecondsPerDay == inDay by {
      DivModUnique(t, SecondsPerDay, day, inDay);
    }
    assert inDay / SecondsPerHour == hour by {
      DivModUnique(inDay, SecondsPerHour, hour, minute * SecondsPerMinute);
    }
    assert t % SecondsPerHour == minute * SecondsPerMinute by {
      DivModUnique(t, SecondsPerHour, day * 24 + hour, minute * SecondsPerMinute);
    }
    assert (minute * SecondsPerMinute) / SecondsPerMinute == minute by {
      DivModUnique(minute * SecondsPerMinute, SecondsPerMinute, minute, 0);
    }
    DivModUnique(t, SecondsPerMinute, day * 1440 + hour * 60 + minute, 0);
  }

  lemma DivModUnique(a: int, b: int, q: int, r: int)
    requires b > 0 && 0 <= r < b && a == q * b + r
    ensures a / b == q && a % b == r
  {
    var q0, r0 := a / b, a % b;
    assert (q - q0) * b == r0 - r;
    if q0 < q {
      MulAtLeastSelf(q - q0, b);
    } else if q < q0 {
      MulAtLeastSelf(q0 - q, b);
    }
  }

  lemma MulAtLeastSelf(k: int, b: int)
    requires k >= 1 && b > 0
    ensures k * b >= b
  {
  }

  /** A relative specifier resolves to now plus its duration, whatever the timezone. */
  lemma AfterResolvesToNowPlusDuration(d: AfterTimeSpecifier, now: Instant, tz1: Offset, tz2: Offset)
    ensures CalculateTime(After(d), now, tz1) == CalculateTime(After(d), now, tz2)
    ensures CalculateTime(After(d), now, tz1) - now == CalculateDuration(d)
    ensures CalculateTime(After(d), now, tz1) >= now
  {
  }

  /** An RFC 3339 timestamp resolves to its own instant, whatever now and the timezone are. */
  lemma ExactlyIgnoresNowAndTimezone(t: OffsetDateTime, now1: Instant, now2: Instant, tz1: Offset, tz2: Offset)
    ensures CalculateTime(Exactly(t), now1, tz1) == CalculateTime(Exactly(t), now2, tz2) == t.instant
  {
  }

  /** An absolute hour (and minute) resolves, read as UTC, to that clock time on the local
    * date of now, or on the day after it when `isTomorrow` is set. */
  lemma AtHourMinuteResolution(h: Hour, m: Minute, tomorrow: bool, now: Instant, tz: Offset)
    ensures IsUtcClock(CalculateTime(At(AtHourMinute(h, m, tomorrow)), now, tz),
                       LocalDay(now, tz) + (if tomorrow then 1 else 0), h, m)
    ensures IsUtcClock(CalculateTime(At(AtHour(h, tomorrow)), now, tz),
                       LocalDay(now, tz) + (if tomorrow then 1 else 0), h, 0)
  {
    var day := LocalDay(now, tz) + (if tomorrow then 1 else 0);
    ClockFields(day, h, m);
    ClockFields(day, h, 0);
  }

  /** A bare minute keeps the current local hour and never rolls over to the next hour. */
  lemma AtMinuteResolution(m: Minute, now: Instant, tz: Offset)
    ensures IsUtcClock(CalculateTime(At(AtMinute(m)), now, tz), LocalDay(now, tz), LocalHour(now, tz), m)
  {
    ClockFields(LocalDay(now, tz), LocalHour(now, tz), m);
  }

  /** The day after is exactly one day later. */
  lemma TomorrowIsOneDayLater(h: Hour, m: Minute, now: Instant, tz: Offset)
    ensures CalculateTime(At(AtHourMinute(h, m, true)), now, tz)
         == CalculateTime(At(AtHourMinute(h, m, false)), now, tz) + SecondsPerDay
    ensures CalculateTime(At(AtHour(h, true)), now, tz)
         == CalculateTime(At(AtHour(h, false)), now, tz) + SecondsPerDay
  {
  }

  /** The offset only chooses the local date and hour: resolving in a timezone gives what
    * resolving in UTC gives at the local instant. The offset is not taken away again. */
  lemma AtReadsLocalWallClockAsUtc(a: AtTimeSpecifier, now: Instant, tz: Offset)
    ensures CalculateTime(At(a), now, tz) == CalculateTime(At(a), now + tz, 0)
  {
  }

  /** Whether the specifier leaves the clock time to be announced. */
  function IsInterestedInTime(spec: TimeSpecifier): bool
  {
    !spec.At?
  }

  /** Whether the specifier leaves the remaining duration to be announced. */
  function IsInterestedInDuration(spec: TimeSpecifier): bool
  {
    !spec.After?
  }

  /** Every specifier leaves something to announce; both are announced exactly for
    * `Now` and RFC 3339 timestamps. */
  lemma InterestCoversEverySpecifier(spec: TimeSpecifier)
    ensures IsInterestedInTime(spec) || IsInterestedInDuration(spec)
    ensures (IsInterestedInTime(spec) && IsInterestedInDuration(spec)) <==> (spec.Now? || spec.Exactly?)
  {
  }
}
