/** The earlier snapshot of the command grammar (src/command.rs). Its rules read the
  * same texts as the newer grammar's rules of the same name except for the relative
  * ranges, which here have only minutes and hours, no space between the number and
  * the unit after `after`/`within`, and a table of 後 / 以内 × まで with 以内まで
  * rejected. It is modelled for the values it reads (not for error locations): a rule
  * gives the value read and where it ends, or nothing. The rules whose text and
  * values are the same as the newer grammar's are taken from it and converted to
  * this snapshot's data types. */
module LegacyCommand {
  import opened Wrappers
  import opened Numeric
  import opened Peg
  import opened Kaisanee
  import Time
  import N = Command
  import R = CommandText

  /** An hour, a minute, or both. */
  datatype HourMinuteSpecifier<H, M> = Hour(hour: H) | Minute(minute: M) | Both(hour: H, minute: M)

  /** The hour, with a minute if one is given. */
  function WithHour<H, M>(h: H, m: Option<M>): (r: HourMinuteSpecifier<H, M>)
    ensures !r.Minute? && r.hour == h
    ensures r.Both? <==> m.Some?
    ensures r.Both? ==> r.minute == m.value
  {
    match m
    case Some(minute) => Both(h, minute)
    case None => Hour(h)
  }

  /** The minute, with an hour if one is given. */
  function WithMinute<H, M>(m: M, h: Option<H>): (r: HourMinuteSpecifier<H, M>)
    ensures !r.Hour? && r.minute == m
    ensures r.Both? <==> h.Some?
    ensures r.Both? ==> r.hour == h.value
  {
    match h
    case Some(hour) => Both(hour, m)
    case None => Minute(m)
  }

  datatype TimeSpecifier =
    | Now
    | After(after: HourMinuteSpecifier<U8, U8>)
    | At(time: HourMinuteSpecifier<Time.Hour, Time.Minute>, isTomorrow: bool)
    | Exactly(exactly: Time.OffsetDateTime)

  datatype TimeRangeSpecifier = RangeBy(spec: TimeSpecifier) | RangeAt(spec: TimeSpecifier)

  datatype Command = Kaisan(kaisanee: KaisaneeSpecifier, timeRange: TimeRangeSpecifier) | Help

  /** What a rule reads: a value and where it ends, or nothing. */
  type Read<T> = Option<(T, nat)>

  predicate Fits<T>(r: Read<T>, p: nat, n: nat)
  {
    r.Some? ==> p <= r.value.1 <= n
  }

  /** The first alternative that reads something. */
  function FirstOf<T>(a: Read<T>, b: Read<T>): (r: Read<T>)
    ensures a.Some? ==> r == a
    ensures a.None? ==> r == b
  {
    if a.Some? then a else b
  }

  /** This snapshot's form of a time of day. Minutes alone are always today. */
  function OfAt(a: Time.AtTimeSpecifier): (t: TimeSpecifier)
    ensures t.At?
    ensures a.AtHour? <==> t.time.Hour?
    ensures a.AtMinute? <==> t.time.Minute?
    ensures !a.AtMinute? ==> t.time.hour == a.hour && t.isTomorrow == a.isTomorrow
    ensures !a.AtHour? ==> t.time.minute == a.minute
    ensures a.AtMinute? ==> !t.isTomorrow
  {
    match a
    case AtHour(h, tomorrow) => At(Hour(h), tomorrow)
    case AtMinute(m) => At(Minute(m), false)
    case AtHourMinute(h, m, tomorrow) => At(Both(h, m), tomorrow)
  }

  /** What a rule shared with the newer grammar reads, in this snapshot's types. */
  function Shared(r: Parsed<Time.TimeSpecifier>): (v: Read<TimeSpecifier>)
    requires r.Ok() ==> r.Value().At? || r.Value().Exactly?
    ensures v.Some? <==> r.Ok()
    ensures v.Some? ==> v.value.1 == r.Next()
    ensures v.Some? && r.Value().At? ==> v.value.0 == OfAt(r.Value().at)
    ensures v.Some? && r.Value().Exactly? ==> v.value.0 == Exactly(r.Value().time)
  {
    if !r.Ok() then None
    else if r.Value().At? then Some((OfAt(r.Value().at), r.Next()))
    else Some((Exactly(r.Value().time), r.Next()))
  }

  // ---------------------------------------------------------------------------
  // Absolute times

  /** `spec_at_tail(x)`: `:minute` (x is the hour, today unless `tomorrow` follows),
    * 分 (x is the minute, today) or 時 with an optional minute (x is the hour,
    * today). */
  function SpecAtTail(s: string, p: nat, x: U8): (r: Read<TimeSpecifier>)
    requires p <= |s|
    ensures Fits(r, p, |s|)
    ensures r.Some? ==> r.value.0.At?
    ensures r.Some? && r.value.0.time.Minute? ==> x < 60 && r.value.0.time.minute == x && !r.value.0.isTomorrow
    ensures r.Some? && !r.value.0.time.Minute? ==> x < 24 && r.value.0.time.hour == x
    ensures r.Some? && r.value.0.time.Hour? ==> !r.value.0.isTomorrow
  {
    var colon := N.SpecAtColon(s, p, x);
    var minute := N.SpecAtMinuteMark(s, p, x);
    var hour := N.SpecAtHourMark(s, p, x);
    assert colon.Ok() ==> colon.Value().at.hour == x;
    Shared(Or(colon, Or(minute, hour)))
  }

  /** `spec_at_tomorrow`: 明日の and an hour, possibly with a minute; always tomorrow. */
  function SpecAtTomorrow(s: string, p: nat): (r: Read<TimeSpecifier>)
    requires p <= |s|
    ensures Fits(r, p, |s|)
    ensures r.Some? ==> r.value.0.At? && !r.value.0.time.Minute? && r.value.0.isTomorrow
  {
    Shared(N.SpecAtTomorrow(s, p))
  }

  /** `spec_at_rfc3339`: an exact timestamp. */
  function SpecAtRfc3339(s: string, p: nat, env: N.ParseEnv): (r: Read<TimeSpecifier>)
    requires p <= |s|
    ensures Fits(r, p, |s|)
    ensures r.Some? ==> r.value.0.Exactly?
  {
    Shared(N.SpecAtRfc3339(s, p, env))
  }

  /** `spec_at_half`: 半, half past the hour, today. */
  function SpecAtHalf(s: string, p: nat): (r: Read<TimeSpecifier>)
    requires p <= |s|
    ensures Fits(r, p, |s|)
    ensures r.Some? ==> r.value.0 == At(Minute(30), false)
  {
    Shared(N.SpecAtHalf(s, p))
  }

  /** `spec_at`: a number and `spec_at_tail`, tomorrow, rfc3339 or half past. */
  function SpecAt(s: string, p: nat, env: N.ParseEnv): (r: Read<TimeSpecifier>)
    requires p <= |s|
    ensures Fits(r, p, |s|)
    ensures r.Some? ==> r.value.0.At? || r.value.0.Exactly?
  {
    Shared(N.SpecAt(s, p, env))
  }

  // ---------------------------------------------------------------------------
  // Relative times

  /** `spec_after`: a number directly followed by a minute unit, or by an hour unit
    * and optionally minutes. There is no second unit in this snapshot. */
  function SpecAfter(s: string, p: nat): (r: Read<TimeSpecifier>)
    requires p <= |s|
    ensures Fits(r, p, |s|)
    ensures r.Some? ==> N.NumberRule(s, p).Ok() && r.value.0.After?
    ensures r.Some? && r.value.0.after.Minute? ==> r.value.0.after.minute == N.NumberRule(s, p).Value()
    ensures r.Some? && !r.value.0.after.Minute? ==> r.value.0.after.hour == N.NumberRule(s, p).Value()
  {
    var n := N.NumberRule(s, p);
    if !n.Ok() then None
    else
      var q := n.Next();
      var mi := Literals(s, q, N.MinuteWords);
      var ho := Literals(s, q, N.HourWords);
      if mi.Ok() then Some((After(WithMinute(n.Value(), None)), Ws(s, mi.Next())))
      else if ho.Ok() then
        var m := N.MinutesAfterHours(s, Ws(s, ho.Next()));
        Some((After(WithHour(n.Value(), m.Value())), m.Next()))
      else None
  }

  /** The table of a relative range's suffix: 後 alone is at that time, 以内 alone and
    * 後まで are by that time (Some(true) for by, Some(false) for at), and 以内まで is
    * rejected. */
  function RangeKind(within: bool, until: bool): (r: Option<bool>)
    ensures r.None? <==> within && until
    ensures r == Some(false) <==> !within && !until
  {
    if within && until then None else Some(within || until)
  }

  /** `s1:$(['後'] / "以内") s2:"まで"?` and the table applied to `spec`. */
  function RelativeSuffix(s: string, p: nat, spec: TimeSpecifier): (r: Read<TimeRangeSpecifier>)
    requires p <= |s|
    ensures Fits(r, p, |s|)
    ensures r.Some? ==> r.value.0.spec == spec
  {
    var after := N.CharAt(s, p, '後');
    var within := !after && MatchAt(s, p, "以内");
    if !after && !within then None
    else
      var e := if after then p + 1 else p + 2;
      var until := MatchAt(s, e, "まで");
      match RangeKind(within, until)
      case None => None
      case Some(isBy) => Some((if isBy then RangeBy(spec) else RangeAt(spec), if until then e + 2 else e))
  }

  /** `_ minute_suffix() _` and the suffix, after the number x. */
  function MinutesRange(s: string, p: nat, x: U8): (r: Read<TimeRangeSpecifier>)
    requires p <= |s|
    ensures Fits(r, p, |s|)
    ensures r.Some? ==> r.value.0.spec == After(Minute(x))
  {
    var mi := Literals(s, Ws(s, p), N.MinuteWords);
    if mi.Ok() then RelativeSuffix(s, Ws(s, mi.Next()), After(WithMinute(x, None))) else None
  }

  /** `_ hour_suffix() _`, optional minutes, and the suffix, after the number x. */
  function HoursRange(s: string, p: nat, x: U8): (r: Read<TimeRangeSpecifier>)
    requires p <= |s|
    ensures Fits(r, p, |s|)
    ensures r.Some? ==> r.value.0.spec.After? && !r.value.0.spec.after.Minute? && r.value.0.spec.after.hour == x
  {
    var ho := Literals(s, Ws(s, p), N.HourWords);
    if ho.Ok() then
      var m := N.MinutesAfterHours(s, Ws(s, ho.Next()));
      RelativeSuffix(s, m.Next(), After(WithHour(x, m.Value())))
    else None
  }

  /** An absolute time and an optional まで: by that time with it, at it without. */
  function UntilSuffix(s: string, t: Read<TimeSpecifier>): (r: Read<TimeRangeSpecifier>)
    requires t.Some? ==> t.value.1 <= |s|
    ensures r.Some? <==> t.Some?
    ensures r.Some? ==> r.value.0.spec == t.value.0 && t.value.1 <= r.value.1 <= |s|
    ensures r.Some? ==> (r.value.0.RangeBy? <==> MatchAt(s, t.value.1, "まで"))
  {
    match t
    case None => None
    case Some((spec, e)) =>
      if MatchAt(s, e, "まで") then Some((RangeBy(spec), e + 2)) else Some((RangeAt(spec), e))
  }

  function ToRange(isBy: bool, t: Read<TimeSpecifier>): (r: Read<TimeRangeSpecifier>)
    ensures r.Some? <==> t.Some?
    ensures r.Some? ==> r.value.0.spec == t.value.0 && r.value.1 == t.value.1 && (r.value.0.RangeBy? <==> isBy)
  {
    match t
    case None => None
    case Some((spec, e)) => Some((if isBy then RangeBy(spec) else RangeAt(spec), e))
  }

  // ---------------------------------------------------------------------------
  // Time ranges and commands

  /** A number, then minutes, hours, or a `spec_at_tail` with an optional まで. */
  function NumberedRange(s: string, p: nat): (r: Read<TimeRangeSpecifier>)
    requires p <= |s|
    ensures Fits(r, p, |s|)
  {
    var n := N.NumberRule(s, p);
    if !n.Ok() then None
    else
      var x := n.Value();
      var q := n.Next();
      FirstOf(MinutesRange(s, q, x), FirstOf(HoursRange(s, q, x), UntilSuffix(s, SpecAtTail(s, q, x))))
  }

  /** Tomorrow, rfc3339 or half past, with an optional まで. */
  function AbsoluteRange(s: string, p: nat, env: N.ParseEnv): (r: Read<TimeRangeSpecifier>)
    requires p <= |s|
    ensures Fits(r, p, |s|)
  {
    UntilSuffix(s, FirstOf(SpecAtTomorrow(s, p), FirstOf(SpecAtRfc3339(s, p, env), SpecAtHalf(s, p))))
  }

  /** now or 今すぐ: at once. */
  function NowRange(s: string, p: nat): (r: Read<TimeRangeSpecifier>)
    requires p <= |s|
    ensures Fits(r, p, |s|)
    ensures r.Some? <==> MatchAt(s, p, "now") || MatchAt(s, p, "今すぐ")
    ensures r.Some? ==> r.value.0 == RangeAt(Now)
  {
    if MatchAt(s, p, "now") || MatchAt(s, p, "今すぐ") then Some((RangeAt(Now), p + 3)) else None
  }

  /** at / by an absolute time, after / within a relative one. */
  function KeywordRange(s: string, p: nat, env: N.ParseEnv): (r: Read<TimeRangeSpecifier>)
    requires p <= |s|
    ensures Fits(r, p, |s|)
    ensures r.Some? && (MatchAt(s, p, "at") || MatchAt(s, p, "by")) ==>
      r.value.0.spec.At? || r.value.0.spec.Exactly?
    ensures r.Some? && (MatchAt(s, p, "after") || MatchAt(s, p, "within")) ==> r.value.0.spec.After?
    ensures r.Some? ==> (r.value.0.RangeBy? <==> MatchAt(s, p, "by") || MatchAt(s, p, "within"))
  {
    var atTime := if MatchAt(s, p, "at") then ToRange(false, SpecAt(s, Ws(s, p + 2), env)) else None;
    var byTime := if MatchAt(s, p, "by") then ToRange(true, SpecAt(s, Ws(s, p + 2), env)) else None;
    var afterSpan := if MatchAt(s, p, "after") then ToRange(false, SpecAfter(s, Ws(s, p + 5))) else None;
    var withinSpan := if MatchAt(s, p, "within") then ToRange(true, SpecAfter(s, Ws(s, p + 6))) else None;
    NoTwoKeywords(s, p);
    FirstOf(atTime, FirstOf(byTime, FirstOf(afterSpan, withinSpan)))
  }

  /** At most one of the keywords occurs at a position. */
  lemma NoTwoKeywords(s: string, p: nat)
    ensures MatchAt(s, p, "at") ==> !MatchAt(s, p, "by") && !MatchAt(s, p, "after") && !MatchAt(s, p, "within")
    ensures MatchAt(s, p, "by") ==> !MatchAt(s, p, "after") && !MatchAt(s, p, "within")
    ensures MatchAt(s, p, "after") ==> !MatchAt(s, p, "within")
  {
    if MatchAt(s, p, "at") {
      R.MatchAtIndex(s, p, "at", 0);
      R.MatchAtIndex(s, p, "at", 1);
      NoMatchAtChar(s, p, "by", 0);
      NoMatchAtChar(s, p, "after", 1);
      NoMatchAtChar(s, p, "within", 0);
    }
    if MatchAt(s, p, "by") {
      R.MatchAtIndex(s, p, "by", 0);
      NoMatchAtChar(s, p, "after", 0);
      NoMatchAtChar(s, p, "within", 0);
    }
    if MatchAt(s, p, "after") {
      R.MatchAtIndex(s, p, "after", 0);
      NoMatchAtChar(s, p, "within", 0);
    }
  }

  /** `time_range`: the first of the numbered, absolute, now and keyword forms. */
  function TimeRange(s: string, p: nat, env: N.ParseEnv): (r: Read<TimeRangeSpecifier>)
    requires p <= |s|
    ensures Fits(r, p, |s|)
  {
    FirstOf(NumberedRange(s, p), FirstOf(AbsoluteRange(s, p, env), FirstOf(NowRange(s, p), KeywordRange(s, p, env))))
  }

  /** The kaisan line: a kaisanee before or after the time range, or none (everyone);
    * a kaisanee on both sides is rejected. */
  function KaisanLine(s: string, p: nat, env: N.ParseEnv): (r: Read<Command>)
    requires p <= |s|
    ensures Fits(r, p, |s|)
    ensures r.Some? ==> r.value.0.Kaisan?
    ensures r.Some? && N.SpecKaisanee(s, p).Ok() ==> r.value.0.kaisanee == N.SpecKaisanee(s, p).Value()
  {
    var k1 := N.SpecKaisanee(s, p);
    match TimeRange(s, if k1.Ok() then k1.Next() else p, env)
    case None => None
    case Some((tr, e)) => KaisanAfterRange(s, k1, tr, e)
  }

  /** The rest of the kaisan line once the time range tr is read up to e, k1 being the
    * kaisanee read before it, if any. */
  function KaisanAfterRange(s: string, k1: Parsed<KaisaneeSpecifier>, tr: TimeRangeSpecifier, e: nat)
    : (r: Read<Command>)
    requires e <= |s|
    ensures r.Some? ==> r.value.0.Kaisan? && r.value.0.timeRange == tr
    ensures r.Some? ==> r.value.1 == N.KaisanTail(s, e).Next()
    // before the time only, after it only, neither (everyone), and both (refused)
    ensures k1.Ok() && N.KaisanTail(s, e).Value().None? ==> r.Some? && r.value.0.kaisanee == k1.Value()
    ensures !k1.Ok() && N.KaisanTail(s, e).Value().Some? ==>
      r.Some? && r.value.0.kaisanee == N.KaisanTail(s, e).Value().value
    ensures !k1.Ok() && N.KaisanTail(s, e).Value().None? ==> r.Some? && r.value.0.kaisanee == All
    ensures k1.Ok() && N.KaisanTail(s, e).Value().Some? ==> r.None?
  {
    var t := N.KaisanTail(s, e);
    if k1.Ok() && t.Value().Some? then None
    else
      var k := if k1.Ok() then k1.Value() else if t.Value().Some? then t.Value().value else DefaultKaisanee;
      Some((Kaisan(k, tr), t.Next()))
  }

  /** `command`: help or a kaisan line. */
  function CommandRule(s: string, p: nat, env: N.ParseEnv): (r: Read<Command>)
    requires p <= |s|
    ensures Fits(r, p, |s|)
    // help is read exactly where the text says help, and nothing else is read there
    ensures (r.Some? && r.value.0.Help?) <==> MatchAt(s, p, "help")
    ensures r.Some? && r.value.0.Help? ==> r.value.1 == p + 4
    ensures r.Some? && !r.value.0.Help? ==> r.value.0.Kaisan?
  {
    if MatchAt(s, p, "help") then Some((Help, p + 4)) else KaisanLine(s, p, env)
  }

  /** `Command::from_str`: the command, if the whole input is one. */
  function ParseCommand(s: string, env: N.ParseEnv): (r: Option<Command>)
    ensures r.Some? <==> CommandRule(s, 0, env).Some? && CommandRule(s, 0, env).value.1 == |s|
    ensures r.Some? ==> r.value == CommandRule(s, 0, env).value.0
  {
    match CommandRule(s, 0, env)
    case Some((c, e)) => if e == |s| then Some(c) else None
    case None => None
  }

  // ---------------------------------------------------------------------------
  // What the snapshot reads

  /** The text of a relative range's suffix. */
  function SuffixText(within: bool, until: bool): string
  {
    (if within then "以内" else "後") + (if until then "まで" else "")
  }

  /** The range a suffix makes of `spec`, as the table says. */
  function TableRange(within: bool, until: bool, spec: TimeSpecifier): Option<TimeRangeSpecifier>
  {
    match RangeKind(within, until)
    case None => None
    case Some(isBy) => Some(if isBy then RangeBy(spec) else RangeAt(spec))
  }

  /** A suffix in the text is read as the table says, and ends after its text. */
  lemma RelativeSuffixOfText(s: string, p: nat, spec: TimeSpecifier, within: bool, until: bool)
    requires MatchAt(s, p, SuffixText(within, until))
    requires !until ==> !MatchAt(s, p + |SuffixText(within, false)|, "まで")
    ensures TableRange(within, until, spec).None? ==> RelativeSuffix(s, p, spec).None?
    ensures TableRange(within, until, spec).Some? ==>
      RelativeSuffix(s, p, spec) == Some((TableRange(within, until, spec).value, p + |SuffixText(within, until)|))
  {
    var base := if within then "以内" else "後";
    var tail := if until then "まで" else "";
    assert SuffixText(within, until) == base + tail;
    R.MatchAtConcat(s, p, base, tail);
    R.MatchAtIndex(s, p, base, 0);
    if within {
      NoMatchAtChar(s, p, [ '後' ], 0);
      assert !N.CharAt(s, p, '後');
    }
  }

  /** A number in decimal followed by text: the number is read, and the text starts
    * after it. */
  lemma NumberThen(s: string, x: U8, rest: string)
    requires s == NatToString(x) + rest && |rest| > 0 && !IsDigit(rest[0])
    ensures IsDigit(s[0])
    ensures N.NumberRule(s, 0).result == Some((x, |NatToString(x)|))
    ensures MatchAt(s, |NatToString(x)|, rest)
  {
    var d := NatToString(x);
    assert s[..|d|] == d && s[|d|..] == rest;
    assert s[0] == d[0];
    MatchAtChars(s, 0, d);
    MatchAtChars(s, |d|, rest);
    assert s[|d|] == rest[0];
    R.NumberOfDisplay(s, 0, x);
  }

  /** Where a digit starts the input, neither help nor a kaisanee is read there, and
    * no absolute, now or keyword range. */
  lemma DigitFirst(s: string, env: N.ParseEnv)
    requires |s| > 0 && IsDigit(s[0])
    ensures !MatchAt(s, 0, "help") && !N.SpecKaisanee(s, 0).Ok()
    ensures AbsoluteRange(s, 0, env).None? && NowRange(s, 0).None? && KeywordRange(s, 0, env).None?
  {
    DigitNotKaisanee(s);
    DigitNotAbsolute(s, env);
    DigitNotKeyword(s, env);
  }

  lemma DigitNotKaisanee(s: string)
    requires |s| > 0 && IsDigit(s[0])
    ensures !MatchAt(s, 0, "help") && !N.SpecKaisanee(s, 0).Ok()
  {
    NoMatchAtChar(s, 0, "help", 0);
    R.NoWordAt(s, 0, N.MeWords);
    R.NoWordAt(s, 0, N.AllWords);
    NoMatchAtChar(s, 0, "<@!", 0);
  }

  lemma DigitNotAbsolute(s: string, env: N.ParseEnv)
    requires |s| > 0 && IsDigit(s[0])
    ensures AbsoluteRange(s, 0, env).None? && NowRange(s, 0).None?
  {
    NoMatchAtChar(s, 0, "明日の", 0);
    NoMatchAtChar(s, 0, "rfc3339", 0);
    NoMatchAtChar(s, 0, "now", 0);
    NoMatchAtChar(s, 0, "今すぐ", 0);
  }

  lemma DigitNotKeyword(s: string, env: N.ParseEnv)
    requires |s| > 0 && IsDigit(s[0])
    ensures KeywordRange(s, 0, env).None?
  {
    NoMatchAtChar(s, 0, "at", 0);
    NoMatchAtChar(s, 0, "by", 0);
    NoMatchAtChar(s, 0, "after", 0);
    NoMatchAtChar(s, 0, "within", 0);
  }

  /** Nothing more of a kaisan line is read at a 以, 間 or 秒. */
  lemma NoTailAt(s: string, q: nat)
    requires q < |s| && (s[q] == '以' || s[q] == '間' || s[q] == '秒')
    ensures N.KaisanTail(s, q).result == Some((None, q))
  {
    WsAtNonSpace(s, q);
    R.NoWordAt(s, q, N.MeWords);
    R.NoWordAt(s, q, N.AllWords);
    NoMatchAtChar(s, q, "<@!", 0);
    NoMatchAtChar(s, q, "解散", 0);
  }

  /** Where a digit starts the input, the time range read is the numbered one. */
  lemma RangeOfNumbered(s: string, env: N.ParseEnv)
    requires |s| > 0 && IsDigit(s[0])
    ensures TimeRange(s, 0, env) == NumberedRange(s, 0)
  {
    DigitFirst(s, env);
  }

  /** Where a digit starts the input and a time range is read with nothing named after
    * it, the command is a kaisan of everyone if the input ends there. */
  lemma CommandOfRange(s: string, env: N.ParseEnv, tr: TimeRangeSpecifier, e: nat)
    requires |s| > 0 && IsDigit(s[0]) && e <= |s|
    requires TimeRange(s, 0, env) == Some((tr, e))
    requires N.KaisanTail(s, e).Value().None?
    ensures ParseCommand(s, env) == if N.KaisanTail(s, e).Next() == |s| then Some(Kaisan(All, tr)) else None
  {
    DigitFirst(s, env);
  }

  /** Where a digit starts the input and no time range is read, there is no command. */
  /** A line that starts with a digit is a command exactly when the time range read
    * from its number reaches the end of the line. */
  lemma CommandOfNumbered(s: string, env: N.ParseEnv, nr: Option<(TimeRangeSpecifier, nat)>)
    requires |s| > 0 && IsDigit(s[0]) && NumberedRange(s, 0) == nr
    requires nr.Some? ==> nr.value.1 <= |s|
    requires nr.Some? && nr.value.1 < |s| ==> s[nr.value.1] == '以' || s[nr.value.1] == '間'
    ensures ParseCommand(s, env) == if nr.Some? && nr.value.1 == |s| then Some(Kaisan(All, nr.value.0)) else None
  {
    RangeOfNumbered(s, env);
    if nr.None? {
      NoCommandWithoutRange(s, env);
    } else if nr.value.1 == |s| {
      R.KaisanTailAtEnd(s);
      CommandOfRange(s, env, nr.value.0, |s|);
    } else {
      NoTailAt(s, nr.value.1);
      CommandOfRange(s, env, nr.value.0, nr.value.1);
    }
  }

  lemma NoCommandWithoutRange(s: string, env: N.ParseEnv)
    requires |s| > 0 && IsDigit(s[0])
    requires TimeRange(s, 0, env).None?
    ensures ParseCommand(s, env).None?
  {
    DigitFirst(s, env);
  }

  /** A minute unit and a suffix after the number x. */
  lemma MinutesOfText(s: string, n: nat, x: U8, within: bool, until: bool)
    requires MatchAt(s, n, "分" + SuffixText(within, until)) && |s| == n + 1 + |SuffixText(within, until)|
    ensures TableRange(within, until, After(Minute(x))).None? ==> MinutesRange(s, n, x).None?
    ensures TableRange(within, until, After(Minute(x))).Some? ==>
      MinutesRange(s, n, x) == Some((TableRange(within, until, After(Minute(x))).value, |s|))
    ensures !Literals(s, n, N.HourWords).Ok() && s[n] == '分' && s[n + 1] != ' '
  {
    var suf := SuffixText(within, until);
    R.MatchAtConcat(s, n, "分", suf);
    R.MatchAtIndex(s, n, "分", 0);
    R.MatchAtIndex(s, n + 1, suf, 0);
    WsAtNonSpace(s, n);
    R.MinuteMark(s, n);
    WsAtNonSpace(s, n + 1);
    RelativeSuffixOfText(s, n + 1, After(Minute(x)), within, until);
  }

  /** 分 followed by 以: x is read as the minute of the hour, and the line stops before
    * the 以. */
  lemma MinuteMarkBeforeWithin(s: string, n: nat, x: U8)
    requires n + 1 < |s| && s[n] == '分' && s[n + 1] == '以'
    ensures SpecAtTail(s, n, x) == if x < 60 then Some((At(Minute(x), false), n + 1)) else None
    ensures UntilSuffix(s, SpecAtTail(s, n, x)) ==
      if x < 60 then Some((RangeAt(At(Minute(x), false)), n + 1)) else None
  {
    WsAtNonSpace(s, n);
    WsAtNonSpace(s, n + 1);
    NoMatchAtChar(s, n, ":", 0);
    NoMatchAtChar(s, n + 1, "まで", 0);
  }

  /** A number of minutes and a suffix, alone: the table read back through the whole
    * parser. 以内まで is rejected whatever the number. */
  lemma MinutesTable(x: U8, within: bool, until: bool, env: N.ParseEnv)
    ensures var s := NatToString(x) + "分" + SuffixText(within, until);
      var spec := After(Minute(x));
      ParseCommand(s, env) == if within && until then None else Some(Kaisan(All, TableRange(within, until, spec).value))
  {
    var s := NatToString(x) + "分" + SuffixText(within, until);
    var n := |NatToString(x)|;
    MinutesTableRange(s, n, x, within, until);
    CommandOfNumbered(s, env, NumberedRange(s, 0));
  }

  /** The time range read from N分 and a suffix: the table's entry, or, for the suffix
    * 以内まで that the table lacks, the minute N of the hour that stops before 以. */
  lemma MinutesTableRange(s: string, n: nat, x: U8, within: bool, until: bool)
    requires s == NatToString(x) + "分" + SuffixText(within, until) && n == |NatToString(x)|
    ensures |s| > 0 && IsDigit(s[0]) && n + 1 < |s| && (within && until ==> s[n + 1] == '以')
    ensures NumberedRange(s, 0) ==
      if !(within && until) then Some((TableRange(within, until, After(Minute(x))).value, |s|))
      else if x < 60 then Some((RangeAt(At(Minute(x), false)), n + 1))
      else None
  {
    var suf := SuffixText(within, until);
    assert s == NatToString(x) + ("分" + suf);
    NumberThen(s, x, "分" + suf);
    MinutesOfText(s, n, x, within, until);
    if within && until {
      assert HoursRange(s, n, x).None?;
      assert s[n + 1] == '以';
      MinuteMarkBeforeWithin(s, n, x);
    }
  }

  /** An hour unit and a suffix after the number x. */
  lemma HoursOfText(s: string, n: nat, x: U8, within: bool, until: bool)
    requires MatchAt(s, n, "時間" + SuffixText(within, until)) && |s| == n + 2 + |SuffixText(within, until)|
    ensures TableRange(within, until, After(Hour(x))).None? ==> HoursRange(s, n, x).None?
    ensures TableRange(within, until, After(Hour(x))).Some? ==>
      HoursRange(s, n, x) == Some((TableRange(within, until, After(Hour(x))).value, |s|))
    ensures !Literals(s, n, N.MinuteWords).Ok() && s[n] == '時' && s[n + 1] == '間'
  {
    HoursOfChars(s, n, within, until);
    HoursOfRules(s, n, x, within, until);
  }

  lemma HoursOfChars(s: string, n: nat, within: bool, until: bool)
    requires MatchAt(s, n, "時間" + SuffixText(within, until)) && |s| == n + 2 + |SuffixText(within, until)|
    ensures s[n] == '時' && s[n + 1] == '間' && Ws(s, n) == n && Ws(s, n + 2) == n + 2
    ensures Literals(s, n, N.HourWords).result == Some((4, n + 2)) && !Literals(s, n, N.MinuteWords).Ok()
    ensures N.MinutesAfterHours(s, n + 2).result == Some((None, n + 2))
    ensures MatchAt(s, n + 2, SuffixText(within, until))
    ensures !until ==> !MatchAt(s, n + 2 + |SuffixText(within, false)|, "まで")
  {
    var suf := SuffixText(within, until);
    R.MatchAtConcat(s, n, "時間", suf);
    R.MatchAtIndex(s, n, "時間", 0);
    R.MatchAtIndex(s, n, "時間", 1);
    R.MatchAtIndex(s, n + 2, suf, 0);
    WsAtNonSpace(s, n);
    R.HourMark(s, n);
    WsAtNonSpace(s, n + 2);
    R.NoNumberAt(s, n + 2);
  }

  lemma HoursOfRules(s: string, n: nat, x: U8, within: bool, until: bool)
    requires n + 2 + |SuffixText(within, until)| == |s|
    requires Ws(s, n) == n && Ws(s, n + 2) == n + 2
    requires Literals(s, n, N.HourWords).result == Some((4, n + 2))
    requires N.MinutesAfterHours(s, n + 2).result == Some((None, n + 2))
    requires MatchAt(s, n + 2, SuffixText(within, until))
    requires !until ==> !MatchAt(s, n + 2 + |SuffixText(within, false)|, "まで")
    ensures TableRange(within, until, After(Hour(x))).None? ==> HoursRange(s, n, x).None?
    ensures TableRange(within, until, After(Hour(x))).Some? ==>
      HoursRange(s, n, x) == Some((TableRange(within, until, After(Hour(x))).value, |s|))
  {
    RelativeSuffixOfText(s, n + 2, After(Hour(x)), within, until);
  }

  /** 時 followed by 間: x is read as the hour of the day, and the line stops before
    * the 間. */
  lemma HourMarkBeforeKan(s: string, n: nat, x: U8)
    requires n + 1 < |s| && s[n] == '時' && s[n + 1] == '間'
    ensures SpecAtTail(s, n, x) == if x < 24 then Some((At(Hour(x), false), n + 1)) else None
    ensures UntilSuffix(s, SpecAtTail(s, n, x)) ==
      if x < 24 then Some((RangeAt(At(Hour(x), false)), n + 1)) else None
  {
    WsAtNonSpace(s, n);
    WsAtNonSpace(s, n + 1);
    NoMatchAtChar(s, n, ":", 0);
    NoMatchAtChar(s, n, "分", 0);
    R.NoSpecMinuteAt(s, n + 1);
    NoMatchAtChar(s, n + 1, "まで", 0);
  }

  /** A number of hours and a suffix, alone: the same table. */
  lemma HoursTable(x: U8, within: bool, until: bool, env: N.ParseEnv)
    ensures var s := NatToString(x) + "時間" + SuffixText(within, until);
      var spec := After(Hour(x));
      ParseCommand(s, env) == if within && until then None else Some(Kaisan(All, TableRange(within, until, spec).value))
  {
    var s := NatToString(x) + "時間" + SuffixText(within, until);
    var n := |NatToString(x)|;
    HoursTableRange(s, n, x, within, until);
    CommandOfNumbered(s, env, NumberedRange(s, 0));
  }

  /** The time range read from N時間 and a suffix: the table's entry, or, for the suffix
    * 以内まで that the table lacks, the hour of the day N that stops before 間. */
  lemma HoursTableRange(s: string, n: nat, x: U8, within: bool, until: bool)
    requires s == NatToString(x) + "時間" + SuffixText(within, until) && n == |NatToString(x)|
    ensures |s| > 0 && IsDigit(s[0]) && n + 1 < |s| && s[n + 1] == '間'
    ensures NumberedRange(s, 0) ==
      if !(within && until) then Some((TableRange(within, until, After(Hour(x))).value, |s|))
      else if x < 24 then Some((RangeAt(At(Hour(x), false)), n + 1))
      else None
  {
    var suf := SuffixText(within, until);
    assert s == NatToString(x) + ("時間" + suf);
    NumberThen(s, x, "時間" + suf);
    HoursOfText(s, n, x, within, until);
    assert MinutesRange(s, n, x).None?;
    if within && until {
      HourMarkBeforeKan(s, n, x);
    }
  }

  /** After a number, 秒 starts neither a relative range nor a time of day. */
  lemma SecondsOfText(s: string, n: nat, x: U8)
    requires MatchAt(s, n, "秒後")
    ensures MinutesRange(s, n, x).None? && HoursRange(s, n, x).None?
    ensures UntilSuffix(s, SpecAtTail(s, n, x)).None?
  {
    R.MatchAtIndex(s, n, "秒後", 0);
    WsAtNonSpace(s, n);
    R.NoWordAt(s, n, N.MinuteWords);
    R.NoWordAt(s, n, N.HourWords);
    NoMatchAtChar(s, n, ":", 0);
  }

  /** This snapshot has no seconds: a number of seconds is not a command. */
  lemma NoSeconds(x: U8, env: N.ParseEnv)
    ensures ParseCommand(NatToString(x) + "秒後", env).None?
  {
    var s := NatToString(x) + "秒後";
    NumberThen(s, x, "秒後");
    SecondsOfText(s, |NatToString(x)|, x);
    assert NumberedRange(s, 0).None?;
    RangeOfNumbered(s, env);
    NoCommandWithoutRange(s, env);
  }

  /** After a number, 時まで is the hour of the day, by that hour. */
  lemma HourUntilOfText(s: string, n: nat, h: Time.Hour)
    requires MatchAt(s, n, "時まで") && |s| == n + 3
    ensures MinutesRange(s, n, h).None? && HoursRange(s, n, h).None?
    ensures UntilSuffix(s, SpecAtTail(s, n, h)) == Some((RangeBy(At(Hour(h), false)), |s|))
  {
    R.MatchAtIndex(s, n, "時まで", 0);
    R.MatchAtIndex(s, n, "時まで", 1);
    R.MatchAtConcat(s, n, "時", "まで");
    WsAtNonSpace(s, n);
    R.HourCharIsNoUnit(s, n);
    NoMatchAtChar(s, n, ":", 0);
    NoMatchAtChar(s, n, "分", 0);
    WsAtNonSpace(s, n + 1);
    R.NoSpecMinuteAt(s, n + 1);
    assert SpecAtTail(s, n, h) == Some((At(Hour(h), false), n + 1));
  }

  /** An hour of the day with 時まで: by that hour, today. */
  lemma ByHour(h: Time.Hour, env: N.ParseEnv)
    ensures ParseCommand(NatToString(h) + "時まで", env) == Some(Kaisan(All, RangeBy(At(Hour(h), false))))
  {
    var s := NatToString(h) + "時まで";
    NumberThen(s, h, "時まで");
    HourUntilOfText(s, |NatToString(h)|, h);
    assert NumberedRange(s, 0) == Some((RangeBy(At(Hour(h), false)), |s|));
    RangeOfNumbered(s, env);
    R.KaisanTailAtEnd(s);
    CommandOfRange(s, env, RangeBy(At(Hour(h), false)), |s|);
  }

  /** The time range of the kaisanee-twice example: x minutes from now, up to e. */
  lemma MinutesAfterAt(s: string, q: nat, x: U8, e: nat, env: N.ParseEnv)
    requires MatchAt(s, q, NatToString(x) + "分後 ") && e == q + |NatToString(x)| + 2
    ensures TimeRange(s, q, env) == Some((RangeAt(After(Minute(x))), e))
  {
    var k := q + |NatToString(x)|;
    MinutesAfterChars(s, q, x, k, e);
    MinutesRangeOfParts(s, q, x, k, k + 1, e, env);
  }

  lemma MinutesAfterChars(s: string, q: nat, x: U8, k: nat, e: nat)
    requires MatchAt(s, q, NatToString(x) + "分後 ") && k == q + |NatToString(x)| && e == k + 2
    ensures e <= |s| && N.NumberRule(s, q).result == Some((x, k)) && Ws(s, k) == k
    ensures Literals(s, k, N.MinuteWords).result == Some((4, k + 1)) && Ws(s, k + 1) == k + 1
    ensures s[k + 1] == '後' && !MatchAt(s, e, "まで")
  {
    var d := NatToString(x);
    R.MatchAtSplit(s, q, d, "分後 ", k);
    R.MatchAtIndex(s, k, "分後 ", 0);
    R.MatchAtIndex(s, k, "分後 ", 1);
    R.MatchAtIndex(s, k, "分後 ", 2);
    R.NumberAt(s, q, x, k);
    MinuteMarkRules(s, k);
    NoMatchAtChar(s, e, "まで", 0);
  }

  /** 分 followed by a character other than a space. */
  lemma MinuteMarkRules(s: string, k: nat)
    requires k + 1 < |s| && s[k] == '分' && s[k + 1] != ' '
    ensures Ws(s, k) == k && Literals(s, k, N.MinuteWords).result == Some((4, k + 1)) && Ws(s, k + 1) == k + 1
  {
    WsAtNonSpace(s, k);
    R.MinuteMark(s, k);
    WsAtNonSpace(s, k + 1);
  }

  /** The number x up to k, 分 up to c, then 後 up to e and no まで. */
  lemma MinutesRangeOfParts(s: string, q: nat, x: U8, k: nat, c: nat, e: nat, env: N.ParseEnv)
    requires q <= k && c == k + 1 && e == c + 1 && e <= |s|
    requires N.NumberRule(s, q).result == Some((x, k)) && Ws(s, k) == k
    requires Literals(s, k, N.MinuteWords).result == Some((4, c)) && Ws(s, c) == c
    requires s[c] == '後' && !MatchAt(s, e, "まで")
    ensures TimeRange(s, q, env) == Some((RangeAt(After(Minute(x))), e))
  {
    assert After(WithMinute(x, None)) == After(Minute(x));
    assert RelativeSuffix(s, c, After(Minute(x))) == Some((RangeAt(After(Minute(x))), e));
    assert MinutesRange(s, k, x) == Some((RangeAt(After(Minute(x))), e));
  }

  /** A kaisanee before a time range and another after it: no kaisan line. */
  lemma BothSidesRejected(s: string, env: N.ParseEnv, k: KaisaneeSpecifier, q: nat,
                          tr: TimeRangeSpecifier, e: nat)
    requires N.SpecKaisanee(s, 0).result == Some((k, q)) && q <= e <= |s|
    requires TimeRange(s, q, env) == Some((tr, e))
    requires N.KaisanTail(s, e).Value().Some?
    ensures KaisanLine(s, 0, env).None?
  {
  }

  /** Naming the kaisanee both before and after the time range is rejected. */
  lemma KaisaneeTwice(x: U8, env: N.ParseEnv)
    ensures ParseCommand("me " + NatToString(x) + "分後 all 解散", env).None?
  {
    var s := "me " + NatToString(x) + "分後 all 解散";
    var n := |NatToString(x)|;
    var e := 5 + n;
    R.TwiceParts(s, x, n, e);
    MinutesAfterAt(s, 3, x, e, env);
    R.KaisaneeAfterRange(s, e);
    BothSidesRejected(s, env, Me, 3, RangeAt(After(Minute(x))), e);
  }

  // ---------------------------------------------------------------------------
  // help

  /** `help` alone is the help command. */
  lemma HelpOfText(env: N.ParseEnv)
    ensures ParseCommand("help", env) == Some(Help)
  {
    assert MatchAt("help", 0, "help");
  }

  /** `help` followed by anything is no command: the help alternative is taken and
    * the rest is left over. */
  lemma HelpWithTrailing(t: string, env: N.ParseEnv)
    requires t != ""
    ensures ParseCommand("help" + t, env).None?
  {
    var s := "help" + t;
    R.MatchAtWhole(s, "help", t);
  }
}
