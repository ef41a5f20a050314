/** The command language (src/model/command.rs): what follows the bot's mention in a
  * message, read by a parsing-expression grammar into a `Command`. Every rule takes
  * the input and a position and gives a `Parsed` outcome, which also carries the
  * furthest position where a terminal outside `quiet!` failed; that position is where
  * a failed command is reported. */
module Command {
  import opened Wrappers
  import opened Numeric
  import opened Peg
  import opened Time
  import opened Kaisanee
  import opened KanjiNumerals

  datatype TimeRangeSpecifier =
    | RangeBy(spec: TimeSpecifier)
    | RangeAt(spec: TimeSpecifier)

  datatype Command =
    | Kaisan(kaisanee: KaisaneeSpecifier, timeRange: TimeRangeSpecifier)
    | ShowSetting
    | TimeZone(tz: Tz)
    | RequirePermission(required: bool)
    | Help

  /** The rest of the input from the position of the error. (The set of expected
    * tokens that the source also reports is not modelled.) */
  datatype ParseCommandError = ParseCommandError(got: Option<string>)

  /** The two library parsers the grammar calls: RFC 3339 timestamps, and time-zone
    * names looked up in the IANA database. */
  datatype ParseEnv = ParseEnv(
    parseRfc3339: string -> Option<OffsetDateTime>,
    parseTimezone: string -> Option<Tz>)

  predicate CharAt(s: string, p: nat, c: char)
  {
    p < |s| && s[p] == c
  }

  function Max3(a: nat, b: nat, c: nat): nat
  {
    Max(Max(a, b), c)
  }

  lemma Max3AtMost(a: nat, b: nat, c: nat, n: nat)
    requires a <= n && b <= n && c <= n
    ensures Max3(a, b, c) <= n
  {
  }

  const MeWords: seq<string> := ["me", "Me", "私", "わたし", "俺", "おれ", "オレ", "僕", "ぼく", "ボク"]
  const AllWords: seq<string> := ["all", "All", "全員", "皆", "みんな"]
  const SecondWords: seq<string> := ["seconds", "second", "sec", "s", "秒"]
  const MinuteWords: seq<string> := ["minutes", "minute", "min", "m", "分"]
  const HourWords: seq<string> := ["hours", "hour", "hr", "h", "時間"]
  const TrueWords: seq<string> := ["true", "yes", "はい"]
  const BooleanWords: seq<string> := ["true", "false", "yes", "no", "はい", "いいえ"]

  /** `user`: a mention `<@!digits>`. The digit run always ends with a failed attempt
    * at the next character, which is recorded. */
  function UserRule(s: string, p: nat): (r: Parsed<UserId>)
    requires p <= |s|
    ensures Within(r, p, |s|)
    ensures r.Ok() ==> p < r.Next()
  {
    if !MatchAt(s, p, "<@!") then Fail(p)
    else
      var q := p + 3;
      var e := ClassRunEnd(s, q, IsDigit);
      if e == q then Fail(q)
      else if CharAt(s, e, '>') then Match(DecimalValue(s[q..e]), e + 1, e)
      else Fail(e)
  }

  /** The users after the first of `user() ** _`: a failed user ends the list where the
    * previous one ended. */
  function MoreUsers(s: string, p: nat): (r: Parsed<seq<UserId>>)
    requires p <= |s|
    ensures r.Ok() && Within(r, p, |s|)
    decreases |s| - p
  {
    var u := UserRule(s, Ws(s, p));
    if !u.Ok() then Match([], p, u.far)
    else
      var t := MoreUsers(s, u.Next());
      Match([u.Value()] + t.Value(), t.Next(), Max(u.far, t.far))
  }

  /** `users`: one or more mentions separated by spaces. An empty list is rejected at
    * the position where the list would have started. */
  function UsersRule(s: string, p: nat): (r: Parsed<seq<UserId>>)
    requires p <= |s|
    ensures Within(r, p, |s|)
    ensures r.Ok() ==> |r.Value()| > 0
  {
    var u := UserRule(s, p);
    if !u.Ok() then Fail(Max(u.far, p))
    else
      var t := MoreUsers(s, u.Next());
      Match([u.Value()] + t.Value(), t.Next(), Max(u.far, t.far))
  }

  /** `kaisanee`: me, all, or a list of users, tried in that order. */
  function KaisaneeRule(s: string, p: nat): (r: Parsed<KaisaneeSpecifier>)
    requires p <= |s|
    ensures Within(r, p, |s|)
    ensures r.Ok() && r.Value().Users? ==> |r.Value().users| > 0
  {
    var m := QuietLiterals(s, p, MeWords);
    if m.Ok() then Match(Me, m.Next(), 0)
    else
      var a := QuietLiterals(s, p, AllWords);
      if a.Ok() then Match(All, a.Next(), p)
      else
        var u := UsersRule(s, p);
        if u.Ok() then Match(Users(u.Value()), u.Next(), Max(p, u.far))
        else Fail(Max(p, u.far))
  }

  /** `number`, entirely inside `quiet!`: one to three ASCII digits whose value fits
    * in a byte, or else a kanji numeral. */
  function NumberRule(s: string, p: nat): (r: Parsed<U8>)
    requires p <= |s|
    ensures Within(r, p, |s|)
    ensures r.Ok() ==> p < r.Next() && r.far == 0
    ensures !r.Ok() ==> r.far == p
  {
    var e := DigitRunEnd(s, p, 3);
    if e > p && DecimalValue(s[p..e]) <= 255 then Match(DecimalValue(s[p..e]), e, 0)
    else
      match KanjiNumber(s, p)
      case Some((x, q)) => Match(x, q, 0)
      case None => Fail(p)
  }

  /** The shared shape of `minute` and `hour`: one or two ASCII digits, or a kanji
    * numeral, whose value must be below `bound`. The digits are tried outside
    * `quiet!`, so a digit run shorter than two records the attempt that ended it. */
  function BoundedNumber(s: string, p: nat, bound: nat): (r: Parsed<U8>)
    requires p <= |s| && bound <= 256
    ensures Within(r, p, |s|)
    ensures r.Ok() ==> p < r.Next() && r.Value() < bound
  {
    var e := DigitRunEnd(s, p, 2);
    var digitFar := if e < p + 2 then e else 0;
    if e > p then
      var v := DecimalValue(s[p..e]);
      if v < bound then Match(v, e, digitFar) else Fail(Max(digitFar, e))
    else
      match KanjiNumber(s, p)
      case Some((x, q)) => if x < bound then Match(x, q, digitFar) else Fail(Max(digitFar, q))
      case None => Fail(Max(digitFar, p))
  }

  /** `minute`: a number below 60. */
  function MinuteRule(s: string, p: nat): (r: Parsed<Minute>)
    requires p <= |s|
    ensures Within(r, p, |s|)
    ensures r.Ok() ==> p < r.Next()
  {
    var n := BoundedNumber(s, p, 60);
    if n.Ok() then Match(n.Value() as Minute, n.Next(), n.far) else Fail(n.far)
  }

  /** `hour`: a number below 24. */
  function HourRule(s: string, p: nat): (r: Parsed<Hour>)
    requires p <= |s|
    ensures Within(r, p, |s|)
    ensures r.Ok() ==> p < r.Next()
  {
    var n := BoundedNumber(s, p, 24);
    if n.Ok() then Match(n.Value() as Hour, n.Next(), n.far) else Fail(n.far)
  }

  /** `spec_minute`: 半 (half past), or a minute followed by 分. */
  function SpecMinute(s: string, p: nat): (r: Parsed<Minute>)
    requires p <= |s|
    ensures Within(r, p, |s|)
    ensures r.Ok() ==> p < r.Next()
  {
    if CharAt(s, p, '半') then Match(30, Ws(s, p + 1), 0)
    else
      var m := MinuteRule(s, p);
      if !m.Ok() then Fail(Max(p, m.far))
      else
        var q := Ws(s, m.Next());
        if CharAt(s, q, '分') then Match(m.Value(), Ws(s, q + 1), Max(p, m.far))
        else Fail(Max3(p, m.far, q))
  }

  /** An optional `spec_minute` at `p`: the minute if there is one, and where the
    * optional part ends. */
  function OptionalSpecMinute(s: string, p: nat): (r: Parsed<Option<Minute>>)
    requires p <= |s|
    ensures r.Ok() && Within(r, p, |s|)
  {
    var m := SpecMinute(s, p);
    if m.Ok() then Match(Some(m.Value()), m.Next(), m.far) else Match(None, p, m.far)
  }

  /** `spec_at_tomorrow`: 明日の, an hour, and either `:minute` or 時 with an optional
    * minute. */
  function SpecAtTomorrow(s: string, p: nat): (r: Parsed<TimeSpecifier>)
    requires p <= |s|
    ensures Within(r, p, |s|)
    ensures r.Ok() ==> r.Value().At? && !r.Value().at.AtMinute? && r.Value().at.isTomorrow
  {
    if !MatchAt(s, p, "明日の") then Fail(p)
    else
      var h := HourRule(s, Ws(s, p + 3));
      if !h.Ok() then Fail(h.far)
      else TomorrowAfterHour(s, h.Value(), h.Next(), h.far)
  }

  /** What follows the hour of `spec_at_tomorrow`, which ended at hn having looked as
    * far as hf: either `:minute`, or 時 with an optional minute. */
  function TomorrowAfterHour(s: string, h: Hour, hn: nat, hf: nat): (r: Parsed<TimeSpecifier>)
    requires hn <= |s| && hf <= |s|
    ensures Within(r, hn, |s|)
    ensures r.Ok() ==>
      r.Value().At? && !r.Value().at.AtMinute? && r.Value().at.isTomorrow && r.Value().at.hour == h
  {
    var m := if CharAt(s, hn, ':') then MinuteRule(s, hn + 1) else Fail(hn);
    if m.Ok() then
      Match(At(AtHourMinute(h, m.Value(), true)), Ws(s, m.Next()), Max(hf, m.far))
    else
      var q := Ws(s, hn);
      if !CharAt(s, q, '時') then Fail(Max3(hf, m.far, q))
      else
        var sm := OptionalSpecMinute(s, Ws(s, q + 1));
        Match(At(AtWithHour(h, sm.Value(), true)), sm.Next(), Max3(hf, m.far, sm.far))
  }

  predicate IsRfc3339Char(c: char)
  {
    c == 'T' || c == 'Z' || c == '+' || c == '-' || c == '.' || c == ':' || IsDigit(c)
  }

  /** `spec_at_rfc3339`: the word rfc3339 and a timestamp, handed to the timestamp
    * parser; one it rejects is reported at the end of the rule. */
  function SpecAtRfc3339(s: string, p: nat, env: ParseEnv): (r: Parsed<TimeSpecifier>)
    requires p <= |s|
    ensures Within(r, p, |s|)
    ensures r.Ok() ==> r.Value().Exactly?
  {
    if !MatchAt(s, p, "rfc3339") then Fail(p)
    else
      var q := Ws(s, p + 7);
      var e := ClassRunEnd(s, q, IsRfc3339Char);
      if e == q then Fail(q)
      else
        match env.parseRfc3339(s[q..e])
        case Some(t) => Match(Exactly(t), Ws(s, e), e)
        case None => Fail(Ws(s, e))
  }

  /** `spec_at_tail(x)`, what may follow a number read as a time of day: `:minute`
    * with an optional `tomorrow` (x is then the hour), 分 (x is the minute), or 時 with
    * an optional minute (x is the hour). */
  function SpecAtTail(s: string, p: nat, x: U8): (r: Parsed<TimeSpecifier>)
    requires p <= |s|
    ensures Within(r, p, |s|)
    ensures r.Ok() ==> r.Value().At?
  {
    Or(SpecAtColon(s, p, x), Or(SpecAtMinuteMark(s, p, x), SpecAtHourMark(s, p, x)))
  }

  /** `[':'] minute() _ ("tomorrow" _)?`, with x as the hour. */
  function SpecAtColon(s: string, p: nat, x: U8): (r: Parsed<TimeSpecifier>)
    requires p <= |s|
    ensures Within(r, p, |s|)
    ensures r.Ok() ==> r.Value().At? && r.Value().at.AtHourMinute?
  {
    if !CharAt(s, p, ':') then Fail(p)
    else
      var m := MinuteRule(s, p + 1);
      if !m.Ok() then Fail(m.far)
      else
        var q := Ws(s, m.Next());
        var tomorrow := MatchAt(s, q, "tomorrow");
        var e := if tomorrow then Ws(s, q + 8) else q;
        var far := if tomorrow then m.far else Max(m.far, q);
        if x < 24 then Match(At(AtHourMinute(x as Hour, m.Value(), tomorrow)), e, far)
        else Fail(Max(far, e))
  }

  /** `_ ['分'] _`, with x as the minute. */
  function SpecAtMinuteMark(s: string, p: nat, x: U8): (r: Parsed<TimeSpecifier>)
    requires p <= |s|
    ensures Within(r, p, |s|)
    ensures r.Ok() ==> x < 60 && r.Value() == At(AtMinute(x as Minute))
  {
    var q := Ws(s, p);
    if !CharAt(s, q, '分') then Fail(q)
    else if x < 60 then Match(At(AtWithMinute(x as Minute, None)), Ws(s, q + 1), 0)
    else Fail(Ws(s, q + 1))
  }

  /** `_ ['時'] _ spec_minute()?`, with x as the hour (today). */
  function SpecAtHourMark(s: string, p: nat, x: U8): (r: Parsed<TimeSpecifier>)
    requires p <= |s|
    ensures Within(r, p, |s|)
    ensures r.Ok() ==>
      r.Value().At? && !r.Value().at.AtMinute? && r.Value().at.hour == x && !r.Value().at.isTomorrow
  {
    var q := Ws(s, p);
    if !CharAt(s, q, '時') then Fail(q)
    else
      var sm := OptionalSpecMinute(s, Ws(s, q + 1));
      if x < 24 then Match(At(AtWithHour(x as Hour, sm.Value(), false)), sm.Next(), sm.far)
      else Fail(Max(sm.far, sm.Next()))
  }

  /** `spec_at_half`: 半 alone, half past the current hour. */
  function SpecAtHalf(s: string, p: nat): (r: Parsed<TimeSpecifier>)
    requires p <= |s|
    ensures Within(r, p, |s|)
    ensures r.Ok() ==> r.Value() == At(AtMinute(30))
  {
    if CharAt(s, p, '半') then Match(At(AtMinute(30)), Ws(s, p + 1), 0) else Fail(p)
  }

  /** `spec_at`: a number with a `spec_at_tail`, or tomorrow, rfc3339 or half past. */
  function SpecAt(s: string, p: nat, env: ParseEnv): (r: Parsed<TimeSpecifier>)
    requires p <= |s|
    ensures Within(r, p, |s|)
    ensures r.Ok() ==> r.Value().At? || r.Value().Exactly?
  {
    var n := NumberRule(s, p);
    var tail := if n.Ok() then SpecAtTail(s, n.Next(), n.Value()) else Fail(n.far);
    var tomorrow := SpecAtTomorrow(s, p);
    var rfc := SpecAtRfc3339(s, p, env);
    var half := SpecAtHalf(s, p);
    OrWithin(rfc, half, p, |s|);
    OrWithin(tomorrow, Or(rfc, half), p, |s|);
    OrWithin(tail, Or(tomorrow, Or(rfc, half)), p, |s|);
    Or(tail, Or(tomorrow, Or(rfc, half)))
  }

  /** `(m:number() _ minute_suffix() _)?` after an hour suffix. */
  function MinutesAfterHours(s: string, p: nat): (r: Parsed<Option<U8>>)
    requires p <= |s|
    ensures r.Ok() && Within(r, p, |s|)
  {
    var n := NumberRule(s, p);
    if !n.Ok() then Match(None, p, n.far)
    else
      var l := Literals(s, Ws(s, n.Next()), MinuteWords);
      if l.Ok() then Match(Some(n.Value()), Ws(s, l.Next()), l.far) else Match(None, p, l.far)
  }

  /** `spec_after`: a number with a minute, second or hour suffix (an hour suffix may
    * be followed by minutes). */
  function SpecAfter(s: string, p: nat): (r: Parsed<TimeSpecifier>)
    requires p <= |s|
    ensures Within(r, p, |s|)
    ensures r.Ok() ==> r.Value().After?
  {
    var n := NumberRule(s, p);
    if !n.Ok() then Fail(n.far) else SpecAfterUnit(s, Ws(s, n.Next()), n.Value())
  }

  /** The rest of `spec_after` from q, after the number x: a minute, second or hour
    * suffix. */
  function SpecAfterUnit(s: string, q: nat, x: U8): (r: Parsed<TimeSpecifier>)
    requires q <= |s|
    ensures Within(r, q, |s|)
    ensures r.Ok() ==> r.Value().After?
  {
    var mi := Literals(s, q, MinuteWords);
    var se := Literals(s, q, SecondWords);
    Or(if mi.Ok() then Match(After(AfterWithMinute(x, None)), Ws(s, mi.Next()), mi.far) else Fail(mi.far),
      Or(if se.Ok() then Match(After(AfterSecond(x)), Ws(s, se.Next()), se.far) else Fail(se.far),
        SpecAfterHours(s, q, x)))
  }

  /** The hour suffix of `spec_after` from q, with the minutes that may follow it. */
  function SpecAfterHours(s: string, q: nat, x: U8): (r: Parsed<TimeSpecifier>)
    requires q <= |s|
    ensures Within(r, q, |s|)
    ensures r.Ok() ==> r.Value().After? && (r.Value().after.AfterHour? || r.Value().after.AfterHourMinute?)
  {
    var ho := Literals(s, q, HourWords);
    if ho.Ok() then
      var m := MinutesAfterHours(s, Ws(s, ho.Next()));
      Match(After(AfterWithHour(x, m.Value())), m.Next(), Max(ho.far, m.far))
    else Fail(ho.far)
  }

  /** `spec_after_suffix(spec)`: 後まで (by then), 後 (at then) or 以内 (by then). */
  function SpecAfterSuffix(s: string, p: nat, spec: AfterTimeSpecifier): (r: Parsed<TimeRangeSpecifier>)
    requires p <= |s|
    ensures Within(r, p, |s|)
    ensures r.Ok() ==> r.Value().spec == After(spec)
  {
    if MatchAt(s, p, "後まで") then Match(RangeBy(After(spec)), p + 3, 0)
    else if CharAt(s, p, '後') then Match(RangeAt(After(spec)), p + 1, p)
    else if MatchAt(s, p, "以内") then Match(RangeBy(After(spec)), p + 2, p)
    else Fail(p)
  }

  /** The relative alternatives of `time_range` after the number x: a second, minute
    * or hour suffix (hours possibly with minutes), then `spec_after_suffix`. */
  function RelativeRange(s: string, p: nat, x: U8): (r: Parsed<TimeRangeSpecifier>)
    requires p <= |s|
    ensures Within(r, p, |s|)
    ensures r.Ok() ==> r.Value().spec.After?
  {
    var q := Ws(s, p);
    Or(RelativeSeconds(s, q, x), Or(RelativeMinutes(s, q, x), RelativeHours(s, q, x)))
  }

  function RelativeSeconds(s: string, p: nat, x: U8): (r: Parsed<TimeRangeSpecifier>)
    requires p <= |s|
    ensures Within(r, p, |s|)
    ensures r.Ok() ==> r.Value().spec == After(AfterSecond(x))
  {
    var se := Literals(s, p, SecondWords);
    if se.Ok() then Then(se.far, SpecAfterSuffix(s, Ws(s, se.Next()), AfterSecond(x))) else Fail(se.far)
  }

  function RelativeMinutes(s: string, p: nat, x: U8): (r: Parsed<TimeRangeSpecifier>)
    requires p <= |s|
    ensures Within(r, p, |s|)
    ensures r.Ok() ==> r.Value().spec == After(AfterMinute(x))
  {
    var mi := Literals(s, p, MinuteWords);
    if mi.Ok() then Then(mi.far, SpecAfterSuffix(s, Ws(s, mi.Next()), AfterMinute(x))) else Fail(mi.far)
  }

  function RelativeHours(s: string, p: nat, x: U8): (r: Parsed<TimeRangeSpecifier>)
    requires p <= |s|
    ensures Within(r, p, |s|)
    ensures r.Ok() ==> r.Value().spec.After?
    ensures r.Ok() ==> r.Value().spec.after.AfterHour? || r.Value().spec.after.AfterHourMinute?
    ensures r.Ok() ==> r.Value().spec.after.hours == x
  {
    var ho := Literals(s, p, HourWords);
    if ho.Ok() then
      var m := MinutesAfterHours(s, Ws(s, ho.Next()));
      Then(Max(ho.far, m.far), SpecAfterSuffix(s, m.Next(), AfterWithHour(x, m.Value())))
    else Fail(ho.far)
  }

  /** An absolute specifier followed by an optional まで: by that time with it, at it
    * without. */
  function UntilSuffix(s: string, t: Parsed<TimeSpecifier>, p: nat): (r: Parsed<TimeRangeSpecifier>)
    requires Within(t, p, |s|)
    ensures Within(r, p, |s|)
    ensures r.Ok() <==> t.Ok()
    ensures r.Ok() ==> r.Value().spec == t.Value()
  {
    if !t.Ok() then Fail(t.far)
    else if MatchAt(s, t.Next(), "まで") then Match(RangeBy(t.Value()), t.Next() + 2, t.far)
    else Match(RangeAt(t.Value()), t.Next(), Max(t.far, t.Next()))
  }

  function ToRange(isBy: bool, t: Parsed<TimeSpecifier>): (r: Parsed<TimeRangeSpecifier>)
    ensures r.far == t.far && (r.Ok() <==> t.Ok())
    ensures r.Ok() ==> r.Next() == t.Next() && r.Value().spec == t.Value() && (r.Value().RangeBy? <==> isBy)
  {
    if !t.Ok() then Fail(t.far)
    else Match(if isBy then RangeBy(t.Value()) else RangeAt(t.Value()), t.Next(), t.far)
  }

  /** `time_range`: when the time is to come, and whether by it or at it. */
  function TimeRange(s: string, p: nat, env: ParseEnv): (r: Parsed<TimeRangeSpecifier>)
    requires p <= |s|
    ensures Within(r, p, |s|)
  {
    Or(NumberedRange(s, p), Or(AbsoluteRange(s, p, env), Or(NowRange(s, p), KeywordRange(s, p, env))))
  }

  /** A number, then a relative suffix or a `spec_at_tail` with an optional まで. */
  function NumberedRange(s: string, p: nat): (r: Parsed<TimeRangeSpecifier>)
    requires p <= |s|
    ensures Within(r, p, |s|)
  {
    var n := NumberRule(s, p);
    if n.Ok() then
      Or(RelativeRange(s, n.Next(), n.Value()),
        UntilSuffix(s, SpecAtTail(s, n.Next(), n.Value()), n.Next()))
    else Fail(n.far)
  }

  /** Tomorrow, rfc3339 or half past, with an optional まで. */
  function AbsoluteRange(s: string, p: nat, env: ParseEnv): (r: Parsed<TimeRangeSpecifier>)
    requires p <= |s|
    ensures Within(r, p, |s|)
  {
    UntilSuffix(s, Or(SpecAtTomorrow(s, p), Or(SpecAtRfc3339(s, p, env), SpecAtHalf(s, p))), p)
  }

  /** now or 今すぐ. */
  function NowRange(s: string, p: nat): (r: Parsed<TimeRangeSpecifier>)
    requires p <= |s|
    ensures Within(r, p, |s|)
    ensures r.Ok() ==> r.Value() == RangeAt(Now)
  {
    if MatchAt(s, p, "now") then Match(RangeAt(Now), p + 3, 0)
    else if MatchAt(s, p, "今すぐ") then Match(RangeAt(Now), p + 3, p)
    else Fail(p)
  }

  /** at or by with `spec_at`, after or within with `spec_after`. */
  function KeywordRange(s: string, p: nat, env: ParseEnv): (r: Parsed<TimeRangeSpecifier>)
    requires p <= |s|
    ensures Within(r, p, |s|)
  {
    Or(AtKeyword(s, p, "at", false, env), Or(AtKeyword(s, p, "by", true, env),
      Or(AfterKeyword(s, p, "after", false), AfterKeyword(s, p, "within", true))))
  }

  /** The keyword `w`, spaces, and `spec_at`. */
  function AtKeyword(s: string, p: nat, w: string, isBy: bool, env: ParseEnv): (r: Parsed<TimeRangeSpecifier>)
    requires p <= |s|
    ensures Within(r, p, |s|)
    ensures r.Ok() ==> (r.Value().RangeBy? <==> isBy)
  {
    if MatchAt(s, p, w) then ToRange(isBy, SpecAt(s, Ws(s, p + |w|), env)) else Fail(p)
  }

  /** The keyword `w`, spaces, and `spec_after`. */
  function AfterKeyword(s: string, p: nat, w: string, isBy: bool): (r: Parsed<TimeRangeSpecifier>)
    requires p <= |s|
    ensures Within(r, p, |s|)
    ensures r.Ok() ==> (r.Value().RangeBy? <==> isBy) && r.Value().spec.After?
  {
    if MatchAt(s, p, w) then ToRange(isBy, SpecAfter(s, Ws(s, p + |w|))) else Fail(p)
  }

  /** `spec_kaisanee`: a kaisanee, optionally followed by を. */
  function SpecKaisanee(s: string, p: nat): (r: Parsed<KaisaneeSpecifier>)
    requires p <= |s|
    ensures Within(r, p, |s|)
    ensures r.Ok() <==> KaisaneeRule(s, p).Ok()
    ensures r.Ok() ==> r.Value() == KaisaneeRule(s, p).Value()
  {
    var k := KaisaneeRule(s, p);
    if !k.Ok() then Fail(k.far)
    else
      var q := Ws(s, k.Next());
      if CharAt(s, q, 'を') then Match(k.Value(), Ws(s, q + 1), k.far) else Match(k.Value(), q, Max(k.far, q))
  }

  const BooleanValues: seq<bool> := [true, false, true, false, true, false]

  /** `boolean`, inside `quiet!`. */
  function BooleanRule(s: string, p: nat): (r: Parsed<bool>)
    requires p <= |s|
    ensures Within(r, p, |s|)
  {
    var b := QuietLiterals(s, p, BooleanWords);
    if b.Ok() then Match(BooleanValues[b.Value()], b.Next(), 0) else Fail(b.far)
  }

  predicate IsTimezoneChar(c: char)
  {
    'a' <= c <= 'z' || 'A' <= c <= 'Z' || IsDigit(c) || c == '+' || c == '-' || c == '/'
  }

  /** `"timezone" _ name`: the name is looked up in the time-zone database; an unknown
    * one is reported at its end. */
  function TimezoneCommand(s: string, p: nat, env: ParseEnv): (r: Parsed<Command>)
    requires p <= |s|
    ensures Within(r, p, |s|)
    ensures r.Ok() ==> r.Value().TimeZone?
  {
    if !MatchAt(s, p, "timezone") then Fail(p)
    else
      var q := Ws(s, p + 8);
      var e := ClassRunEnd(s, q, IsTimezoneChar);
      if e == q then Fail(q)
      else
        match env.parseTimezone(s[q..e])
        case Some(tz) => Match(TimeZone(tz), e, e)
        case None => Fail(e)
  }

  /** The kaisan line: an optional kaisanee, the time range, an optional に, an
    * optional kaisanee, and an optional 解散. The kaisanee may be given before or after
    * the time but not both; when it is given neither place, it is everyone. */
  function KaisanLine(s: string, p: nat, env: ParseEnv): (r: Parsed<Command>)
    requires p <= |s|
    ensures Within(r, p, |s|)
    ensures r.Ok() ==> r.Value().Kaisan?
  {
    var k1 := SpecKaisanee(s, p);
    var tr := TimeRange(s, if k1.Ok() then k1.Next() else p, env);
    if !tr.Ok() then Fail(Max(k1.far, tr.far)) else KaisanAfterRange(s, p, k1, tr)
  }

  /** The rest of the kaisan line once the time range tr is read, k1 being the
    * kaisanee read before it, if any. */
  function KaisanAfterRange(s: string, p: nat, k1: Parsed<KaisaneeSpecifier>, tr: Parsed<TimeRangeSpecifier>)
    : (r: Parsed<Command>)
    requires tr.Ok() && Within(tr, p, |s|) && k1.far <= |s|
    ensures Within(r, p, |s|)
    ensures r.Ok() ==> r.Value().Kaisan? && r.Value().timeRange == tr.Value()
    ensures r.Ok() ==> r.Next() == KaisanTail(s, tr.Next()).Next()
    // before the time only, after it only, neither (everyone), and both (refused)
    ensures k1.Ok() && KaisanTail(s, tr.Next()).Value().None? ==> r.Ok() && r.Value().kaisanee == k1.Value()
    ensures !k1.Ok() && KaisanTail(s, tr.Next()).Value().Some? ==>
      r.Ok() && r.Value().kaisanee == KaisanTail(s, tr.Next()).Value().value
    ensures !k1.Ok() && KaisanTail(s, tr.Next()).Value().None? ==> r.Ok() && r.Value().kaisanee == All
    ensures k1.Ok() && KaisanTail(s, tr.Next()).Value().Some? ==> !r.Ok()
  {
    var t := KaisanTail(s, tr.Next());
    var far := Max3(k1.far, tr.far, t.far);
    if k1.Ok() && t.Value().Some? then Fail(Max(far, t.Next()))
    else
      var k := if k1.Ok() then k1.Value() else if t.Value().Some? then t.Value().value else DefaultKaisanee;
      Match(Kaisan(k, tr.Value()), t.Next(), far)
  }

  /** What follows the time range: `_ (['に'] _)? spec_kaisanee()? "解散"?`, with the
    * kaisanee if one is given there. */
  function KaisanTail(s: string, p: nat): (r: Parsed<Option<KaisaneeSpecifier>>)
    requires p <= |s|
    ensures r.Ok() && Within(r, p, |s|)
  {
    var q := Ws(s, p);
    var ni := CharAt(s, q, 'に');
    var q2 := if ni then Ws(s, q + 1) else q;
    TailKaisanee(s, SpecKaisanee(s, q2), q2, if ni then 0 else q)
  }

  /** The part of that tail after the optional に, from q2 on, k being what
    * `spec_kaisanee()?` read there: then `"解散"?`. f is the failure the missing に
    * recorded, if it was missing. */
  function TailKaisanee(s: string, k: Parsed<KaisaneeSpecifier>, q2: nat, f: nat)
    : (r: Parsed<Option<KaisaneeSpecifier>>)
    requires f <= q2 <= |s| && Within(k, q2, |s|)
    ensures r.Ok() && Within(r, q2, |s|)
  {
    var q3 := if k.Ok() then k.Next() else q2;
    var kaisan := MatchAt(s, q3, "解散");
    Max3AtMost(f, k.far, if kaisan then 0 else q3, |s|);
    Match(if k.Ok() then Some(k.Value()) else None, if kaisan then q3 + 2 else q3,
      Max3(f, k.far, if kaisan then 0 else q3))
  }

  /** `command`: help, require-permission, timezone, show-setting, or a kaisan line. */
  function CommandRule(s: string, p: nat, env: ParseEnv): (r: Parsed<Command>)
    requires p <= |s|
    ensures Within(r, p, |s|)
  {
    var help := WordCommand(s, p, "help", Help);
    var permission := PermissionCommand(s, p);
    var zone := TimezoneCommand(s, p, env);
    var show := WordCommand(s, p, "show-setting", ShowSetting);
    var line := KaisanLine(s, p, env);
    OrWithin(show, line, p, |s|);
    OrWithin(zone, Or(show, line), p, |s|);
    OrWithin(permission, Or(zone, Or(show, line)), p, |s|);
    OrWithin(help, Or(permission, Or(zone, Or(show, line))), p, |s|);
    Or(help, Or(permission, Or(zone, Or(show, line))))
  }

  /** A command that is a single word. */
  function WordCommand(s: string, p: nat, w: string, c: Command): (r: Parsed<Command>)
    requires p <= |s|
    ensures Within(r, p, |s|)
    ensures r.Ok() <==> MatchAt(s, p, w)
    ensures r.Ok() ==> r.Value() == c && r.Next() == p + |w| && r.far == 0
  {
    if MatchAt(s, p, w) then Match(c, p + |w|, 0) else Fail(p)
  }

  /** `"require-permission" _ boolean()`. */
  function PermissionCommand(s: string, p: nat): (r: Parsed<Command>)
    requires p <= |s|
    ensures Within(r, p, |s|)
    ensures r.Ok() ==> r.Value().RequirePermission?
  {
    if MatchAt(s, p, "require-permission") then
      var b := BooleanRule(s, Ws(s, p + 18));
      if b.Ok() then Match(RequirePermission(b.Value()), b.Next(), 0) else Fail(b.far)
    else Fail(p)
  }

  /** `Command::from_str`: the whole input must be one command. Otherwise the error
    * carries the input from the furthest failure on; a command that matched but left
    * input over counts the expected end of input as a failure where it stopped. */
  function ParseCommand(s: string, env: ParseEnv): (r: Result<Command, ParseCommandError>)
    ensures r.Err? ==> r.error.got.Some? && |r.error.got.value| <= |s|
    ensures r.Err? ==> r.error.got.value == s[|s| - |r.error.got.value|..]
  {
    WholeCommand(s, CommandRule(s, 0, env))
  }

  /** The outcome of `command` applied to all of `s`: the command when it used up the
    * input, otherwise the error from the furthest failure. */
  function WholeCommand(s: string, c: Parsed<Command>): (r: Result<Command, ParseCommandError>)
    requires Within(c, 0, |s|)
    ensures r.Ok? <==> c.Ok() && c.Next() == |s|
    ensures r.Ok? ==> r.value == c.Value()
    ensures r.Err? ==> r.error.got.Some? && |r.error.got.value| <= |s|
    ensures r.Err? ==> r.error.got.value == s[|s| - |r.error.got.value|..]
  {
    if c.Ok() && c.Next() == |s| then Ok(c.Value())
    else
      var at := if c.Ok() then Max(c.far, c.Next()) else c.far;
      Err(ParseCommandError(Some(s[at..])))
  }
}
