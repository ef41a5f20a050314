/** A canonical spelling for every command the grammar can produce (except RFC 3339
  * timestamps), and the proof that the grammar reads each spelling back as the
  * command it spells. */
module CommandText {
  import opened Wrappers
  import opened Numeric
  import opened Peg
  import opened Time
  import opened Kaisanee
  import opened KanjiNumerals
  import opened Command

  // ---------------------------------------------------------------------------
  // Reading text that is known to be at a position

  lemma MatchAtConcat(s: string, p: nat, a: string, b: string)
    requires MatchAt(s, p, a + b)
    ensures MatchAt(s, p, a) && MatchAt(s, p + |a|, b)
  {
    assert s[p..p + |a|] == (a + b)[..|a|];
    assert s[p + |a|..p + |a| + |b|] == (a + b)[|a|..];
  }

  /** The same, with k the position where `b` starts. */
  lemma MatchAtSplit(s: string, p: nat, a: string, b: string, k: nat)
    requires MatchAt(s, p, a + b) && k == p + |a|
    ensures MatchAt(s, p, a) && MatchAt(s, k, b)
  {
    MatchAtConcat(s, p, a, b);
  }

  lemma MatchAtJoin(s: string, p: nat, a: string, b: string)
    requires MatchAt(s, p, a) && MatchAt(s, p + |a|, b)
    ensures MatchAt(s, p, a + b)
  {
    assert s[p..p + |a| + |b|] == s[p..p + |a|] + s[p + |a|..p + |a| + |b|];
  }

  lemma MatchAtWhole(s: string, a: string, b: string)
    requires s == a + b
    ensures MatchAt(s, 0, a) && MatchAt(s, |a|, b)
  {
    assert s[..|a|] == a && s[|a|..] == b;
  }

  lemma MatchAtIndex(s: string, p: nat, w: string, i: nat)
    requires MatchAt(s, p, w) && i < |w|
    ensures s[p + i] == w[i]
  {
    assert s[p..p + |w|][i] == s[p + i];
  }

  /** The character after a position, if any, is not one of `cs`. */
  predicate NotAt(s: string, p: nat, cs: set<char>)
  {
    p >= |s| || s[p] !in cs
  }

  /** No word of the list starts with the character at `p`. */
  lemma NoWordAt(s: string, p: nat, words: seq<string>)
    requires p <= |s|
    requires forall j :: 0 <= j < |words| ==> |words[j]| > 0 && NotAt(s, p, {words[j][0]})
    ensures FirstWord(s, p, words) == None
  {
    forall j | 0 <= j < |words| ensures !MatchAt(s, p, words[j]) {
      NoMatchAtChar(s, p, words[j], 0);
    }
  }

  /** A run of `k` characters of a class, not followed by another, is what
    * `ClassRunEnd` finds. */
  lemma {:induction false} ClassRunEndOfRun(s: string, p: nat, k: nat, inClass: char -> bool)
    requires p + k <= |s|
    requires forall i :: p <= i < p + k ==> inClass(s[i])
    requires p + k == |s| || !inClass(s[p + k])
    ensures ClassRunEnd(s, p, inClass) == p + k
    decreases k
  {
    if k > 0 {
      ClassRunEndOfRun(s, p + 1, k - 1, inClass);
    }
  }

  predicate NotDigitAt(s: string, p: nat)
  {
    p >= |s| || !IsDigit(s[p])
  }

  /** Where neither an ASCII digit nor a kanji numeral stands, no number starts. */
  lemma NoNumberAt(s: string, p: nat)
    requires p <= |s| && NotDigitAt(s, p) && (p == |s| || !IsKanjiNumeralChar(s[p]))
    ensures !NumberRule(s, p).Ok()
    ensures !BoundedNumber(s, p, 60).Ok() && !BoundedNumber(s, p, 24).Ok()
  {
    NoKanjiNumberAtNonNumeral(s, p);
  }

  /** The decimal display of a byte, followed by a non-digit, is read as that number. */
  lemma NumberOfDisplay(s: string, p: nat, n: U8)
    requires MatchAt(s, p, NatToString(n)) && NotDigitAt(s, p + |NatToString(n)|)
    ensures NumberRule(s, p).result == Some((n, p + |NatToString(n)|))
  {
    DigitRunOfDisplay(s, p, n, 3);
  }

  /** The same, with e the position right after the number. */
  lemma NumberAt(s: string, p: nat, n: U8, e: nat)
    requires e == p + |NatToString(n)| && MatchAt(s, p, NatToString(n)) && NotDigitAt(s, e)
    ensures NumberRule(s, p).result == Some((n, e))
  {
    NumberOfDisplay(s, p, n);
  }

  /** The same for `minute` and `hour`, whose values are below 60 and 24. */
  lemma BoundedOfDisplay(s: string, p: nat, n: U8, bound: nat)
    requires n < bound <= 100
    requires MatchAt(s, p, NatToString(n)) && NotDigitAt(s, p + |NatToString(n)|)
    ensures BoundedNumber(s, p, bound).result == Some((n, p + |NatToString(n)|))
  {
    DigitRunOfDisplay(s, p, n, 2);
  }

  lemma MinuteOfDisplay(s: string, p: nat, m: Minute, e: nat)
    requires e == p + |NatToString(m)| && MatchAt(s, p, NatToString(m)) && NotDigitAt(s, e)
    ensures MinuteRule(s, p).result == Some((m, e))
  {
    BoundedOfDisplay(s, p, m, 60);
  }

  lemma HourOfDisplay(s: string, p: nat, h: Hour, e: nat)
    requires e == p + |NatToString(h)| && MatchAt(s, p, NatToString(h)) && NotDigitAt(s, e)
    ensures HourRule(s, p).result == Some((h, e))
  {
    BoundedOfDisplay(s, p, h, 24);
  }

  // ---------------------------------------------------------------------------
  // Unit words

  lemma CharMatch(s: string, q: nat, c: char)
    requires CharAt(s, q, c)
    ensures MatchAt(s, q, [c])
  {
    assert s[q..q + 1] == [s[q]];
  }

  /** The first word that occurs is the one chosen. */
  lemma FirstWordAt(s: string, p: nat, words: seq<string>, i: nat)
    requires i < |words| && MatchAt(s, p, words[i])
    requires forall j :: 0 <= j < i ==> |words[j]| > 0 && NotAt(s, p, {words[j][0]})
    ensures FirstWord(s, p, words) == Some(i)
  {
    forall j | 0 <= j < i ensures !MatchAt(s, p, words[j]) {
      NoMatchAtChar(s, p, words[j], 0);
    }
  }

  lemma SecondMark(s: string, q: nat)
    requires CharAt(s, q, '秒')
    ensures Literals(s, q, SecondWords).result == Some((4, q + 1))
  {
    CharMatch(s, q, '秒');
    assert SecondWords[4] == "秒";
    FirstWordAt(s, q, SecondWords, 4);
  }

  lemma MinuteMark(s: string, q: nat)
    requires CharAt(s, q, '分')
    ensures Literals(s, q, MinuteWords).result == Some((4, q + 1))
    ensures !Literals(s, q, SecondWords).Ok() && !Literals(s, q, HourWords).Ok()
  {
    CharMatch(s, q, '分');
    assert MinuteWords[4] == "分";
    FirstWordAt(s, q, MinuteWords, 4);
    NoWordAt(s, q, SecondWords);
    NoWordAt(s, q, HourWords);
  }

  lemma HourMark(s: string, q: nat)
    requires MatchAt(s, q, "時間")
    ensures Literals(s, q, HourWords).result == Some((4, q + 2))
    ensures !Literals(s, q, SecondWords).Ok() && !Literals(s, q, MinuteWords).Ok()
  {
    MatchAtIndex(s, q, "時間", 0);
    assert HourWords[4] == "時間";
    FirstWordAt(s, q, HourWords, 4);
    NoWordAt(s, q, SecondWords);
    NoWordAt(s, q, MinuteWords);
  }

  /** No unit word starts where none of their first characters stands. */
  lemma NoUnitMark(s: string, q: nat)
    requires q <= |s| && NotAt(s, q, {'s', 'm', 'h', '秒', '分', '時'})
    ensures !Literals(s, q, SecondWords).Ok() && !Literals(s, q, MinuteWords).Ok()
    ensures !Literals(s, q, HourWords).Ok()
  {
    NoWordAt(s, q, SecondWords);
    NoWordAt(s, q, MinuteWords);
    NoWordAt(s, q, HourWords);
  }

  /** 時 alone (not 時間) is no unit word. */
  lemma HourCharIsNoUnit(s: string, q: nat)
    requires CharAt(s, q, '時') && NotAt(s, q + 1, {'間'})
    ensures !Literals(s, q, SecondWords).Ok() && !Literals(s, q, MinuteWords).Ok()
    ensures !Literals(s, q, HourWords).Ok()
  {
    NoWordAt(s, q, SecondWords);
    NoWordAt(s, q, MinuteWords);
    NoWordAt(s, q, HourWords[..4]);
    NoMatchAtChar(s, q, "時間", 1);
    assert FirstWord(s, q, HourWords) == None by {
      forall j | 0 <= j < 4 ensures !MatchAt(s, q, HourWords[j]) {
        assert HourWords[j] == HourWords[..4][j];
      }
    }
  }

  // ---------------------------------------------------------------------------
  // Relative times

  function Range(isBy: bool, spec: TimeSpecifier): TimeRangeSpecifier
  {
    if isBy then RangeBy(spec) else RangeAt(spec)
  }

  /** 以内 for "within", 後 for "after". */
  function AfterSuffixText(isBy: bool): string
  {
    if isBy then "以内" else "後"
  }

  /** The number a duration starts with. */
  function AfterNumber(a: AfterTimeSpecifier): U8
  {
    match a
    case AfterSecond(x) => x
    case AfterMinute(x) => x
    case AfterHour(h) => h
    case AfterHourMinute(h, _) => h
  }

  /** The unit of a duration, with the minutes of an hours-and-minutes duration. */
  function AfterUnitText(a: AfterTimeSpecifier): string
  {
    match a
    case AfterSecond(_) => "秒"
    case AfterMinute(_) => "分"
    case AfterHour(_) => "時間"
    case AfterHourMinute(_, m) => "時間" + (NatToString(m) + "分")
  }

  /** A duration: 10秒, 5分, 2時間, 1時間30分. */
  function AfterText(a: AfterTimeSpecifier): string
  {
    NatToString(AfterNumber(a)) + AfterUnitText(a)
  }

  lemma AfterSuffixAtEnd(s: string, q: nat, spec: AfterTimeSpecifier, isBy: bool)
    requires MatchAt(s, q, AfterSuffixText(isBy)) && q + |AfterSuffixText(isBy)| == |s|
    ensures SpecAfterSuffix(s, q, spec).result == Some((Range(isBy, After(spec)), |s|))
  {
    MatchAtIndex(s, q, AfterSuffixText(isBy), 0);
  }


  lemma SuffixStart(s: string, q: nat, isBy: bool)
    requires MatchAt(s, q, AfterSuffixText(isBy))
    ensures q < |s| && (s[q] == '以' || s[q] == '後')
  {
    MatchAtIndex(s, q, AfterSuffixText(isBy), 0);
  }

  lemma RelativeSecondsOfText(s: string, q: nat, x: U8, isBy: bool)
    requires MatchAt(s, q, "秒" + AfterSuffixText(isBy)) && q + 1 + |AfterSuffixText(isBy)| == |s|
    ensures RelativeRange(s, q, x).result == Some((Range(isBy, After(AfterSecond(x))), |s|))
  {
    MatchAtConcat(s, q, "秒", AfterSuffixText(isBy));
    MatchAtIndex(s, q, "秒", 0);
    SuffixStart(s, q + 1, isBy);
    WsAtNonSpace(s, q);
    WsAtNonSpace(s, q + 1);
    SecondMark(s, q);
    AfterSuffixAtEnd(s, q + 1, AfterSecond(x), isBy);
  }

  lemma RelativeMinutesOfText(s: string, q: nat, x: U8, isBy: bool)
    requires MatchAt(s, q, "分" + AfterSuffixText(isBy)) && q + 1 + |AfterSuffixText(isBy)| == |s|
    ensures RelativeRange(s, q, x).result == Some((Range(isBy, After(AfterMinute(x))), |s|))
  {
    MatchAtConcat(s, q, "分", AfterSuffixText(isBy));
    MatchAtIndex(s, q, "分", 0);
    SuffixStart(s, q + 1, isBy);
    WsAtNonSpace(s, q);
    WsAtNonSpace(s, q + 1);
    MinuteMark(s, q);
    AfterSuffixAtEnd(s, q + 1, AfterMinute(x), isBy);
  }

  /** The optional minutes after an hour unit. */
  function MinutesText(m: Option<U8>): string
  {
    if m.Some? then NatToString(m.value) + "分" else ""
  }

  lemma MinutesAfterHoursOfText(s: string, q: nat, m: Option<U8>, isBy: bool, e: nat)
    requires MatchAt(s, q, MinutesText(m) + AfterSuffixText(isBy)) && e == q + |MinutesText(m)|
    ensures MinutesAfterHours(s, q).result == Some((m, e))
  {
    var t := MinutesText(m);
    MatchAtConcat(s, q, t, AfterSuffixText(isBy));
    SuffixStart(s, e, isBy);
    if m.None? {
      NoNumberAt(s, q);
    } else {
      var n := NatToString(m.value);
      MatchAtConcat(s, q, n, "分");
      MatchAtIndex(s, q + |n|, "分", 0);
      WsAtNonSpace(s, e);
      MinutesAfterHoursSome(s, q, m.value, q + |n|, e);
    }
  }

  /** A number and 分, ending at e, are the minutes after an hour unit. */
  lemma MinutesAfterHoursSome(s: string, q: nat, v: U8, k: nat, e: nat)
    requires k == q + |NatToString(v)| && e == k + 1
    requires MatchAt(s, q, NatToString(v)) && CharAt(s, k, '分') && Ws(s, e) == e
    ensures MinutesAfterHours(s, q).result == Some((Some(v), e))
  {
    NumberAt(s, q, v, k);
    WsAtNonSpace(s, k);
    MinuteMark(s, k);
  }

  lemma RelativeHoursOfText(s: string, q: nat, h: U8, m: Option<U8>, isBy: bool)
    requires MatchAt(s, q, "時間" + MinutesText(m) + AfterSuffixText(isBy))
    requires q + 2 + |MinutesText(m)| + |AfterSuffixText(isBy)| == |s|
    ensures RelativeRange(s, q, h).result == Some((Range(isBy, After(AfterWithHour(h, m))), |s|))
  {
    MatchAtConcat(s, q, "時間", MinutesText(m) + AfterSuffixText(isBy));
    MatchAtConcat(s, q + 2, MinutesText(m), AfterSuffixText(isBy));
    RelativeHoursOfParts(s, q, h, m, isBy, q + 2 + |MinutesText(m)|);
  }

  lemma RelativeHoursOfParts(s: string, q: nat, h: U8, m: Option<U8>, isBy: bool, e: nat)
    requires MatchAt(s, q, "時間") && MatchAt(s, q + 2, MinutesText(m) + AfterSuffixText(isBy))
    requires e == q + 2 + |MinutesText(m)| && MatchAt(s, e, AfterSuffixText(isBy))
    requires e + |AfterSuffixText(isBy)| == |s|
    ensures RelativeRange(s, q, h).result == Some((Range(isBy, After(AfterWithHour(h, m))), |s|))
  {
    MatchAtIndex(s, q, "時間", 0);
    WsAtNonSpace(s, q);
    HourMark(s, q);
    SuffixStart(s, e, isBy);
    if m.Some? {
      MatchAtConcat(s, q + 2, MinutesText(m), AfterSuffixText(isBy));
      MatchAtIndex(s, q + 2, MinutesText(m), 0);
    }
    WsAtNonSpace(s, q + 2);
    MinutesAfterHoursOfText(s, q + 2, m, isBy, e);
    AfterSuffixAtEnd(s, e, AfterWithHour(h, m), isBy);
    RelativeHoursStep(s, q, h, m, e, isBy);
  }

  /** The hour unit at q, the minutes after it ending at e, and the suffix from e to
    * the end make the relative range. */
  lemma RelativeHoursStep(s: string, q: nat, h: U8, m: Option<U8>, e: nat, isBy: bool)
    requires q + 2 <= e <= |s| && Ws(s, q) == q && Ws(s, q + 2) == q + 2
    requires !Literals(s, q, SecondWords).Ok() && !Literals(s, q, MinuteWords).Ok()
    requires Literals(s, q, HourWords).result == Some((4, q + 2))
    requires MinutesAfterHours(s, q + 2).result == Some((m, e))
    requires SpecAfterSuffix(s, e, AfterWithHour(h, m)).result == Some((Range(isBy, After(AfterWithHour(h, m))), |s|))
    ensures RelativeRange(s, q, h).result == Some((Range(isBy, After(AfterWithHour(h, m))), |s|))
  {
  }

  /** A duration and its suffix, to the end of the input, is read as that duration,
    * at it (後) or by it (以内). */
  lemma NumberedRelativeOfText(s: string, p: nat, a: AfterTimeSpecifier, isBy: bool)
    requires MatchAt(s, p, AfterText(a) + AfterSuffixText(isBy))
    requires p + |AfterText(a) + AfterSuffixText(isBy)| == |s|
    ensures NumberedRange(s, p).result == Some((Range(isBy, After(a)), |s|))
  {
    var n := NatToString(AfterNumber(a));
    var rest := AfterUnitText(a) + AfterSuffixText(isBy);
    assert AfterText(a) + AfterSuffixText(isBy) == n + rest;
    NumberedRelativeOfParts(s, p, a, isBy, n, rest);
  }

  lemma NumberedRelativeOfParts(s: string, p: nat, a: AfterTimeSpecifier, isBy: bool, n: string, rest: string)
    requires n == NatToString(AfterNumber(a)) && rest == AfterUnitText(a) + AfterSuffixText(isBy)
    requires MatchAt(s, p, n + rest) && p + |n| + |rest| == |s|
    ensures NumberedRange(s, p).result == Some((Range(isBy, After(a)), |s|))
  {
    var q := p + |n|;
    NumberedRelativeChars(s, p, a, isBy, n, rest, q);
    RelativeOfUnitText(s, q, a, isBy);
    NumberedRangeOfRelative(s, p, AfterNumber(a), q);
  }

  lemma NumberedRelativeChars(s: string, p: nat, a: AfterTimeSpecifier, isBy: bool, n: string, rest: string, q: nat)
    requires n == NatToString(AfterNumber(a)) && rest == AfterUnitText(a) + AfterSuffixText(isBy)
    requires MatchAt(s, p, n + rest) && p + |n| + |rest| == |s| && q == p + |n|
    ensures NumberRule(s, p).result == Some((AfterNumber(a), q)) && MatchAt(s, q, rest)
  {
    MatchAtSplit(s, p, n, rest, q);
    AfterUnitFirst(a, isBy, rest);
    MatchAtIndex(s, q, rest, 0);
    NumberOfDisplay(s, p, AfterNumber(a));
  }

  /** The unit after the number of a duration is not a digit. */
  lemma AfterUnitFirst(a: AfterTimeSpecifier, isBy: bool, rest: string)
    requires rest == AfterUnitText(a) + AfterSuffixText(isBy)
    ensures |rest| > 0 && !IsDigit(rest[0])
  {
    assert rest[0] == AfterUnitText(a)[0];
  }

  lemma RelativeOfUnitText(s: string, q: nat, a: AfterTimeSpecifier, isBy: bool)
    requires MatchAt(s, q, AfterUnitText(a) + AfterSuffixText(isBy))
    requires q + |AfterUnitText(a) + AfterSuffixText(isBy)| == |s|
    ensures RelativeRange(s, q, AfterNumber(a)).result == Some((Range(isBy, After(a)), |s|))
  {
    var rest := AfterUnitText(a) + AfterSuffixText(isBy);
    match a
    case AfterSecond(x) =>
      RelativeSecondsOfText(s, q, x, isBy);
    case AfterMinute(x) =>
      RelativeMinutesOfText(s, q, x, isBy);
    case AfterHour(h) =>
      assert rest == "時間" + MinutesText(None) + AfterSuffixText(isBy);
      RelativeHoursOfText(s, q, h, None, isBy);
    case AfterHourMinute(h, m) =>
      assert rest == "時間" + MinutesText(Some(m)) + AfterSuffixText(isBy);
      RelativeHoursOfText(s, q, h, Some(m), isBy);
  }

  lemma NumberedRangeOfRelative(s: string, p: nat, x: U8, q: nat)
    requires p <= q <= |s|
    requires NumberRule(s, p).result == Some((x, q)) && RelativeRange(s, q, x).Ok()
    ensures NumberedRange(s, p).result == RelativeRange(s, q, x).result
  {
  }

  // ---------------------------------------------------------------------------
  // Times of day

  /** まで for "by", nothing for "at". */
  function UntilText(isBy: bool): string
  {
    if isBy then "まで" else ""
  }

  function TomorrowText(isTomorrow: bool): string
  {
    if isTomorrow then " tomorrow" else ""
  }

  /** The number a time of day is written with first (the hour, or the minute). */
  function AtNumber(a: AtTimeSpecifier): U8
  {
    if a.AtMinute? then a.minute else a.hour
  }

  /** What follows that number: 時, 分, or `:minute` and an optional tomorrow. */
  function AtUnitText(a: AtTimeSpecifier): string
  {
    match a
    case AtHour(_, _) => "時"
    case AtMinute(_) => "分"
    case AtHourMinute(_, m, t) => ":" + NatToString(m) + TomorrowText(t)
  }

  /** A time of day: 9時, 明日の9時, 30分, 9:30, 9:30 tomorrow. */
  function AtText(a: AtTimeSpecifier): string
  {
    if a.AtHour? && a.isTomorrow then "明日の" + NatToString(a.hour) + "時"
    else NatToString(AtNumber(a)) + AtUnitText(a)
  }

  /** The position after the time is the end, or まで follows. */
  lemma UntilStart(s: string, q: nat, isBy: bool)
    requires MatchAt(s, q, UntilText(isBy)) && q + |UntilText(isBy)| == |s|
    ensures q == |s| || s[q] == 'ま'
  {
    if isBy {
      MatchAtIndex(s, q, UntilText(isBy), 0);
    }
  }

  lemma UntilOfText(s: string, t: Parsed<TimeSpecifier>, p: nat, isBy: bool)
    requires Within(t, p, |s|) && t.Ok()
    requires MatchAt(s, t.Next(), UntilText(isBy)) && t.Next() + |UntilText(isBy)| == |s|
    ensures UntilSuffix(s, t, p).result == Some((Range(isBy, t.Value()), |s|))
  {
  }

  /** No rule reads a minute where the end, まで or a space stands. */
  lemma NoSpecMinuteAt(s: string, q: nat)
    requires q <= |s| && NotAt(s, q, {'半'}) && NotDigitAt(s, q) && (q == |s| || !IsKanjiNumeralChar(s[q]))
    ensures OptionalSpecMinute(s, q).result == Some((None, q))
  {
    NoNumberAt(s, q);
  }

  lemma HourMarkOfText(s: string, q: nat, h: Hour, isBy: bool, rest: string, f: nat)
    requires rest == "時" + UntilText(isBy)
    requires MatchAt(s, q, rest) && q + |rest| == |s| && f == q + 1
    ensures !RelativeRange(s, q, h).Ok()
    ensures SpecAtTail(s, q, h).result == Some((At(AtHour(h, false)), f))
  {
    MatchAtConcat(s, q, "時", UntilText(isBy));
    MatchAtIndex(s, q, "時", 0);
    UntilStart(s, f, isBy);
    WsAtNonSpace(s, q);
    WsAtNonSpace(s, f);
    HourCharIsNoUnit(s, q);
    NoSpecMinuteAt(s, f);
  }

  lemma MinuteMarkOfText(s: string, q: nat, m: Minute, isBy: bool, rest: string, f: nat)
    requires rest == "分" + UntilText(isBy)
    requires MatchAt(s, q, rest) && q + |rest| == |s| && f == q + 1
    ensures !RelativeRange(s, q, m).Ok()
    ensures SpecAtTail(s, q, m).result == Some((At(AtMinute(m)), f))
  {
    MatchAtConcat(s, q, "分", UntilText(isBy));
    MatchAtIndex(s, q, "分", 0);
    UntilStart(s, f, isBy);
    WsAtNonSpace(s, q);
    WsAtNonSpace(s, f);
    MinuteMark(s, q);
  }

  lemma ColonOfText(s: string, q: nat, h: Hour, m: Minute, t: bool, isBy: bool, rest: string, f: nat)
    requires rest == ":" + NatToString(m) + TomorrowText(t) + UntilText(isBy)
    requires MatchAt(s, q, rest) && q + |rest| == |s| && f == |s| - |UntilText(isBy)|
    ensures !RelativeRange(s, q, h).Ok()
    ensures SpecAtTail(s, q, h).result == Some((At(AtHourMinute(h, m, t)), f))
  {
    var e := ColonTextChars(s, q, m, t, isBy, rest, f);
    ColonOfParts(s, q, h, m, t, e, f);
  }

  /** The characters of `:minute`, the optional tomorrow ending at f, and the suffix. */
  lemma ColonTextChars(s: string, q: nat, m: Minute, t: bool, isBy: bool, rest: string, f: nat) returns (e: nat)
    requires rest == ":" + NatToString(m) + TomorrowText(t) + UntilText(isBy)
    requires MatchAt(s, q, rest) && q + |rest| == |s| && f == |s| - |UntilText(isBy)|
    ensures CharAt(s, q, ':') && MinuteRule(s, q + 1).result == Some((m, e))
    ensures MatchAt(s, e, TomorrowText(t)) && f == e + |TomorrowText(t)| && f <= |s|
    ensures f == |s| || s[f] == 'ま'
    ensures t ==> MatchAt(s, e + 1, "tomorrow")
  {
    Regroup4(":", NatToString(m), TomorrowText(t), UntilText(isBy));
    e := ColonChars(s, q, m, t, isBy, NatToString(m), TomorrowText(t) + UntilText(isBy), f);
  }

  /** The colon at q, the minute ending at e, and the optional tomorrow ending at f. */
  lemma ColonOfParts(s: string, q: nat, h: Hour, m: Minute, t: bool, e: nat, f: nat)
    requires CharAt(s, q, ':') && MinuteRule(s, q + 1).result == Some((m, e))
    requires MatchAt(s, e, TomorrowText(t)) && f == e + |TomorrowText(t)| && f <= |s|
    requires f == |s| || s[f] == 'ま'
    requires t ==> MatchAt(s, e + 1, "tomorrow")
    ensures !RelativeRange(s, q, h).Ok()
    ensures SpecAtTail(s, q, h).result == Some((At(AtHourMinute(h, m, t)), f))
  {
    WsAtNonSpace(s, q);
    NoUnitMark(s, q);
    TomorrowOfText(s, e, t, f);
    ColonRule(s, q, h, m, t, e, f);
  }

  lemma Regroup4(a: string, b: string, c: string, d: string)
    ensures a + b + c + d == a + (b + (c + d))
  {
  }

  /** The characters of `:minute` and the optional tomorrow. */
  lemma ColonChars(s: string, q: nat, m: Minute, t: bool, isBy: bool, n: string, after: string, f: nat)
    returns (e: nat)
    requires n == NatToString(m) && after == TomorrowText(t) + UntilText(isBy)
    requires MatchAt(s, q, ":" + (n + after)) && q + 1 + |n| + |after| == |s| && f == |s| - |UntilText(isBy)|
    ensures CharAt(s, q, ':') && MinuteRule(s, q + 1).result == Some((m, e))
    ensures MatchAt(s, e, TomorrowText(t)) && f == e + |TomorrowText(t)| && f <= |s|
    ensures f == |s| || s[f] == 'ま'
    ensures t ==> MatchAt(s, e + 1, "tomorrow")
  {
    MatchAtSplit(s, q, ":", n + after, q + 1);
    MatchAtIndex(s, q, ":", 0);
    MatchAtConcat(s, q + 1, n, after);
    e := q + 1 + |n|;
    TomorrowChars(s, e, t, isBy, after, f);
    MinuteOfDisplay(s, q + 1, m, e);
  }

  lemma TomorrowChars(s: string, e: nat, t: bool, isBy: bool, after: string, f: nat)
    requires after == TomorrowText(t) + UntilText(isBy)
    requires MatchAt(s, e, after) && e + |after| == |s| && f == |s| - |UntilText(isBy)|
    ensures NotDigitAt(s, e)
    ensures MatchAt(s, e, TomorrowText(t)) && f == e + |TomorrowText(t)| && f <= |s|
    ensures f == |s| || s[f] == 'ま'
    ensures t ==> MatchAt(s, e + 1, "tomorrow")
  {
    MatchAtSplit(s, e, TomorrowText(t), UntilText(isBy), f);
    UntilStart(s, f, isBy);
    if t {
      MatchAtIndex(s, e, TomorrowText(t), 0);
      MatchAtConcat(s, e, " ", "tomorrow");
    } else if e < |s| {
      MatchAtIndex(s, e, UntilText(isBy), 0);
    }
  }

  lemma ColonRule(s: string, q: nat, h: Hour, m: Minute, t: bool, e: nat, f: nat)
    requires CharAt(s, q, ':') && MinuteRule(s, q + 1).result == Some((m, e))
    requires MatchAt(s, Ws(s, e), "tomorrow") == t
    requires (if t then Ws(s, Ws(s, e) + 8) else Ws(s, e)) == f
    ensures SpecAtColon(s, q, h).result == Some((At(AtHourMinute(h, m, t)), f))
    ensures SpecAtTail(s, q, h).result == Some((At(AtHourMinute(h, m, t)), f))
  {
  }

  lemma TomorrowOfText(s: string, e: nat, t: bool, f: nat)
    requires MatchAt(s, e, TomorrowText(t)) && f == e + |TomorrowText(t)| && f <= |s|
    requires f == |s| || s[f] == 'ま'
    requires t ==> MatchAt(s, e + 1, "tomorrow")
    ensures MatchAt(s, Ws(s, e), "tomorrow") == t
    ensures (if t then Ws(s, Ws(s, e) + 8) else Ws(s, e)) == f
  {
    if t {
      MatchAtIndex(s, e, TomorrowText(t), 0);
      MatchAtIndex(s, e, TomorrowText(t), 1);
      assert Ws(s, e) == e + 1;
      WsAtNonSpace(s, e + 9);
    } else {
      WsAtNonSpace(s, e);
      if e < |s| {
        NoMatchAtChar(s, e, "tomorrow", 0);
      }
    }
  }

  /** A time of day that starts with its number, and then まで or nothing, to the end of
    * the input, is read as that time, by it or at it. */
  lemma NumberedAtOfParts(s: string, p: nat, a: AtTimeSpecifier, isBy: bool, n: string, rest: string)
    requires !(a.AtHour? && a.isTomorrow)
    requires n == NatToString(AtNumber(a)) && rest == AtUnitText(a) + UntilText(isBy)
    requires MatchAt(s, p, n + rest) && p + |n| + |rest| == |s|
    ensures NumberedRange(s, p).result == Some((Range(isBy, At(a)), |s|))
  {
    var q := p + |n|;
    NumberedAtChars(s, p, a, isBy, n, rest, q);
    var f := |s| - |UntilText(isBy)|;
    AtTailOfText(s, q, a, isBy, rest, f);
    NumberedAtOfRules(s, p, a, isBy, q, f);
  }

  lemma NumberedAtChars(s: string, p: nat, a: AtTimeSpecifier, isBy: bool, n: string, rest: string, q: nat)
    requires n == NatToString(AtNumber(a)) && rest == AtUnitText(a) + UntilText(isBy)
    requires MatchAt(s, p, n + rest) && p + |n| + |rest| == |s| && q == p + |n|
    ensures NumberRule(s, p).result == Some((AtNumber(a), q)) && MatchAt(s, q, rest)
  {
    MatchAtSplit(s, p, n, rest, q);
    AtUnitFirst(a, isBy, rest);
    MatchAtIndex(s, q, rest, 0);
    NumberOfDisplay(s, p, AtNumber(a));
  }

  lemma NumberedAtOfRules(s: string, p: nat, a: AtTimeSpecifier, isBy: bool, q: nat, f: nat)
    requires p <= q <= f && f + |UntilText(isBy)| == |s|
    requires NumberRule(s, p).result == Some((AtNumber(a), q)) && !RelativeRange(s, q, AtNumber(a)).Ok()
    requires SpecAtTail(s, q, AtNumber(a)).result == Some((At(a), f)) && MatchAt(s, f, UntilText(isBy))
    ensures NumberedRange(s, p).result == Some((Range(isBy, At(a)), |s|))
  {
    NumberedRangeOfAt(s, p, AtNumber(a), q);
    UntilOfText(s, SpecAtTail(s, q, AtNumber(a)), q, isBy);
  }

  /** The unit after the number of a time of day is not a digit. */
  lemma AtUnitFirst(a: AtTimeSpecifier, isBy: bool, rest: string)
    requires rest == AtUnitText(a) + UntilText(isBy)
    ensures |rest| > 0 && !IsDigit(rest[0])
  {
    assert rest[0] == AtUnitText(a)[0];
  }

  lemma AtTailOfText(s: string, q: nat, a: AtTimeSpecifier, isBy: bool, rest: string, f: nat)
    requires !(a.AtHour? && a.isTomorrow)
    requires rest == AtUnitText(a) + UntilText(isBy)
    requires MatchAt(s, q, rest) && q + |rest| == |s|
    requires f == |s| - |UntilText(isBy)|
    ensures !RelativeRange(s, q, AtNumber(a)).Ok()
    ensures SpecAtTail(s, q, AtNumber(a)).result == Some((At(a), f))
    ensures MatchAt(s, f, UntilText(isBy))
  {
    MatchAtConcat(s, q, AtUnitText(a), UntilText(isBy));
    assert q + |AtUnitText(a)| == f;
    assert MatchAt(s, f, UntilText(isBy));
    match a
    case AtHour(h, _) =>
      HourMarkOfText(s, q, h, isBy, rest, f);
      assert AtHour(h, false) == a;
    case AtMinute(m) => MinuteMarkOfText(s, q, m, isBy, rest, f);
    case AtHourMinute(h, m, t) => ColonOfText(s, q, h, m, t, isBy, rest, f);
  }

  lemma NumberedRangeOfAt(s: string, p: nat, x: U8, q: nat)
    requires p <= q <= |s|
    requires NumberRule(s, p).result == Some((x, q)) && !RelativeRange(s, q, x).Ok()
    ensures NumberedRange(s, p).result == UntilSuffix(s, SpecAtTail(s, q, x), q).result
  {
  }

  /** 明日の, an hour and 時, then まで or nothing, to the end of the input. */
  lemma TomorrowOfParts(s: string, p: nat, h: Hour, isBy: bool, n: string, rest: string, env: ParseEnv)
    requires n == NatToString(h) && rest == "時" + UntilText(isBy)
    requires MatchAt(s, p, "明日の" + (n + rest)) && p + 3 + |n| + |rest| == |s|
    ensures TimeRange(s, p, env).result == Some((Range(isBy, At(AtHour(h, true))), |s|))
  {
    MatchAtConcat(s, p, "明日の", n + rest);
    MatchAtConcat(s, p + 3, n, rest);
    var hn := p + 3 + |n|;
    MatchAtConcat(s, hn, "時", UntilText(isBy));
    var e := hn + 1;
    TomorrowOfChars(s, p, h, isBy, hn, e);
    TomorrowOfRules(s, p, h, isBy, hn, e, env);
  }

  /** What the rules read from 明日の at p, the hour up to hn, 時 up to e, and then
    * the suffix to the end. */
  lemma TomorrowOfChars(s: string, p: nat, h: Hour, isBy: bool, hn: nat, e: nat)
    requires MatchAt(s, p, "明日の") && MatchAt(s, p + 3, NatToString(h)) && hn == p + 3 + |NatToString(h)|
    requires MatchAt(s, hn, "時") && e == hn + 1 && MatchAt(s, e, UntilText(isBy)) && e + |UntilText(isBy)| == |s|
    ensures Ws(s, p + 3) == p + 3 && !NumberRule(s, p).Ok()
    ensures HourRule(s, p + 3).result == Some((h, hn))
    ensures CharAt(s, hn, '時') && Ws(s, hn) == hn && Ws(s, e) == e
    ensures OptionalSpecMinute(s, e).result == Some((None, e))
  {
    MatchAtIndex(s, hn, "時", 0);
    TomorrowHourChars(s, p, h, hn);
    TomorrowMinuteChars(s, hn, e, isBy);
  }

  lemma TomorrowHourChars(s: string, p: nat, h: Hour, hn: nat)
    requires MatchAt(s, p, "明日の") && MatchAt(s, p + 3, NatToString(h)) && hn == p + 3 + |NatToString(h)|
    requires CharAt(s, hn, '時')
    ensures Ws(s, p + 3) == p + 3 && !NumberRule(s, p).Ok()
    ensures HourRule(s, p + 3).result == Some((h, hn))
  {
    MatchAtIndex(s, p, "明日の", 0);
    MatchAtIndex(s, p + 3, NatToString(h), 0);
    NoNumberAt(s, p);
    WsAtNonSpace(s, p + 3);
    HourOfDisplay(s, p + 3, h, hn);
  }

  lemma TomorrowMinuteChars(s: string, hn: nat, e: nat, isBy: bool)
    requires CharAt(s, hn, '時') && e == hn + 1 && MatchAt(s, e, UntilText(isBy)) && e + |UntilText(isBy)| == |s|
    ensures Ws(s, hn) == hn && Ws(s, e) == e
    ensures OptionalSpecMinute(s, e).result == Some((None, e))
  {
    UntilStart(s, e, isBy);
    WsAtNonSpace(s, hn);
    WsAtNonSpace(s, e);
    NoSpecMinuteAt(s, e);
  }

  /** The same, once the hour, 時 and the minute rules have been read off. */
  lemma TomorrowOfRules(s: string, p: nat, h: Hour, isBy: bool, hn: nat, e: nat, env: ParseEnv)
    requires MatchAt(s, p, "明日の") && Ws(s, p + 3) == p + 3 && !NumberRule(s, p).Ok()
    requires HourRule(s, p + 3).result == Some((h, hn)) && e == hn + 1
    requires CharAt(s, hn, '時') && Ws(s, hn) == hn && Ws(s, e) == e
    requires OptionalSpecMinute(s, e).result == Some((None, e))
    requires MatchAt(s, e, UntilText(isBy)) && e + |UntilText(isBy)| == |s|
    ensures TimeRange(s, p, env).result == Some((Range(isBy, At(AtHour(h, true))), |s|))
  {
    TomorrowRule(s, p, h, hn, e);
    UntilOfText(s, Or(SpecAtTomorrow(s, p), Or(SpecAtRfc3339(s, p, env), SpecAtHalf(s, p))), p, isBy);
    TimeRangeOfAbsolute(s, p, env);
  }

  lemma TomorrowRule(s: string, p: nat, h: Hour, hn: nat, e: nat)
    requires MatchAt(s, p, "明日の") && Ws(s, p + 3) == p + 3 && e == hn + 1
    requires HourRule(s, p + 3).result == Some((h, hn))
    requires CharAt(s, hn, '時') && Ws(s, hn) == hn && Ws(s, e) == e
    requires OptionalSpecMinute(s, e).result == Some((None, e))
    ensures SpecAtTomorrow(s, p).result == Some((At(AtHour(h, true)), e))
  {
    TomorrowHourMark(s, h, hn, HourRule(s, p + 3).far, e);
  }

  lemma TomorrowHourMark(s: string, h: Hour, hn: nat, hf: nat, e: nat)
    requires hn <= |s| && hf <= |s| && e == hn + 1
    requires CharAt(s, hn, '時') && Ws(s, hn) == hn && Ws(s, e) == e
    requires OptionalSpecMinute(s, e).result == Some((None, e))
    ensures TomorrowAfterHour(s, h, hn, hf).result == Some((At(AtHour(h, true)), e))
  {
    assert !CharAt(s, hn, ':');
    assert Ws(s, Ws(s, hn) + 1) == e;
    assert AtWithHour(h, None, true) == AtHour(h, true);
  }

  lemma TimeRangeOfAbsolute(s: string, p: nat, env: ParseEnv)
    requires p <= |s| && !NumberedRange(s, p).Ok() && AbsoluteRange(s, p, env).Ok()
    ensures TimeRange(s, p, env).result == AbsoluteRange(s, p, env).result
  {
  }

  lemma TimeRangeOfNumbered(s: string, p: nat, env: ParseEnv)
    requires p <= |s| && NumberedRange(s, p).Ok()
    ensures TimeRange(s, p, env).result == NumberedRange(s, p).result
  {
  }

  /** now, to the end of the input. */
  lemma NowOfText(s: string, p: nat, env: ParseEnv)
    requires MatchAt(s, p, "now") && p + 3 == |s|
    ensures TimeRange(s, p, env).result == Some((RangeAt(Now), |s|))
  {
    MatchAtIndex(s, p, "now", 0);
    NoNumberAt(s, p);
    NoAbsoluteRangeAt(s, p, env);
    assert NowRange(s, p).result == Some((RangeAt(Now), |s|));
  }

  /** Neither tomorrow, rfc3339 nor half past starts with another character. */
  lemma NoAbsoluteRangeAt(s: string, p: nat, env: ParseEnv)
    requires p < |s| && s[p] != '明' && s[p] != 'r' && s[p] != '半'
    ensures !AbsoluteRange(s, p, env).Ok()
  {
    NoMatchAtChar(s, p, "明日の", 0);
    NoMatchAtChar(s, p, "rfc3339", 0);
  }

  /** No keyword range starts with a character other than a, b or w. */
  lemma NoKeywordRangeAt(s: string, p: nat, env: ParseEnv)
    requires p < |s| && s[p] != 'a' && s[p] != 'b' && s[p] != 'w'
    ensures !KeywordRange(s, p, env).Ok()
  {
    NoMatchAtChar(s, p, "at", 0);
    NoMatchAtChar(s, p, "by", 0);
    NoMatchAtChar(s, p, "after", 0);
    NoMatchAtChar(s, p, "within", 0);
  }

  /** No time range starts with a character that begins none of its alternatives. */
  lemma NoTimeRangeAt(s: string, p: nat, env: ParseEnv)
    requires p < |s| && NotDigitAt(s, p) && !IsKanjiNumeralChar(s[p])
    requires s[p] != '明' && s[p] != 'r' && s[p] != '半' && s[p] != 'n' && s[p] != '今'
    requires s[p] != 'a' && s[p] != 'b' && s[p] != 'w'
    ensures !TimeRange(s, p, env).Ok()
  {
    NoNumberAt(s, p);
    NoAbsoluteRangeAt(s, p, env);
    NoMatchAtChar(s, p, "now", 0);
    NoMatchAtChar(s, p, "今すぐ", 0);
    NoKeywordRangeAt(s, p, env);
  }

  // ---------------------------------------------------------------------------
  // Time ranges

  /** The ranges with a spelling: all but RFC 3339 timestamps and "by now". */
  predicate RangeHasText(tr: TimeRangeSpecifier)
  {
    match tr.spec
    case Now => tr.RangeAt?
    case After(_) => true
    case At(_) => true
    case Exactly(_) => false
  }

  /** The characters a command's spelling starts and ends with: never white space and
    * never the `>` that closes a mention. */
  predicate IsEdgeChar(c: char)
  {
    IsTimezoneChar(c) || c == '<' || c == '明' || c == '内' || c == '後' || c == 'で' || c == '時' || c == '分'
  }

  /** A time range: a duration with 後 or 以内, a time of day with or without まで,
    * or now. */
  function RangeText(tr: TimeRangeSpecifier): (t: string)
    requires RangeHasText(tr)
    ensures |t| > 0 && (IsDigit(t[0]) || t[0] == '明' || t[0] == 'n')
  {
    match tr.spec
    case Now => "now"
    case After(a) => AfterText(a) + AfterSuffixText(tr.RangeBy?)
    case At(a) => AtText(a) + UntilText(tr.RangeBy?)
  }

  /** Reading back: the spelling of a time range, to the end of the input, is read as
    * that range. */
  lemma TimeRangeOfText(s: string, p: nat, tr: TimeRangeSpecifier, env: ParseEnv)
    requires RangeHasText(tr)
    requires MatchAt(s, p, RangeText(tr)) && p + |RangeText(tr)| == |s|
    ensures TimeRange(s, p, env).result == Some((tr, |s|))
  {
    var isBy := tr.RangeBy?;
    assert Range(isBy, tr.spec) == tr;
    match tr.spec
    case Now =>
      NowOfText(s, p, env);
    case After(a) =>
      AfterRangeOfText(s, p, a, isBy, env);
    case At(a) =>
      if a.AtHour? && a.isTomorrow {
        TomorrowRangeOfText(s, p, a.hour, isBy, env);
      } else {
        AtRangeOfText(s, p, a, isBy, env);
      }
  }

  lemma AfterRangeOfText(s: string, p: nat, a: AfterTimeSpecifier, isBy: bool, env: ParseEnv)
    requires MatchAt(s, p, AfterText(a) + AfterSuffixText(isBy))
    requires p + |AfterText(a) + AfterSuffixText(isBy)| == |s|
    ensures TimeRange(s, p, env).result == Some((Range(isBy, After(a)), |s|))
  {
    NumberedRelativeOfText(s, p, a, isBy);
    TimeRangeOfNumbered(s, p, env);
  }

  lemma TomorrowRangeOfText(s: string, p: nat, h: Hour, isBy: bool, env: ParseEnv)
    requires MatchAt(s, p, "明日の" + NatToString(h) + "時" + UntilText(isBy))
    requires p + |"明日の" + NatToString(h) + "時" + UntilText(isBy)| == |s|
    ensures TimeRange(s, p, env).result == Some((Range(isBy, At(AtHour(h, true))), |s|))
  {
    var n := NatToString(h);
    Regroup4("明日の", n, "時", UntilText(isBy));
    TomorrowOfParts(s, p, h, isBy, n, "時" + UntilText(isBy), env);
  }

  lemma AtRangeOfText(s: string, p: nat, a: AtTimeSpecifier, isBy: bool, env: ParseEnv)
    requires !(a.AtHour? && a.isTomorrow)
    requires MatchAt(s, p, AtText(a) + UntilText(isBy)) && p + |AtText(a) + UntilText(isBy)| == |s|
    ensures TimeRange(s, p, env).result == Some((Range(isBy, At(a)), |s|))
  {
    var n := NatToString(AtNumber(a));
    assert AtText(a) + UntilText(isBy) == n + (AtUnitText(a) + UntilText(isBy));
    NumberedAtOfParts(s, p, a, isBy, n, AtUnitText(a) + UntilText(isBy));
    TimeRangeOfNumbered(s, p, env);
  }

  // ---------------------------------------------------------------------------
  // Kaisanees

  /** A mention as the grammar reads it: `<@!id>`. */
  function MentionText(u: UserId): string
  {
    "<@!" + NatToString(u) + ">"
  }

  /** The mentions after the first, each after a space. */
  function MoreMentionsText(us: seq<UserId>): string
  {
    if us == [] then "" else " " + MentionText(us[0]) + MoreMentionsText(us[1..])
  }

  /** The kaisanees with a spelling: all but an empty list of users, which the grammar
    * never produces. */
  predicate KaisaneeHasText(k: KaisaneeSpecifier)
  {
    !k.Users? || |k.users| > 0
  }

  /** me, all, or the mentions separated by spaces. */
  function KaisaneeText(k: KaisaneeSpecifier): (t: string)
    requires KaisaneeHasText(k)
    ensures |t| > 0 && (t[0] == 'm' || t[0] == 'a' || t[0] == '<')
  {
    match k
    case Me => "me"
    case All => "all"
    case Users(us) => MentionText(us[0]) + MoreMentionsText(us[1..])
  }

  lemma UserOfText(s: string, p: nat, u: UserId, e: nat)
    requires e == p + |MentionText(u)| && MatchAt(s, p, MentionText(u))
    ensures UserRule(s, p).result == Some((u, e))
  {
    var n := NatToString(u);
    var d := p + 3 + |n|;
    MatchAtConcat(s, p, "<@!" + n, ">");
    MatchAtConcat(s, p, "<@!", n);
    MatchAtIndex(s, d, ">", 0);
    forall i | p + 3 <= i < d ensures IsDigit(s[i]) {
      MatchAtIndex(s, p + 3, n, i - p - 3);
    }
    ClassRunEndOfRun(s, p + 3, |n|, IsDigit);
    assert s[p + 3..d] == n;
    assert e == d + 1;
  }

  /** Where the list of users ends: a space, then neither another space nor a mention. */
  predicate ListEndsAt(s: string, p: nat)
  {
    p + 1 < |s| && s[p] == ' ' && s[p + 1] != ' ' && s[p + 1] != '<'
  }

  lemma {:induction false} MoreUsersOfText(s: string, p: nat, us: seq<UserId>, e: nat)
    requires e == p + |MoreMentionsText(us)|
    requires MatchAt(s, p, MoreMentionsText(us)) && ListEndsAt(s, e)
    ensures MoreUsers(s, p).result == Some((us, e))
    decreases |us|
  {
    if us == [] {
      assert MoreMentionsText(us) == "";
      MoreUsersNil(s, p);
    } else {
      var m := MentionText(us[0]);
      var more := MoreMentionsText(us[1..]);
      assert MoreMentionsText(us) == " " + m + more;
      MentionAfterSpace(s, p, m, more);
      var q := p + 1 + |m|;
      assert e == q + |more|;
      MoreUsersOfText(s, q, us[1..], e);
      MoreUsersCons(s, p, us[0], us[1..], m, more, q, e);
      assert [us[0]] + us[1..] == us;
    }
  }

  lemma MoreUsersNil(s: string, p: nat)
    requires ListEndsAt(s, p)
    ensures MoreUsers(s, p).result == Some(([], p))
  {
    WsAtNonSpace(s, p + 1);
    NoMatchAtChar(s, p + 1, "<@!", 0);
  }

  lemma MoreUsersCons(s: string, p: nat, u: UserId, rest: seq<UserId>, m: string, more: string,
                      q: nat, e: nat)
    requires m == MentionText(u) && MatchAt(s, p, " " + m + more)
    requires q == p + 1 + |m| && e == q + |more| && q <= |s|
    requires MoreUsers(s, q).result == Some((rest, e))
    ensures MoreUsers(s, p).result == Some(([u] + rest, e))
  {
    MentionAfterSpace(s, p, m, more);
    UserOfText(s, p + 1, u, q);
    MoreUsersStep(s, p, u, q);
  }

  lemma MentionAfterSpace(s: string, p: nat, m: string, more: string)
    requires |m| > 0 && m[0] == '<' && MatchAt(s, p, " " + m + more)
    ensures MatchAt(s, p + 1, m) && MatchAt(s, p + 1 + |m|, more)
    ensures Ws(s, p) == p + 1
  {
    MatchAtConcat(s, p, " " + m, more);
    MatchAtConcat(s, p, " ", m);
    MatchAtIndex(s, p, " ", 0);
    MatchAtIndex(s, p + 1, m, 0);
    WsAtNonSpace(s, p + 1);
  }

  lemma MoreUsersStep(s: string, p: nat, u: UserId, q: nat)
    requires p <= |s| && Ws(s, p) == p + 1 && p + 1 <= q <= |s|
    requires UserRule(s, p + 1).result == Some((u, q))
    ensures MoreUsers(s, p).result.Some?
    ensures MoreUsers(s, p).result == Some(([u] + MoreUsers(s, q).Value(), MoreUsers(s, q).Next()))
  {
  }

  lemma UsersOfText(s: string, p: nat, us: seq<UserId>, e: nat)
    requires |us| > 0 && e == p + |KaisaneeText(Users(us))|
    requires MatchAt(s, p, KaisaneeText(Users(us))) && ListEndsAt(s, e)
    ensures UsersRule(s, p).result == Some((us, e))
  {
    var m := MentionText(us[0]);
    var q := p + |m|;
    MatchAtConcat(s, p, m, MoreMentionsText(us[1..]));
    UserOfText(s, p, us[0], q);
    MoreUsersOfText(s, q, us[1..], e);
    assert [us[0]] + us[1..] == us;
  }

  /** A kaisanee ending at d, one space, then at e a character that starts a time range. */
  lemma SpecKaisaneeOfText(s: string, p: nat, k: KaisaneeSpecifier, d: nat, e: nat)
    requires KaisaneeHasText(k) && d == p + |KaisaneeText(k)| && e == d + 1
    requires MatchAt(s, p, KaisaneeText(k)) && ListEndsAt(s, d) && s[e] != 'を'
    ensures SpecKaisanee(s, p).result == Some((k, e))
  {
    KaisaneeRuleOfText(s, p, k, d);
    SpecKaisaneeStep(s, p, k, d, e);
  }

  lemma KaisaneeRuleOfText(s: string, p: nat, k: KaisaneeSpecifier, d: nat)
    requires KaisaneeHasText(k) && d == p + |KaisaneeText(k)|
    requires MatchAt(s, p, KaisaneeText(k)) && ListEndsAt(s, d)
    ensures KaisaneeRule(s, p).result == Some((k, d))
  {
    var t := KaisaneeText(k);
    MatchAtIndex(s, p, t, 0);
    match k
    case Me =>
      assert MeWords[0] == t;
      FirstWordAt(s, p, MeWords, 0);
    case All =>
      NoWordAt(s, p, MeWords);
      assert AllWords[0] == t;
      FirstWordAt(s, p, AllWords, 0);
    case Users(us) =>
      NoWordAt(s, p, MeWords);
      NoWordAt(s, p, AllWords);
      UsersOfText(s, p, us, d);
  }

  lemma SpecKaisaneeStep(s: string, p: nat, k: KaisaneeSpecifier, d: nat, e: nat)
    requires p <= d && e == d + 1 && ListEndsAt(s, d) && s[e] != 'を'
    requires KaisaneeRule(s, p).result == Some((k, d))
    ensures SpecKaisanee(s, p).result == Some((k, e))
  {
    WsAtNonSpace(s, e);
    assert Ws(s, d) == e;
  }

  // ---------------------------------------------------------------------------
  // Commands

  /** The commands with a spelling: a kaisan whose kaisanee and range have one, and a
    * time zone whose name is a non-empty run of name characters. */
  predicate CommandHasText(c: Command)
  {
    match c
    case Kaisan(k, tr) => KaisaneeHasText(k) && RangeHasText(tr)
    case TimeZone(tz) => |tz.name| > 0 && forall i :: 0 <= i < |tz.name| ==> IsTimezoneChar(tz.name[i])
    case _ => true
  }

  function BooleanText(b: bool): string
  {
    if b then "true" else "false"
  }

  /** The canonical spelling of a command; a kaisan names its kaisanee before the
    * range. */
  function CommandText(c: Command): (t: string)
    requires CommandHasText(c)
    ensures |t| > 0
  {
    match c
    case Help => "help"
    case ShowSetting => "show-setting"
    case RequirePermission(b) => "require-permission " + BooleanText(b)
    case TimeZone(tz) => "timezone " + tz.name
    case Kaisan(k, tr) => KaisaneeText(k) + " " + RangeText(tr)
  }

  /** A time range's spelling ends with a digit, a letter or a unit. */
  lemma RangeTextEnds(tr: TimeRangeSpecifier)
    requires RangeHasText(tr)
    ensures IsEdgeChar(RangeText(tr)[|RangeText(tr)| - 1])
  {
    var t := RangeText(tr);
    match tr.spec
    case Now =>
    case After(a) =>
      assert t == AfterText(a) + AfterSuffixText(tr.RangeBy?);
    case At(a) =>
      if tr.RangeBy? {
        assert t == AtText(a) + "まで";
      } else {
        assert t == AtText(a);
        if a.AtHourMinute? && !a.isTomorrow {
          var n := NatToString(a.minute);
          assert t == NatToString(a.hour) + ":" + n;
          assert t[|t| - 1] == n[|n| - 1];
        }
      }
  }

  /** A command's spelling starts and ends with neither white space nor `>`. */
  lemma CommandTextEdges(c: Command)
    requires CommandHasText(c)
    ensures IsEdgeChar(CommandText(c)[0]) && IsEdgeChar(CommandText(c)[|CommandText(c)| - 1])
  {
    var t := CommandText(c);
    match c
    case Help =>
    case ShowSetting =>
    case RequirePermission(b) =>
    case TimeZone(tz) =>
      assert t[|t| - 1] == tz.name[|tz.name| - 1];
    case Kaisan(k, tr) =>
      var r := RangeText(tr);
      RangeTextEnds(tr);
      assert t[0] == KaisaneeText(k)[0];
      assert t[|t| - 1] == r[|r| - 1];
  }

  /** No kaisanee starts at the end of the input. */
  lemma NoKaisaneeAtEnd(s: string)
    ensures !SpecKaisanee(s, |s|).Ok()
  {
    NoWordAt(s, |s|, MeWords);
    NoWordAt(s, |s|, AllWords);
    NoMatchAtChar(s, |s|, "<@!", 0);
  }

  /** After a time range that ends the input, nothing more is read. */
  lemma KaisanTailAtEnd(s: string)
    ensures KaisanTail(s, |s|).result == Some((None, |s|))
  {
    NoKaisaneeAtEnd(s);
    NoMatchAtChar(s, |s|, "解散", 0);
  }

  /** At a character that starts a time range, none of the word commands, and no
    * kaisanee, starts. */
  lemma NoWordCommandAt(s: string, env: ParseEnv)
    requires |s| > 0 && s[0] != 'h' && s[0] != 'r' && s[0] != 't' && s[0] != 's'
    ensures !WordCommand(s, 0, "help", Help).Ok() && !PermissionCommand(s, 0).Ok()
    ensures !TimezoneCommand(s, 0, env).Ok() && !WordCommand(s, 0, "show-setting", ShowSetting).Ok()
  {
    NoMatchAtChar(s, 0, "help", 0);
    NoMatchAtChar(s, 0, "require-permission", 0);
    NoMatchAtChar(s, 0, "timezone", 0);
    NoMatchAtChar(s, 0, "show-setting", 0);
  }

  /** A kaisan line that is read to the end of the input is the command read. */
  lemma CommandOfKaisanLine(s: string, env: ParseEnv)
    requires |s| > 0 && s[0] != 'h' && s[0] != 'r' && s[0] != 't' && s[0] != 's'
    requires KaisanLine(s, 0, env).Ok() && KaisanLine(s, 0, env).Next() == |s|
    ensures ParseCommand(s, env) == Ok(KaisanLine(s, 0, env).Value())
  {
    NoWordCommandAt(s, env);
  }

  lemma KaisanOfParts(s: string, k: KaisaneeSpecifier, tr: TimeRangeSpecifier, kt: string, rt: string,
                      env: ParseEnv)
    requires KaisaneeHasText(k) && RangeHasText(tr)
    requires kt == KaisaneeText(k) && rt == RangeText(tr) && s == kt + " " + rt
    ensures KaisanLine(s, 0, env).result == Some((Kaisan(k, tr), |s|))
  {
    var e := |kt| + 1;
    KaisanOfChars(s, k, tr, kt, rt, e);
    SpecKaisaneeOfText(s, 0, k, |kt|, e);
    KaisanRangeOfText(s, tr, rt, e, env);
    KaisanLineOfRules(s, k, tr, e, env);
  }

  lemma KaisanOfChars(s: string, k: KaisaneeSpecifier, tr: TimeRangeSpecifier, kt: string, rt: string, e: nat)
    requires KaisaneeHasText(k) && RangeHasText(tr)
    requires kt == KaisaneeText(k) && rt == RangeText(tr) && s == kt + " " + rt && e == |kt| + 1
    ensures MatchAt(s, 0, kt) && MatchAt(s, e, rt) && ListEndsAt(s, |kt|) && s[e] != 'を'
  {
    MatchAtChars(s, 0, kt);
    MatchAtChars(s, e, rt);
    assert s[e] == rt[0];
  }

  lemma KaisanRangeOfText(s: string, tr: TimeRangeSpecifier, rt: string, e: nat, env: ParseEnv)
    requires RangeHasText(tr) && rt == RangeText(tr) && MatchAt(s, e, rt) && e + |rt| == |s|
    ensures TimeRange(s, e, env).result == Some((tr, |s|))
  {
    TimeRangeOfText(s, e, tr, env);
  }

  lemma KaisanLineOfRules(s: string, k: KaisaneeSpecifier, tr: TimeRangeSpecifier, e: nat, env: ParseEnv)
    requires e <= |s| && SpecKaisanee(s, 0).result == Some((k, e))
    requires TimeRange(s, e, env).result == Some((tr, |s|))
    ensures KaisanLine(s, 0, env).result == Some((Kaisan(k, tr), |s|))
  {
    KaisanTailAtEnd(s);
  }

  lemma DefaultKaisanOfParts(s: string, tr: TimeRangeSpecifier, env: ParseEnv)
    requires RangeHasText(tr) && s == RangeText(tr)
    ensures KaisanLine(s, 0, env).result == Some((Kaisan(DefaultKaisanee, tr), |s|))
  {
    MatchAtChars(s, 0, s);
    TimeRangeOfText(s, 0, tr, env);
    NoKaisaneeAtRange(s, tr);
    DefaultKaisanOfRules(s, tr, env);
  }

  /** No kaisanee starts where a time range's spelling does. */
  lemma NoKaisaneeAtRange(s: string, tr: TimeRangeSpecifier)
    requires RangeHasText(tr) && s == RangeText(tr)
    ensures !SpecKaisanee(s, 0).Ok()
  {
    NoKaisaneeAtChar(s, 0);
  }

  lemma NoKaisaneeAtChar(s: string, p: nat)
    requires p < |s| && (IsDigit(s[p]) || s[p] == '明' || s[p] == 'n')
    ensures !SpecKaisanee(s, p).Ok()
  {
    NoWordAt(s, p, MeWords);
    NoWordAt(s, p, AllWords);
    NoMatchAtChar(s, p, "<@!", 0);
  }

  lemma DefaultKaisanOfRules(s: string, tr: TimeRangeSpecifier, env: ParseEnv)
    requires !SpecKaisanee(s, 0).Ok() && TimeRange(s, 0, env).result == Some((tr, |s|))
    ensures KaisanLine(s, 0, env).result == Some((Kaisan(DefaultKaisanee, tr), |s|))
  {
    KaisanTailAtEnd(s);
  }

  /** A time range alone is a kaisan of everyone. */
  lemma DefaultKaisanOfText(tr: TimeRangeSpecifier, env: ParseEnv)
    requires RangeHasText(tr)
    ensures ParseCommand(RangeText(tr), env) == Ok(Kaisan(All, tr))
  {
    DefaultKaisanOfParts(RangeText(tr), tr, env);
    CommandOfKaisanLine(RangeText(tr), env);
  }

  lemma PermissionOfText(s: string, b: bool, w: string)
    requires w == BooleanText(b) && s == "require-permission " + w
    ensures PermissionCommand(s, 0).result == Some((RequirePermission(b), |s|))
  {
    MatchAtConcat(s, 0, "require-permission ", w);
    MatchAtConcat(s, 0, "require-permission", " ");
    assert s[18] == ' ' && s[19] == w[0];
    WsAtNonSpace(s, 19);
    BooleanOfText(s, 19, b, w);
  }

  lemma BooleanOfText(s: string, p: nat, b: bool, w: string)
    requires w == BooleanText(b) && MatchAt(s, p, w)
    ensures BooleanRule(s, p).result == Some((b, p + |w|))
  {
    if b {
      FirstWordAt(s, p, BooleanWords, 0);
    } else {
      MatchAtIndex(s, p, w, 0);
      assert BooleanWords[1] == w;
      FirstWordAt(s, p, BooleanWords, 1);
    }
  }

  lemma TimezoneOfText(s: string, tz: Tz, env: ParseEnv)
    requires |tz.name| > 0 && forall i :: 0 <= i < |tz.name| ==> IsTimezoneChar(tz.name[i])
    requires env.parseTimezone(tz.name) == Some(tz)
    requires s == "timezone " + tz.name
    ensures TimezoneCommand(s, 0, env).result == Some((TimeZone(tz), |s|))
  {
    MatchAtChars(s, 0, "timezone");
    assert s[9] == tz.name[0];
    WsAtNonSpace(s, 9);
    ClassRunEndOfRun(s, 9, |tz.name|, IsTimezoneChar);
    assert s[9..|s|] == tz.name;
  }

  /** A time-zone name the time-zone database does not know is no command. */
  lemma UnknownTimezoneRejected(s: string, name: string, env: ParseEnv)
    requires |name| > 0 && forall i :: 0 <= i < |name| ==> IsTimezoneChar(name[i])
    requires env.parseTimezone(name) == None
    requires s == "timezone " + name
    ensures ParseCommand(s, env).Err?
  {
    MatchAtChars(s, 0, "timezone");
    assert s[9] == name[0];
    WsAtNonSpace(s, 9);
    ClassRunEndOfRun(s, 9, |name|, IsTimezoneChar);
    assert s[9..|s|] == name;
    assert !TimezoneCommand(s, 0, env).Ok();
    NoWordCommandAtT(s, env);
    NoKaisanLineAtT(s, env);
  }

  /** Input starting with t is none of the other word commands. */
  lemma NoWordCommandAtT(s: string, env: ParseEnv)
    requires |s| > 0 && s[0] == 't'
    ensures !WordCommand(s, 0, "help", Help).Ok() && !PermissionCommand(s, 0).Ok()
    ensures !WordCommand(s, 0, "show-setting", ShowSetting).Ok()
  {
    NoMatchAtChar(s, 0, "help", 0);
    NoMatchAtChar(s, 0, "require-permission", 0);
    NoMatchAtChar(s, 0, "show-setting", 0);
  }

  /** Nor does a kaisan line start with t. */
  lemma NoKaisanLineAtT(s: string, env: ParseEnv)
    requires |s| > 0 && s[0] == 't'
    ensures !KaisanLine(s, 0, env).Ok()
  {
    NoSpecKaisaneeAtT(s);
    NoTimeRangeAt(s, 0, env);
  }

  lemma NoSpecKaisaneeAtT(s: string)
    requires |s| > 0 && s[0] == 't'
    ensures !SpecKaisanee(s, 0).Ok()
  {
    NoMatchAtChar(s, 0, "me", 0);
    NoMatchAtChar(s, 0, "all", 0);
    assert !KaisaneeRule(s, 0).Ok();
  }

  /** Reading back: the spelling of a command is read as that command. A time zone is
    * read back when the time-zone database knows its name. */
  lemma CommandOfText(c: Command, env: ParseEnv)
    requires CommandHasText(c)
    requires c.TimeZone? ==> env.parseTimezone(c.tz.name) == Some(c.tz)
    ensures ParseCommand(CommandText(c), env) == Ok(c)
  {
    var s := CommandText(c);
    match c
    case Help => HelpOfText(s, env);
    case ShowSetting => ShowSettingOfText(s, env);
    case RequirePermission(b) => PermissionCommandOfText(s, b, env);
    case TimeZone(tz) => TimezoneCommandOfText(s, tz, env);
    case Kaisan(k, tr) => KaisanCommandOfText(s, k, tr, env);
  }

  lemma HelpOfText(s: string, env: ParseEnv)
    requires s == "help"
    ensures ParseCommand(s, env) == Ok(Help)
  {
    MatchAtChars(s, 0, "help");
  }

  lemma ShowSettingOfText(s: string, env: ParseEnv)
    requires s == "show-setting"
    ensures ParseCommand(s, env) == Ok(ShowSetting)
  {
    NoMatchAtChar(s, 0, "help", 0);
    NoMatchAtChar(s, 0, "require-permission", 0);
    NoMatchAtChar(s, 0, "timezone", 0);
    MatchAtChars(s, 0, "show-setting");
  }

  lemma PermissionCommandOfText(s: string, b: bool, env: ParseEnv)
    requires s == "require-permission " + BooleanText(b)
    ensures ParseCommand(s, env) == Ok(RequirePermission(b))
  {
    NoMatchAtChar(s, 0, "help", 0);
    PermissionOfText(s, b, BooleanText(b));
  }

  lemma TimezoneCommandOfText(s: string, tz: Tz, env: ParseEnv)
    requires |tz.name| > 0 && forall i :: 0 <= i < |tz.name| ==> IsTimezoneChar(tz.name[i])
    requires env.parseTimezone(tz.name) == Some(tz)
    requires s == "timezone " + tz.name
    ensures ParseCommand(s, env) == Ok(TimeZone(tz))
  {
    NoMatchAtChar(s, 0, "help", 0);
    NoMatchAtChar(s, 0, "require-permission", 0);
    TimezoneOfText(s, tz, env);
  }

  lemma KaisanCommandOfText(s: string, k: KaisaneeSpecifier, tr: TimeRangeSpecifier, env: ParseEnv)
    requires KaisaneeHasText(k) && RangeHasText(tr) && s == KaisaneeText(k) + " " + RangeText(tr)
    ensures ParseCommand(s, env) == Ok(Kaisan(k, tr))
  {
    KaisanOfParts(s, k, tr, KaisaneeText(k), RangeText(tr), env);
    CommandOfKaisanLine(s, env);
  }

  /** A single-word command followed by anything at all is refused, and the error
    * shows what followed. */
  lemma WordCommandWithTrailing(t: string, env: ParseEnv)
    requires t != ""
    ensures ParseCommand("help" + t, env) == Err(ParseCommandError(Some(t)))
    ensures ParseCommand("show-setting" + t, env) == Err(ParseCommandError(Some(t)))
  {
    HelpWithTrailing("help" + t, t, env);
    ShowSettingWithTrailing("show-setting" + t, t, env);
  }

  lemma HelpWithTrailing(h: string, t: string, env: ParseEnv)
    requires t != "" && h == "help" + t
    ensures ParseCommand(h, env) == Err(ParseCommandError(Some(t)))
  {
    MatchAtChars(h, 0, "help");
    assert h[4..] == t;
  }

  lemma ShowSettingWithTrailing(w: string, t: string, env: ParseEnv)
    requires t != "" && w == "show-setting" + t
    ensures ParseCommand(w, env) == Err(ParseCommandError(Some(t)))
  {
    NoMatchAtChar(w, 0, "help", 0);
    NoMatchAtChar(w, 0, "require-permission", 0);
    NoMatchAtChar(w, 0, "timezone", 0);
    MatchAtChars(w, 0, "show-setting");
    assert w[12..] == t;
  }

  /** "分後 " after the number x at q: minutes from now, at that time, ending before the
    * space. */
  lemma MinutesRangeBeforeSpace(s: string, q: nat, x: U8, e: nat)
    requires MatchAt(s, q, NatToString(x) + "分後 ") && e == q + |NatToString(x)| + 2
    ensures NumberedRange(s, q).result == Some((RangeAt(After(AfterMinute(x))), e))
  {
    var d := NatToString(x);
    var k := q + |d|;
    MatchAtConcat(s, q, d, "分後 ");
    MatchAtIndex(s, k, "分後 ", 0);
    MatchAtIndex(s, k, "分後 ", 1);
    MatchAtIndex(s, k, "分後 ", 2);
    NumberAt(s, q, x, k);
    WsAtNonSpace(s, k);
    MinuteMark(s, k);
    WsAtNonSpace(s, k + 1);
    NoMatchAtChar(s, k + 1, "後まで", 1);
    assert SpecAfterSuffix(s, k + 1, AfterMinute(x)).result == Some((RangeAt(After(AfterMinute(x))), e));
  }

  /** The pieces of the kaisanee-twice example; the minutes take n digits and the
    * range ends at e. */
  lemma TwiceParts(s: string, x: U8, n: nat, e: nat)
    requires s == "me " + NatToString(x) + "分後 all 解散" && n == |NatToString(x)| && e == 5 + n
    ensures !MatchAt(s, 0, "help") && SpecKaisanee(s, 0).result == Some((Me, 3))
    ensures MatchAt(s, 3, NatToString(x) + "分後 ")
    ensures MatchAt(s, e, " all 解散") && e + 7 == |s|
  {
    TwiceChars(s, x, n, e);
    SpecKaisaneeOfText(s, 0, Me, 2, 3);
  }

  lemma TwiceChars(s: string, x: U8, n: nat, e: nat)
    requires s == "me " + NatToString(x) + "分後 all 解散" && n == |NatToString(x)| && e == 5 + n
    ensures MatchAt(s, 0, "me") && ListEndsAt(s, 2) && s[3] != 'を' && !MatchAt(s, 0, "help")
    ensures MatchAt(s, 3, NatToString(x) + "分後 ")
    ensures MatchAt(s, e, " all 解散") && e + 7 == |s|
  {
    var d := NatToString(x);
    MatchAtWhole(s, "me " + d, "分後 all 解散");
    TwiceLiterals();
    MatchAtConcat(s, 0, "me ", d);
    MatchAtConcat(s, 0, "me", " ");
    MatchAtIndex(s, 0, "me", 0);
    MatchAtIndex(s, 2, " ", 0);
    NoMatchAtChar(s, 0, "help", 0);
    MatchAtIndex(s, 3, d, 0);
    MatchAtConcat(s, 3 + n, "分後 ", "all 解散");
    MatchAtJoin(s, 3, d, "分後 ");
    MatchAtConcat(s, 3 + n, "分後", " all 解散");
  }

  lemma TwiceLiterals()
    ensures "me " == "me" + " "
    ensures "分後 all 解散" == "分後 " + "all 解散" && "分後 all 解散" == "分後" + " all 解散"
  {
  }

  /** " all 解散" after a time range names everyone. */
  lemma KaisaneeAfterRange(s: string, e: nat)
    requires MatchAt(s, e, " all 解散") && e + 7 == |s|
    ensures KaisanTail(s, e).Value() == Some(All)
  {
    MatchAtIndex(s, e, " all 解散", 0);
    MatchAtIndex(s, e, " all 解散", 1);
    MatchAtConcat(s, e, " ", "all 解散");
    assert Ws(s, e + 1) == e + 1;
    assert Ws(s, e) == e + 1;
    NoMatchAtChar(s, e + 1, "に", 0);
    MatchAtIndex(s, e + 1, "all 解散", 3);
    MatchAtIndex(s, e + 1, "all 解散", 4);
    assert "all 解散" == "all" + " 解散";
    MatchAtConcat(s, e + 1, "all", " 解散");
    var d := e + 4;
    SpecKaisaneeOfText(s, e + 1, All, d, d + 1);
  }

  /** Naming the kaisanee both before and after the time range is rejected. */
  lemma KaisaneeTwiceRejected(x: U8, env: ParseEnv)
    ensures ParseCommand("me " + NatToString(x) + "分後 all 解散", env).Err?
  {
    var s := "me " + NatToString(x) + "分後 all 解散";
    var n := |NatToString(x)|;
    var e := 5 + n;
    TwiceParts(s, x, n, e);
    MinutesRangeBeforeSpace(s, 3, x, e);
    TimeRangeOfNumbered(s, 3, env);
    KaisaneeAfterRange(s, e);
    KaisaneeBothSides(s, Me, 3, RangeAt(After(AfterMinute(x))), e, env);
    NoWordCommandAt(s, env);
  }

  /** A kaisanee before the time range and another after it: no kaisan line. */
  lemma KaisaneeBothSides(s: string, k: KaisaneeSpecifier, q: nat, tr: TimeRangeSpecifier, e: nat,
                          env: ParseEnv)
    requires SpecKaisanee(s, 0).result == Some((k, q)) && q <= e <= |s|
    requires TimeRange(s, q, env).result == Some((tr, e))
    requires KaisanTail(s, e).Value().Some?
    ensures !KaisanLine(s, 0, env).Ok()
  {
  }

  // ---------------------------------------------------------------------------
  // The kaisanee after the time

  /** N分 directly followed by に is minute N of the hour, and the time range stops
    * before the に. */
  lemma MinuteBeforeNi(s: string, p: nat, m: Minute, n: nat)
    requires MatchAt(s, p, NatToString(m)) && n == p + |NatToString(m)|
    requires n + 1 < |s| && s[n] == '分' && s[n + 1] == 'に'
    ensures NumberedRange(s, p).result == Some((RangeAt(At(AtMinute(m))), n + 1))
  {
    NumberAt(s, p, m, n);
    MinuteMarkBeforeNi(s, n, m);
    NumberedRangeOfAt(s, p, m, n);
  }

  lemma MinuteMarkBeforeNi(s: string, n: nat, m: Minute)
    requires n + 1 < |s| && s[n] == '分' && s[n + 1] == 'に'
    ensures !RelativeRange(s, n, m).Ok()
    ensures UntilSuffix(s, SpecAtTail(s, n, m), n).result == Some((RangeAt(At(AtMinute(m))), n + 1))
  {
    WsAtNonSpace(s, n);
    WsAtNonSpace(s, n + 1);
    MinuteMark(s, n);
    NoMatchAtChar(s, n + 1, "後まで", 0);
    NoMatchAtChar(s, n + 1, "以内", 0);
    NoMatchAtChar(s, n + 1, "まで", 0);
  }

  /** に at q, the kaisanee starting right after it at p, and 解散 at e to the end. */
  predicate NiAt(s: string, q: nat, p: nat, e: nat)
  {
    p == q + 1 && p < e && e + 2 == |s| && s[q] == 'に' && s[p] != ' '
  }

  lemma TailOfRules(s: string, q: nat, p: nat, k: KaisaneeSpecifier, e: nat)
    requires NiAt(s, q, p, e)
    requires SpecKaisanee(s, p).result == Some((k, e)) && MatchAt(s, e, "解散")
    ensures KaisanTail(s, q).result == Some((Some(k), e + 2))
  {
    TailOfSpec(s, p, k, e);
    KaisanTailAfterNi(s, q, p);
  }

  lemma TailOfSpec(s: string, p: nat, k: KaisaneeSpecifier, e: nat)
    requires p <= |s| && SpecKaisanee(s, p).result == Some((k, e)) && MatchAt(s, e, "解散")
    ensures TailKaisanee(s, SpecKaisanee(s, p), p, 0).result == Some((Some(k), e + 2))
  {
    TailKaisaneeOfRules(s, SpecKaisanee(s, p), p, k, e);
  }

  /** に, then no space: the kaisanee of the tail is read right after the に. */
  lemma KaisanTailAfterNi(s: string, q: nat, p: nat)
    requires p == q + 1 && p < |s| && s[q] == 'に' && s[p] != ' '
    ensures KaisanTail(s, q) == TailKaisanee(s, SpecKaisanee(s, p), p, 0)
  {
    WsAtNonSpace(s, q);
    WsAtNonSpace(s, p);
  }

  lemma TailKaisaneeOfRules(s: string, t: Parsed<KaisaneeSpecifier>, q2: nat, k: KaisaneeSpecifier, e: nat)
    requires Within(t, q2, |s|) && t.result == Some((k, e)) && MatchAt(s, e, "解散")
    ensures TailKaisanee(s, t, q2, 0).result == Some((Some(k), e + 2))
  {
  }

  /** The same with the kaisanee 私 written directly before を, as in the example
    * 10分に私を解散. */
  lemma TailMeOfText(s: string, q: nat)
    requires MatchAt(s, q, "に私を解散") && q + 5 == |s|
    ensures KaisanTail(s, q).result == Some((Some(Me), |s|))
  {
    MatchAtIndex(s, q, "に私を解散", 0);
    MatchAtIndex(s, q, "に私を解散", 1);
    MatchAtIndex(s, q, "に私を解散", 2);
    MatchAtIndex(s, q, "に私を解散", 3);
    assert "に私を解散" == "に私を" + "解散";
    MatchAtSplit(s, q, "に私を", "解散", q + 3);
    assert MeWords[2] == "私";
    CharMatch(s, q + 1, '私');
    FirstWordAt(s, q + 1, MeWords, 2);
    WsAtNonSpace(s, q + 2);
    WsAtNonSpace(s, q + 3);
    TailOfRules(s, q, q + 1, Me, q + 3);
  }

  /** A line that starts with the time range tr ending at e, no kaisanee before it,
    * and a kaisanee k after it to the end, is the kaisan of k at tr. */
  lemma KaisaneeAfterOfRules(s: string, tr: TimeRangeSpecifier, e: nat, k: KaisaneeSpecifier, env: ParseEnv)
    requires |s| > 0 && IsDigit(s[0]) && e <= |s|
    requires TimeRange(s, 0, env).result == Some((tr, e))
    requires KaisanTail(s, e).result == Some((Some(k), |s|))
    ensures KaisanLine(s, 0, env).result == Some((Kaisan(k, tr), |s|))
  {
    NoKaisaneeAtChar(s, 0);
  }

  /** N分に私を解散, the example of the grammar's tests (src/model/command.rs) with any
    * minute: the author's kaisan at minute N. */
  lemma MeAfterTimeOfText(s: string, m: Minute, env: ParseEnv)
    requires s == NatToString(m) + "分に私を解散"
    ensures ParseCommand(s, env) == Ok(Kaisan(Me, RangeAt(At(AtMinute(m)))))
  {
    MeAfterTimeLine(s, m, env);
    CommandOfKaisanLine(s, env);
  }

  lemma MeAfterTimeLine(s: string, m: Minute, env: ParseEnv)
    requires s == NatToString(m) + "分に私を解散"
    ensures |s| > 0 && IsDigit(s[0])
    ensures KaisanLine(s, 0, env).result == Some((Kaisan(Me, RangeAt(At(AtMinute(m)))), |s|))
  {
    var e := |NatToString(m)| + 1;
    MeAfterTimeParts(s, m, e, env);
    TailMeOfText(s, e);
    KaisaneeAfterOfRules(s, RangeAt(At(AtMinute(m))), e, Me, env);
  }

  lemma MeAfterTimeParts(s: string, m: Minute, e: nat, env: ParseEnv)
    requires s == NatToString(m) + "分に私を解散" && e == |NatToString(m)| + 1
    ensures |s| > 0 && IsDigit(s[0]) && e <= |s|
    ensures TimeRange(s, 0, env).result == Some((RangeAt(At(AtMinute(m))), e))
    ensures MatchAt(s, e, "に私を解散") && e + 5 == |s|
  {
    var n := |NatToString(m)|;
    assert "分に私を解散" == "分" + "に私を解散";
    AfterTimeChars(s, NatToString(m), "に私を解散", n);
    MinuteBeforeNi(s, 0, m, n);
    TimeRangeOfNumbered(s, 0, env);
  }

  /** The characters of a number, 分, and a tail that starts with に. */
  lemma AfterTimeChars(s: string, d: string, tail: string, n: nat)
    requires s == d + ("分" + tail) && n == |d| && |tail| > 0 && tail[0] == 'に'
    requires |d| > 0 && IsDigit(d[0])
    ensures MatchAt(s, 0, d) && s[n] == '分' && s[n + 1] == 'に' && MatchAt(s, n + 1, tail)
    ensures IsDigit(s[0]) && n + 1 + |tail| == |s|
  {
    MatchAtWhole(s, d, "分" + tail);
    MatchAtSplit(s, n, "分", tail, n + 1);
    MatchAtIndex(s, n, "分", 0);
    MatchAtIndex(s, n + 1, tail, 0);
    MatchAtIndex(s, 0, d, 0);
  }

  /** The example itself: 10分に私を解散 is the kaisan of the author at minute 10. */
  lemma TenMinuteMeExample(env: ParseEnv)
    ensures ParseCommand("10分に私を解散", env) == Ok(Kaisan(Me, RangeAt(At(AtMinute(10)))))
  {
    assert NatToString(10) + "分に私を解散" == "10分に私を解散";
    MeAfterTimeOfText("10分に私を解散", 10, env);
  }
}
