/** The replies the bot sends and how they are worded (src/model/message.rs). */
module Messages {
  import opened Wrappers
  import opened Numeric
  import opened Time
  import opened Say
  import opened Kaisanee
  import opened Reminder
  import opened Errors

  // ---------------------------------------------------------------------------
  // Local date and time

  /** A date of the proleptic Gregorian calendar. */
  datatype Date = Date(year: int, month: int, day: int)

  /** The date of a day number counted from 1970-01-01, by the usual era-of-400-years
    * conversion (the one chrono's `NaiveDate` performs). */
  function CivilFromDays(days: int): Date
  {
    var z := days + 719468;
    var era := z / 146097;
    var doe := z - era * 146097;
    var yoe := (doe - doe / 1460 + doe / 36524 - doe / 146096) / 365;
    var doy := doe - (365 * yoe + yoe / 4 - yoe / 100);
    var mp := (5 * doy + 2) / 153;
    var day := doy - (153 * mp + 2) / 5 + 1;
    var month := if mp < 10 then mp + 3 else mp - 9;
    Date(yoe + era * 400 + (if month <= 2 then 1 else 0), month, day)
  }

  /** The local minute of the hour at `t`. */
  function LocalMinute(t: Instant, tz: Offset): Minute
  {
    ((t + tz) % SecondsPerHour) / SecondsPerMinute
  }

  // ---------------------------------------------------------------------------
  // The announced time of a kaisan

  /** The moment a kaisan is announced for, the moment of the announcement, both in
    * the guild's timezone, the specifier the moment came from, and whether the kaisan
    * happens at a random moment before it. */
  datatype CalculatedDateTime =
    CalculatedDateTime(time: Instant, now: Instant, tz: Offset, spec: TimeSpecifier, isRandom: bool)

  /** "{month}/{day} " of a local day number. */
  function MonthDayText(day: int): string
  {
    var date := CivilFromDays(day);
    IntToString(date.month) + "/" + IntToString(date.day) + " "
  }

  /** The clock time: "{h}時", then "{m}分" unless on the hour, when the hour is not
    * the current one; "{m}分" alone when it is. */
  function ClockText(hour: Hour, minute: Minute, nowHour: Hour): string
  {
    if hour != nowHour then NatToString(hour) + "時" + (if minute != 0 then NatToString(minute) + "分" else "")
    else NatToString(minute) + "分"
  }

  /** The clock time, after the date when the moment falls on another local date than
    * now; nothing when the specifier does not leave the time to be announced. */
  function TimePart(c: CalculatedDateTime): string
  {
    if IsInterestedInTime(c.spec) then
      var day := LocalDay(c.time, c.tz);
      (if day != LocalDay(c.now, c.tz) then MonthDayText(day) else "")
      + ClockText(LocalHour(c.time, c.tz), LocalMinute(c.time, c.tz), LocalHour(c.now, c.tz))
    else ""
  }

  function CommaPart(c: CalculatedDateTime): string
  {
    if IsInterestedInTime(c.spec) && IsInterestedInDuration(c.spec) then "、" else ""
  }

  /** The remaining duration, when the specifier leaves it to be announced. */
  function DurationPart(c: CalculatedDateTime): string
  {
    if IsInterestedInDuration(c.spec) then SayDuration(c.time - c.now) + "後" else ""
  }

  function RandomPart(c: CalculatedDateTime): string
  {
    if c.isRandom then "まで" else ""
  }

  /** `Say for CalculatedDateTime`: the clock time, a comma when both are announced,
    * the remaining duration, and "まで" for a random moment. */
  function SayCalculated(c: CalculatedDateTime): string
  {
    TimePart(c) + CommaPart(c) + DurationPart(c) + RandomPart(c)
  }

  lemma AppendAssoc(a: string, b: string, c: string)
    ensures a + b + c == a + (b + c)
  {
  }

  /** The clock time as `CalculatedDateTime::fmt` writes it. */
  method ClockFmt(f: Formatter, hour: Hour, minute: Minute, nowHour: Hour)
    modifies f
    ensures f.buffer == old(f.buffer) + ClockText(hour, minute, nowHour)
  {
    if hour != nowHour {
      f.WriteStr(NatToString(hour) + "時");
      if minute != 0 {
        f.WriteStr(NatToString(minute) + "分");
      }
    } else {
      f.WriteStr(NatToString(minute) + "分");
    }
  }

  /** The clock-time part of `CalculatedDateTime::fmt`. */
  method TimePartFmt(f: Formatter, c: CalculatedDateTime)
    modifies f
    ensures f.buffer == old(f.buffer) + TimePart(c)
  {
    if IsInterestedInTime(c.spec) {
      var day := LocalDay(c.time, c.tz);
      var date := if day != LocalDay(c.now, c.tz) then MonthDayText(day) else "";
      if day != LocalDay(c.now, c.tz) {
        f.WriteStr(MonthDayText(day));
      }
      var clock := ClockText(LocalHour(c.time, c.tz), LocalMinute(c.time, c.tz), LocalHour(c.now, c.tz));
      ClockFmt(f, LocalHour(c.time, c.tz), LocalMinute(c.time, c.tz), LocalHour(c.now, c.tz));
      AppendAssoc(old(f.buffer), date, clock);
    }
  }

  /** `CalculatedDateTime::fmt`: the parts written one after another. */
  method SayCalculatedFmt(f: Formatter, c: CalculatedDateTime)
    modifies f
    ensures f.buffer == old(f.buffer) + SayCalculated(c)
  {
    ghost var o := f.buffer;
    TimePartFmt(f, c);
    CommaPartFmt(f, c);
    DurationPartFmt(f, c);
    RandomPartFmt(f, c);
    AppendFour(o, TimePart(c), CommaPart(c), DurationPart(c), RandomPart(c));
  }

  method CommaPartFmt(f: Formatter, c: CalculatedDateTime)
    modifies f
    ensures f.buffer == old(f.buffer) + CommaPart(c)
  {
    if IsInterestedInTime(c.spec) && IsInterestedInDuration(c.spec) {
      f.WriteStr("、");
    }
  }

  method DurationPartFmt(f: Formatter, c: CalculatedDateTime)
    modifies f
    ensures f.buffer == old(f.buffer) + DurationPart(c)
  {
    if IsInterestedInDuration(c.spec) {
      f.WriteStr(SayDuration(c.time - c.now) + "後");
    }
  }

  method RandomPartFmt(f: Formatter, c: CalculatedDateTime)
    modifies f
    ensures f.buffer == old(f.buffer) + RandomPart(c)
  {
    if c.isRandom {
      f.WriteStr("まで");
    }
  }

  lemma AppendFour(o: string, a: string, b: string, c: string, d: string)
    ensures o + a + b + c + d == o + (a + b + c + d)
  {
  }

  lemma DigitsAvoid(s: string, x: char)
    requires AllDigits(s) && !IsDigit(x)
    ensures x !in s
  {
  }

  lemma IntTextAvoids(i: int, x: char)
    requires !IsDigit(x) && x != '-'
    ensures x !in IntToString(i)
  {
  }

  lemma DurationTextAvoids(seconds: int, x: char)
    requires !IsDurationChar(x)
    ensures x !in SayDuration(seconds)
  {
    SayDurationChars(seconds);
  }

  lemma ClockTextAvoids(hour: Hour, minute: Minute, nowHour: Hour, x: char)
    requires !IsDigit(x) && x != '時' && x != '分'
    ensures x !in ClockText(hour, minute, nowHour)
  {
    DigitsAvoid(NatToString(hour), x);
    DigitsAvoid(NatToString(minute), x);
  }

  lemma MonthDayTextChars(day: int, x: char)
    requires !IsDigit(x) && x != '-' && x != ' '
    ensures x in MonthDayText(day) <==> x == '/'
  {
    var date := CivilFromDays(day);
    IntTextAvoids(date.month, x);
    IntTextAvoids(date.day, x);
    assert MonthDayText(day) == IntToString(date.month) + "/" + IntToString(date.day) + " ";
  }

  lemma TimePartChars(c: CalculatedDateTime, x: char)
    requires x in {'/', '、', '後', 'で'}
    ensures x in TimePart(c) <==>
      x == '/' && IsInterestedInTime(c.spec) && LocalDay(c.time, c.tz) != LocalDay(c.now, c.tz)
  {
    if IsInterestedInTime(c.spec) {
      var day := LocalDay(c.time, c.tz);
      ClockTextAvoids(LocalHour(c.time, c.tz), LocalMinute(c.time, c.tz), LocalHour(c.now, c.tz), x);
      if day != LocalDay(c.now, c.tz) {
        MonthDayTextChars(day, x);
      }
    }
  }

  lemma DurationPartChars(c: CalculatedDateTime, x: char)
    requires x in {'/', '、', '後', 'で'}
    ensures x in DurationPart(c) <==> x == '後' && IsInterestedInDuration(c.spec)
  {
    if IsInterestedInDuration(c.spec) {
      DurationTextAvoids(c.time - c.now, x);
    }
  }

  /** Each part of the announcement can be recognised in it: a date appears exactly
    * when the clock time is announced and falls on another day, the comma exactly when
    * both the time and the duration are announced, "後" exactly when the duration is,
    * and "まで" exactly when the moment is random. */
  lemma SayCalculatedParts(c: CalculatedDateTime)
    ensures '/' in SayCalculated(c) <==>
      IsInterestedInTime(c.spec) && LocalDay(c.time, c.tz) != LocalDay(c.now, c.tz)
    ensures '、' in SayCalculated(c) <==> IsInterestedInTime(c.spec) && IsInterestedInDuration(c.spec)
    ensures '後' in SayCalculated(c) <==> IsInterestedInDuration(c.spec)
    ensures 'で' in SayCalculated(c) <==> c.isRandom
  {
    PartsContain(c, '/');
    PartsContain(c, '、');
    PartsContain(c, '後');
    PartsContain(c, 'で');
  }

  lemma PartsContain(c: CalculatedDateTime, x: char)
    requires x in {'/', '、', '後', 'で'}
    ensures x in SayCalculated(c) <==>
      (x in TimePart(c) || x in CommaPart(c) || x in DurationPart(c) || x in RandomPart(c))
    ensures x in TimePart(c) <==>
      x == '/' && IsInterestedInTime(c.spec) && LocalDay(c.time, c.tz) != LocalDay(c.now, c.tz)
    ensures x in DurationPart(c) <==> x == '後' && IsInterestedInDuration(c.spec)
  {
    TimePartChars(c, x);
    DurationPartChars(c, x);
  }

  /** A digit run followed by a non-digit: two such texts agree only when the runs,
    * the marks and the rests agree. */
  lemma DigitsThenMark(a: string, b: string, ca: char, cb: char, x: string, y: string)
    requires AllDigits(a) && AllDigits(b) && !IsDigit(ca) && !IsDigit(cb)
    requires a + [ca] + x == b + [cb] + y
    ensures a == b && ca == cb && x == y
  {
    var t := a + [ca] + x;
    var k := if |a| < |b| then |a| else |b|;
    assert IsDigit(t[k]) <==> k < |a|;
    assert IsDigit((b + [cb] + y)[k]) <==> k < |b|;
    assert t[|a|] == ca;
    assert (b + [cb] + y)[|b|] == cb;
    assert a == t[..|a|];
    assert b == (b + [cb] + y)[..|b|];
    assert x == t[|a| + 1..];
    assert y == (b + [cb] + y)[|b| + 1..];
  }

  lemma NatTextInjective(m: nat, n: nat)
    requires NatToString(m) == NatToString(n)
    ensures m == n
  {
  }

  /** The announced clock time names the moment unambiguously, for a given current
    * hour. */
  lemma ClockTextIsInjective(h1: Hour, m1: Minute, h2: Hour, m2: Minute, nowHour: Hour)
    requires ClockText(h1, m1, nowHour) == ClockText(h2, m2, nowHour)
    ensures h1 == h2 && m1 == m2
  {
    var t := ClockText(h1, m1, nowHour);
    var x1 := if h1 != nowHour && m1 != 0 then NatToString(m1) + "分" else "";
    var x2 := if h2 != nowHour && m2 != 0 then NatToString(m2) + "分" else "";
    var a := if h1 != nowHour then NatToString(h1) else NatToString(m1);
    var b := if h2 != nowHour then NatToString(h2) else NatToString(m2);
    var ca := if h1 != nowHour then '時' else '分';
    var cb := if h2 != nowHour then '時' else '分';
    assert t == a + [ca] + x1;
    assert t == b + [cb] + x2;
    DigitsThenMark(a, b, ca, cb, x1, x2);
    NatTextInjective(if h1 != nowHour then h1 else m1, if h2 != nowHour then h2 else m2);
    if h1 != nowHour && m1 != 0 {
      assert x1[..|x1| - 1] == NatToString(m1);
      assert x2[..|x2| - 1] == NatToString(m2);
      NatTextInjective(m1, m2);
    }
  }

  // ---------------------------------------------------------------------------
  // Messages

  datatype Message =
    | Help
    | Scheduled(calculatedTime: CalculatedDateTime, kaisanee: KaisaneeSpecifier)
    | Kaisan(ids: seq<UserId>)
    | Remind(ids: seq<UserId>, reminder: Reminder)
    | Setting(requiresPermission: bool, timezone: Tz, reminders: seq<Reminder>, remindsRandomKaisan: bool)
    | HandleError(error: Error)
    | KaisanError(error: Error)
    | RemindError(error: Error)

  const HelpMessage: string :=
    "メンションか `!kaisan` でコマンドが実行できます。\n"
    + "\n"
    + "・`!kaisan help`: ヘルプ\n"
    + "\n"
    + "**解散コマンド** 省略された場合、`TARGET` は全員になります\n"
    + "・`!kaisan [TARGET] at TIME`: `TARGET` を `TIME` に解散する\n"
    + "・`!kaisan [TARGET] after DURATION`: `TARGET` を `DURATION` 後に解散する\n"
    + "・`!kaisan [TARGET] by TIME`: `TARGET` を `TIME` までのランダムな時間に解散する\n"
    + "・`!kaisan [TARGET] within DURATION`: `TARGET` を `DURATION` 後までのランダムな時間に解散する\n"
    + "・その他さまざまな糖衣構文\n"
    + "\n"
    + "*解散コマンド例*\n"
    + "・`@解散担当大臣 1時間30分後`\n"
    + "・`!kaisan me after 10min`\n"
    + "・`明日の一時 @解散担当大臣`\n"
    + "・`!kaisan @someone at 10:30`\n"
    + "\n"
    + "**設定コマンド** 設定には Manage Guild 権限が必要です\n"
    + "・`!kaisan show-setting`: 設定表示\n"
    + "・`!kaisan timezone TIMEZONE`: タイムゾーンを設定\n"
    + "・`!kaisan require-permission BOOLEAN`: 他人を解散するのに Move Members 権限を必要とするか設定\n"
    + "・`!kaisan add-reminder N`: 解散の `N` 分前にリマインドを設定\n"
    + "・`!kaisan remove-reminder N`: 解散の `N` 分前のリマインドを削除\n"
    + "・`!kaisan remind-random BOOLEAN`: 解散時刻がランダムな場合にもリマインダを使うかどうか設定\n"

  function SayReminders(rs: seq<Reminder>): (ts: seq<string>)
    ensures |ts| == |rs|
    ensures forall i :: 0 <= i < |rs| ==> ts[i] == SayReminder(rs[i])
  {
    if rs == [] then [] else [SayReminder(rs[0])] + SayReminders(rs[1..])
  }

  /** `Say for Message`. Errors are worded by `sayError`. */
  function SayMessage(m: Message, sayError: Error -> string): string
  {
    match m
    case Help => HelpMessage
    case Scheduled(c, k) => SayCalculated(c) + "に" + SayKaisanee(k) + "を解散します"
    case Kaisan(ids) => SayMentions(ids) + " 解散！"
    case Remind(ids, r) => SayMentions(ids) + " あと" + SayDuration(BeforeDuration(r)) + "で解散です"
    case Setting(rp, tz, rs, rr) =>
      SettingLine1 + SayBool(rp) + SettingMiddle(tz, Joined(SayReminders(rs), "、", Some("設定されていません")))
      + SayBool(rr) + "\n"
    case HandleError(e) => sayError(e)
    case KaisanError(e) => "解散できませんでした: " + sayError(e)
    case RemindError(e) => "リマインドできませんでした: " + sayError(e)
  }

  const SettingLine1: string := "他人を解散させるのに権限を必要とする: "

  /** The end of the first line, the timezone and reminder lines, and the label of the
    * last line. */
  function SettingMiddle(tz: Tz, reminders: string): string
  {
    "\n" + "タイムゾーン: " + tz.name + "\n" + "リマインダ: " + reminders + "\n"
      + "解散時刻がランダムな場合にもリマインダを使う: "
  }

  /** The kaisan message is the disconnected users' mentions, in order, then "解散！":
    * splitting it at the spaces gives them back. */
  lemma KaisanMessageNamesUsers(ids: seq<UserId>, sayError: Error -> string)
    requires ids != []
    ensures SplitOn(SayMessage(Kaisan(ids), sayError), ' ') == Mentions(ids) + ["解散！"]
  {
    assert SayMessage(Kaisan(ids), sayError) == SayMentions(ids) + " 解散！";
    MentionsLineSplits(ids);
  }

  lemma MentionsLineSplits(ids: seq<UserId>)
    requires ids != []
    ensures SplitOn(SayMentions(ids) + " 解散！", ' ') == Mentions(ids) + ["解散！"]
  {
    var ms := Mentions(ids);
    JoinSnoc(ms, " ", "解散！");
    assert SayMentions(ids) + " 解散！" == Join(ms + ["解散！"], " ");
    forall i | 0 <= i < |ms + ["解散！"]| ensures ' ' !in (ms + ["解散！"])[i] {
      if i < |ms| {
        assert (ms + ["解散！"])[i] == Mention(ids[i]);
      } else {
        assert (ms + ["解散！"])[i] == "解散！";
      }
    }
    SplitJoin(ms + ["解散！"], ' ');
  }

  /** A reminder message to the same users tells the lead time unambiguously. */
  lemma RemindMessageNamesLeadTime(ids: seq<UserId>, a: Reminder, b: Reminder, sayError: Error -> string)
    requires SayMessage(Remind(ids, a), sayError) == SayMessage(Remind(ids, b), sayError)
    ensures a == b
  {
    var pre := SayMentions(ids) + " あと";
    var ta, tb := SayDuration(BeforeDuration(a)), SayDuration(BeforeDuration(b));
    var post := "で解散です";
    var ma := SayMessage(Remind(ids, a), sayError);
    assert ma == pre + ta + post;
    assert SayMessage(Remind(ids, b), sayError) == pre + tb + post;
    assert ta == ma[|pre|..|ma| - |post|];
    assert tb == ma[|pre|..|ma| - |post|];
    assert SayReminder(a) == ta + "前";
    SayReminderIsInjective(a, b);
  }

  /** The settings message tells both flags: the word after the first label is はい
    * exactly when permission is required, and the last word is はい exactly when
    * random kaisans are reminded of. */
  lemma SettingMessageShowsFlags(rp: bool, tz: Tz, rs: seq<Reminder>, rr: bool, sayError: Error -> string)
    ensures var t := SayMessage(Setting(rp, tz, rs, rr), sayError);
      |t| > |SettingLine1| + 2 && t[|SettingLine1|] == (if rp then 'は' else 'い')
      && t[|t| - 2] == (if rr then 'い' else 'え') && t[|t| - 3] == (if rr then 'は' else 'い')
  {
    var t := SayMessage(Setting(rp, tz, rs, rr), sayError);
    var middle := SettingMiddle(tz, Joined(SayReminders(rs), "、", Some("設定されていません")));
    assert t == SettingLine1 + SayBool(rp) + middle + SayBool(rr) + "\n";
  }

  /** Two settings messages that read the same have the same flags. */
  lemma SettingMessageDeterminesFlags(a: Message, b: Message, sayError: Error -> string)
    requires a.Setting? && b.Setting?
    requires SayMessage(a, sayError) == SayMessage(b, sayError)
    ensures a.requiresPermission == b.requiresPermission
    ensures a.remindsRandomKaisan == b.remindsRandomKaisan
  {
    var t := SayMessage(a, sayError);
    SettingFlagsIn(t, a, sayError);
    SettingFlagsIn(t, b, sayError);
  }

  lemma SettingFlagsIn(t: string, m: Message, sayError: Error -> string)
    requires m.Setting? && t == SayMessage(m, sayError)
    ensures |t| > |SettingLine1| + 2 && t[|SettingLine1|] == (if m.requiresPermission then 'は' else 'い')
    ensures t[|t| - 2] == (if m.remindsRandomKaisan then 'い' else 'え')
  {
    SettingMessageShowsFlags(m.requiresPermission, m.timezone, m.reminders, m.remindsRandomKaisan, sayError);
  }
}
