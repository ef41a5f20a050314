/** How the bot words values in its Japanese replies (src/say.rs). A reply is
  * written into a formatter buffer piece by piece. */
module Say {
  import opened Wrappers
  import opened Numeric

  /** The output buffer of `fmt::Formatter`. Writing into a string never fails. */
  class Formatter {
    var buffer: string

    constructor ()
      ensures buffer == ""
    {
      buffer := "";
    }

    method WriteStr(s: string)
      modifies this
      ensures buffer == old(buffer) + s
    {
      buffer := buffer + s;
    }
  }

  /** `Say for bool`. */
  function SayBool(b: bool): string
  {
    if b then "はい" else "いいえ"
  }

  lemma SayBoolIsInjective(a: bool, b: bool)
    ensures SayBool(a) == SayBool(b) <==> a == b
  {
    if a != b {
      assert SayBool(a)[0] != SayBool(b)[0];
    }
  }

  /** The whole hours and minutes of a duration, truncated toward zero as chrono's
    * `num_hours` and `num_minutes` do. */
  function NumHours(seconds: int): int { TruncDiv(seconds, 3600) }

  function NumMinutes(seconds: int): int { TruncDiv(seconds, 60) }

  /** `Say for Duration`: the hours when there are any, then the minutes within the
    * hour, which are shown whenever the duration has minutes or no hours. */
  function SayDuration(seconds: int): string
  {
    var hours := NumHours(seconds);
    var minutes := NumMinutes(seconds);
    (if hours != 0 then IntToString(hours) + "時間" else "")
      + (if minutes != 0 || hours == 0 then IntToString(TruncRem(minutes, 60)) + "分" else "")
  }

  /** The characters a duration is written with. */
  predicate IsDurationChar(c: char)
  {
    IsDigit(c) || c == '-' || c == '時' || c == '間' || c == '分'
  }

  lemma SayDurationChars(seconds: int)
    ensures forall k :: 0 <= k < |SayDuration(seconds)| ==> IsDurationChar(SayDuration(seconds)[k])
  {
    var hours := NumHours(seconds);
    var minutes := NumMinutes(seconds);
    var hs := IntToString(hours);
    var ms := IntToString(TruncRem(minutes, 60));
    assert forall k :: 0 <= k < |hs| ==> IsDurationChar(hs[k]);
    assert forall k :: 0 <= k < |ms| ==> IsDurationChar(ms[k]);
  }

  /** A reader for `SayDuration`'s output: `<h>時間<m>分` or `<m>分`, in minutes. */
  function ReadDuration(t: string): Option<nat>
  {
    var e := DigitRunEnd(t, 0, |t|);
    if e == 0 then None else ReadAfterNumber(DecimalValue(t[..e]), t[e..])
  }

  /** Reads what follows the leading number: `分`, or `時間<m>分`. */
  function ReadAfterNumber(first: nat, rest: string): Option<nat>
  {
    if rest == "分" then Some(first)
    else if |rest| >= 2 && rest[..2] == "時間" then
      match ReadMinutePart(rest[2..])
      case Some(m) => Some(first * 60 + m)
      case None => None
    else None
  }

  /** Reads `<m>分`. */
  function ReadMinutePart(r: string): Option<nat>
  {
    var e := DigitRunEnd(r, 0, |r|);
    if e > 0 && r[e..] == "分" then Some(DecimalValue(r[..e])) else None
  }

  /** For a duration that is not negative, the minute part is always there and the text
    * gives back the whole minutes of the duration. */
  lemma ReadSaidDuration(seconds: nat)
    ensures ReadDuration(SayDuration(seconds)) == Some(seconds / 60)
  {
    var hours := seconds / 3600;
    var minutes := seconds / 60;
    assert hours == minutes / 60 by { NestedDivision(seconds); }
    SayDurationOfNonNegative(seconds);
    var m := minutes % 60;
    assert minutes == hours * 60 + m;
    if hours == 0 {
      assert SayDuration(seconds) == NatToString(m) + "分";
      ReadMinutes(m);
    } else {
      assert SayDuration(seconds) == (NatToString(hours) + "時間") + (NatToString(m) + "分");
      ReadHoursAndMinutes(hours, m);
    }
  }

  lemma SayDurationOfNonNegative(seconds: nat)
    ensures SayDuration(seconds)
         == (if seconds / 3600 != 0 then NatToString(seconds / 3600) + "時間" else "")
            + NatToString((seconds / 60) % 60) + "分"
  {
    NestedDivision(seconds);
  }

  lemma ReadMinutePartOfDisplay(m: nat)
    ensures ReadMinutePart(NatToString(m) + "分") == Some(m)
  {
    var t := NatToString(m) + "分";
    DigitRunOfDisplay(t, 0, m, |t|);
    assert t[..|NatToString(m)|] == NatToString(m);
    assert t[|NatToString(m)|..] == "分";
  }

  lemma ReadDurationAfterDigits(t: string, k: nat)
    requires 0 < k <= |t| && AllDigits(t[..k])
    requires k == |t| || !IsDigit(t[k])
    ensures ReadDuration(t) == ReadAfterNumber(DecimalValue(t[..k]), t[k..])
  {
    assert t[0..k] == t[..k];
    DigitRunEndOfRun(t, 0, k, |t|);
  }

  lemma ReadMinutes(m: nat)
    ensures ReadDuration(NatToString(m) + "分") == Some(m)
  {
    var ms := NatToString(m);
    var t := ms + "分";
    assert t[..|ms|] == ms && t[|ms|..] == "分";
    ReadDurationAfterDigits(t, |ms|);
  }

  lemma ReadHoursAndMinutes(h: nat, m: nat)
    ensures ReadDuration((NatToString(h) + "時間") + (NatToString(m) + "分")) == Some(h * 60 + m)
  {
    var hs, rest := NatToString(h), "時間" + (NatToString(m) + "分");
    ReadAfterHours(h, m);
    SplitAfterDigits(hs, rest);
    Regroup(hs, "時間", NatToString(m) + "分");
  }

  lemma Regroup(a: string, b: string, c: string)
    ensures (a + b) + c == a + (b + c)
  {
  }

  lemma ReadAfterHours(h: nat, m: nat)
    ensures ReadAfterNumber(h, "時間" + (NatToString(m) + "分")) == Some(h * 60 + m)
  {
    HoursPart(NatToString(m), "時間" + NatToString(m) + "分");
    assert "時間" + NatToString(m) + "分" == "時間" + (NatToString(m) + "分");
    ReadMinutePartOfDisplay(m);
  }

  lemma SplitAfterDigits(hs: string, rest: string)
    requires |hs| > 0 && AllDigits(hs)
    requires rest == [] || !IsDigit(rest[0])
    ensures ReadDuration(hs + rest) == ReadAfterNumber(DecimalValue(hs), rest)
  {
    var t := hs + rest;
    assert t[..|hs|] == hs && t[|hs|..] == rest;
    ReadDurationAfterDigits(t, |hs|);
  }

  lemma HoursPart(ms: string, rest: string)
    requires rest == "時間" + ms + "分"
    ensures rest != "分" && |rest| >= 2 && rest[..2] == "時間" && rest[2..] == ms + "分"
  {
    assert rest[0] == '時';
  }

  lemma NestedDivision(n: nat)
    ensures n / 3600 == (n / 60) / 60
  {
    var q := n / 3600;
    var r := n % 3600;
    assert n == q * 3600 + r;
    assert n / 60 == q * 60 + r / 60;
  }

  lemma SayDurationExamples()
    ensures SayDuration(3600) == "1時間0分"
    ensures SayDuration(5400) == "1時間30分"
    ensures SayDuration(30) == "0分"
  {
    assert NatToString(30) == "30";
  }

  /** A negative duration truncates toward zero, and both parts carry the sign. */
  lemma SayNegativeDuration()
    ensures SayDuration(-5400) == "-1時間-30分"
  {
    var h, m := NumHours(-5400), NumMinutes(-5400);
    assert h == -1 && m == -90;
    assert TruncRem(m, 60) == -30;
    assert IntToString(-30) == "-30" by { assert NatToString(30) == "30"; }
    assert IntToString(-1) == "-1";
  }

  /** The items with the separator between them: the output of `SayJoined` when
    * there is at least one item. */
  function Join(items: seq<string>, separator: string): string
    requires |items| > 0
  {
    if |items| == 1 then items[0] else items[0] + separator + Join(items[1..], separator)
  }

  /** What `SayJoined` writes: the joined items, or the alternative when there are none. */
  function Joined(items: seq<string>, separator: string, alternative: Option<string>): string
  {
    if |items| > 0 then Join(items, separator)
    else if alternative.Some? then alternative.value
    else ""
  }

  /** Appending one item to the list appends the separator and that item. */
  lemma {:induction false} JoinSnoc(items: seq<string>, separator: string, x: string)
    requires |items| > 0
    ensures Join(items + [x], separator) == Join(items, separator) + separator + x
    decreases |items|
  {
    if |items| > 1 {
      assert (items + [x])[1..] == items[1..] + [x];
      JoinSnoc(items[1..], separator, x);
    } else {
      assert (items + [x])[1..] == [x];
    }
  }

  /** The joined text is as long as the items and the separators between them. */
  lemma {:induction false} JoinLength(items: seq<string>, separator: string)
    requires |items| > 0
    ensures |Join(items, separator)| == TotalLength(items) + (|items| - 1) * |separator|
    decreases |items|
  {
    if |items| > 1 {
      JoinLength(items[1..], separator);
    }
  }

  function TotalLength(items: seq<string>): nat
  {
    if items == [] then 0 else |items[0]| + TotalLength(items[1..])
  }

  /** Splitting at every occurrence of a one-character separator. */
  function SplitOn(s: string, c: char): (parts: seq<string>)
    ensures |parts| > 0
    decreases |s|
  {
    if c !in s then [s]
    else
      var i := FirstIndex(s, c);
      [s[..i]] + SplitOn(s[i + 1..], c)
  }

  function FirstIndex(s: string, c: char): (i: nat)
    requires c in s
    ensures i < |s| && s[i] == c && c !in s[..i]
  {
    if s[0] == c then 0
    else
      var i := 1 + FirstIndex(s[1..], c);
      assert s[..i] == [s[0]] + s[1..][..i - 1];
      i
  }

  /** Joining with a one-character separator that no item contains can be undone by
    * splitting: the items and their order are recoverable from the text. */
  lemma {:induction false} SplitJoin(items: seq<string>, c: char)
    requires |items| > 0
    requires forall i :: 0 <= i < |items| ==> c !in items[i]
    ensures SplitOn(Join(items, [c]), c) == items
    decreases |items|
  {
    if |items| > 1 {
      NoSeparatorInTail(items, c);
      SplitJoin(items[1..], c);
      SplitJoinCons(items, c, Join(items[1..], [c]));
    }
  }

  lemma SplitJoinCons(items: seq<string>, c: char, rest: string)
    requires |items| > 1 && rest == Join(items[1..], [c]) && c !in items[0]
    requires SplitOn(rest, c) == items[1..]
    ensures SplitOn(Join(items, [c]), c) == items
  {
    assert Join(items, [c]) == items[0] + [c] + rest;
    SplitAtFirst(items[0], c, rest);
    assert items == [items[0]] + items[1..];
  }

  lemma NoSeparatorInTail(items: seq<string>, c: char)
    requires |items| > 0 && forall i :: 0 <= i < |items| ==> c !in items[i]
    ensures forall i :: 0 <= i < |items[1..]| ==> c !in items[1..][i]
  {
    forall i | 0 <= i < |items[1..]| ensures c !in items[1..][i] {
      assert items[1..][i] == items[i + 1];
    }
  }

  lemma SplitAtFirst(head: string, c: char, rest: string)
    requires c !in head
    ensures SplitOn(head + [c] + rest, c) == [head] + SplitOn(rest, c)
  {
    var s := head + [c] + rest;
    assert forall j :: 0 <= j < |head| ==> s[j] == head[j];
    FirstIndexIs(s, c, |head|);
    assert s[..|head|] == head;
    assert s[|head| + 1..] == rest;
  }

  lemma {:induction false} FirstIndexIs(s: string, c: char, k: nat)
    requires k < |s| && s[k] == c
    requires forall j :: 0 <= j < k ==> s[j] != c
    ensures c in s && FirstIndex(s, c) == k
    decreases k
  {
    if k > 0 {
      assert s[1..][k - 1] == c;
      FirstIndexIs(s[1..], c, k - 1);
    }
  }

  /** `SayJoined::fmt`: writes the first item, then the separator and the next item for
    * each remaining one; with no item, the alternative if there is one. */
  method SayJoinedFmt(f: Formatter, items: seq<string>, separator: string, alternative: Option<string>)
    modifies f
    ensures f.buffer == old(f.buffer) + Joined(items, separator, alternative)
  {
    if |items| > 0 {
      f.WriteStr(items[0]);
      var k := 1;
      while k < |items|
        invariant 1 <= k <= |items|
        invariant f.buffer == old(f.buffer) + Join(items[..k], separator)
      {
        f.WriteStr(separator);
        f.WriteStr(items[k]);
        JoinSnoc(items[..k], separator, items[k]);
        assert items[..k + 1] == items[..k] + [items[k]];
        k := k + 1;
      }
      assert items[..k] == items;
    } else if alternative.Some? {
      f.WriteStr(alternative.value);
    }
  }

  /** `say_unwords`: items separated by one space, nothing when there are none. */
  function Unwords(items: seq<string>): string
  {
    Joined(items, " ", None)
  }

  /** How Discord mentions the user with the given id. */
  function Mention(id: nat): (m: string)
    ensures ' ' !in m
  {
    "<@" + NatToString(id) + ">"
  }

  function Mentions(ids: seq<nat>): (ms: seq<string>)
    ensures |ms| == |ids|
    ensures forall i :: 0 <= i < |ids| ==> ms[i] == Mention(ids[i])
  {
    if ids == [] then [] else [Mention(ids[0])] + Mentions(ids[1..])
  }

  /** `say_mentions_ref`: the users' mentions separated by spaces. */
  function SayMentions(ids: seq<nat>): string
  {
    Unwords(Mentions(ids))
  }

  /** The mentioned users, in order, can be read back from the text; no user means no text. */
  lemma SayMentionsRecoversMentions(ids: seq<nat>)
    ensures ids == [] ==> SayMentions(ids) == ""
    ensures ids != [] ==> SplitOn(SayMentions(ids), ' ') == Mentions(ids)
  {
    if ids != [] {
      SplitJoin(Mentions(ids), ' ');
    }
  }
}
