/** Kanji numerals in commands (the `kanji_number_digit`, `kanji_number_tail` and
  * `kanji_number` rules): 一 to 九, tens with 十 and hundreds with 百, read into an
  * unsigned byte. These rules only ever run inside `quiet!`, so they record no
  * failures. */
module KanjiNumerals {
  import opened Wrappers
  import opened Numeric
  import opened Peg

  const KanjiDigits: string := "一二三四五六七八九"

  predicate IsKanjiNumeralChar(c: char)
  {
    c in KanjiDigits || c == '十' || c == '百'
  }

  /** `kanji_number_digit`: one of 一 to 九. */
  function KanjiDigit(s: string, p: nat): (r: Option<(U8, nat)>)
    requires p <= |s|
    ensures r.Some? <==> p < |s| && s[p] in KanjiDigits
    ensures r.Some? ==> 1 <= r.value.0 <= 9 && r.value.1 == p + 1 && KanjiDigits[r.value.0 - 1] == s[p]
  {
    if p < |s| && s[p] in KanjiDigits then
      var i := IndexOf(KanjiDigits, s[p]);
      Some((i + 1, p + 1))
    else None
  }

  function IndexOf(w: string, c: char): (i: nat)
    requires c in w
    ensures i < |w| && w[i] == c
  {
    if w[0] == c then 0 else 1 + IndexOf(w[1..], c)
  }

  /** `kanji_number_tail(x)`: `十` and an optional digit make x tens (and that digit);
    * `百` and an optional smaller number make x hundreds (and that number). A result
    * that would not fit in a byte is rejected. */
  function KanjiTail(s: string, p: nat, x: U8): (r: Option<(U8, nat)>)
    requires p <= |s| && 1 <= x <= 9
    ensures r.Some? ==> 1 <= r.value.0 <= 255 && p < r.value.1 <= |s|
    decreases |s| - p, 0
  {
    if p < |s| && s[p] == '十' then
      match KanjiDigit(s, p + 1)
      case Some((d, q)) => Some((x * 10 + d, q))
      case None => Some((x * 10, p + 1))
    else if p < |s| && s[p] == '百' then
      match KanjiNumber(s, p + 1)
      case Some((d, q)) =>
        if d < 100 && x * 100 + d <= 255 then Some((x * 100 + d, q)) else None
      case None =>
        if x * 100 <= 255 then Some((x * 100, p + 1)) else None
    else None
  }

  /** `kanji_number`: a tail of one (十…, 百…), or a digit with an optional tail of it. */
  function KanjiNumber(s: string, p: nat): (r: Option<(U8, nat)>)
    requires p <= |s|
    ensures r.Some? ==> 1 <= r.value.0 <= 255 && p < r.value.1 <= |s|
    decreases |s| - p, 1
  {
    match KanjiTail(s, p, 1)
    case Some(v) => Some(v)
    case None =>
      match KanjiDigit(s, p)
      case None => None
      case Some((x, q)) =>
        match KanjiTail(s, q, x)
        case Some(v) => Some(v)
        case None => Some((x, q))
  }

  /** The same rules with the byte arithmetic left unchecked: `x * 100 + d` as written
    * has no bound, so 三百 computes 300, which no byte holds. */
  function KanjiTailAsWritten(s: string, p: nat, x: nat): (r: Option<(nat, nat)>)
    requires p <= |s|
    ensures r.Some? ==> p < r.value.1 <= |s|
    decreases |s| - p, 0
  {
    if p < |s| && s[p] == '十' then
      match KanjiDigit(s, p + 1)
      case Some((d, q)) => Some((x * 10 + d, q))
      case None => Some((x * 10, p + 1))
    else if p < |s| && s[p] == '百' then
      match KanjiNumberAsWritten(s, p + 1)
      case Some((d, q)) => if d < 100 then Some((x * 100 + d, q)) else None
      case None => Some((x * 100, p + 1))
    else None
  }

  function KanjiNumberAsWritten(s: string, p: nat): (r: Option<(nat, nat)>)
    requires p <= |s|
    ensures r.Some? ==> p < r.value.1 <= |s|
    decreases |s| - p, 1
  {
    match KanjiTailAsWritten(s, p, 1)
    case Some(v) => Some(v)
    case None =>
      match KanjiDigit(s, p)
      case None => None
      case Some((x, q)) =>
        match KanjiTailAsWritten(s, q, x)
        case Some(v) => Some(v)
        case None => Some((x, q))
  }

  /** Three hundred, and two hundred and fifty-six, overflow the byte as written. */
  lemma KanjiHundredsOverflowAsWritten()
    ensures KanjiNumberAsWritten("三百", 0) == Some((300, 2))
    ensures KanjiNumberAsWritten("二百五十六", 0) == Some((256, 5))
  {
    ThreeHundredAsWritten();
    TwoFiftySixAsWritten();
  }

  lemma ThreeHundredAsWritten()
    ensures KanjiNumberAsWritten("三百", 0) == Some((300, 2))
  {
    assert KanjiDigit("三百", 0) == Some((3, 1));
    assert KanjiNumberAsWritten("三百", 2) == None;
  }

  lemma TwoFiftySixAsWritten()
    ensures KanjiNumberAsWritten("二百五十六", 0) == Some((256, 5))
  {
    var t := "二百五十六";
    assert KanjiDigit(t, 0) == Some((2, 1));
    assert KanjiNumberAsWritten(t, 2) == Some((56, 5)) by {
      assert KanjiDigit(t, 2) == Some((5, 3));
      assert KanjiDigit(t, 4) == Some((6, 5));
      assert KanjiTailAsWritten(t, 3, 5) == Some((56, 5));
      assert KanjiTailAsWritten(t, 2, 1) == None;
    }
    assert KanjiTailAsWritten(t, 1, 2) == Some((256, 5));
    assert KanjiTailAsWritten(t, 0, 1) == None;
  }

  /** With the bound checked, the 百 is not consumed: only 三 is read, and only 二
    * of 二百五十六; 二百五十五 still fits. */
  lemma KanjiHundredsCorrected()
    ensures KanjiNumber("三百", 0) == Some((3, 1))
    ensures KanjiNumber("二百五十六", 0) == Some((2, 1))
    ensures KanjiNumber("二百五十五", 0) == Some((255, 5))
  {
    ThreeHundredCorrected();
    TwoFiftySixCorrected();
    TwoFiftyFive();
  }

  lemma ThreeHundredCorrected()
    ensures KanjiNumber("三百", 0) == Some((3, 1))
  {
    assert KanjiDigit("三百", 0) == Some((3, 1));
    assert KanjiNumber("三百", 2) == None;
  }

  /** 五十x read at position 2 of 二百五十x. */
  lemma FiftyAt(t: string, d: U8)
    requires |t| == 5 && 1 <= d <= 9 && t[2..] == "五十" + [KanjiDigits[d - 1]]
    ensures KanjiNumber(t, 2) == Some((50 + d, 5))
  {
    assert t[2] == '五' && t[3] == '十' && t[4] == KanjiDigits[d - 1] by {
      assert t[2..][0] == t[2] && t[2..][1] == t[3] && t[2..][2] == t[4];
    }
    DigitAt(t, 4, d);
    assert KanjiTail(t, 3, 5) == Some((50 + d, 5));
    DigitAt(t, 2, 5);
    NumberOfDigitTail(t, 2, 5, (50 + d, 5));
  }

  lemma TwoFiftySixCorrected()
    ensures KanjiNumber("二百五十六", 0) == Some((2, 1))
  {
    var t := "二百五十六";
    assert t[2..] == "五十" + [KanjiDigits[5]];
    FiftyAt(t, 6);
    assert KanjiTail(t, 1, 2) == None;
    DigitAt(t, 0, 2);
  }

  lemma TwoFiftyFive()
    ensures KanjiNumber("二百五十五", 0) == Some((255, 5))
  {
    var t := "二百五十五";
    assert t[2..] == "五十" + [KanjiDigits[4]];
    FiftyAt(t, 5);
    HundredsTail(t, 1, 2, 55, 5);
    DigitAt(t, 0, 2);
    NumberOfDigitTail(t, 0, 2, (255, 5));
  }

  /** Canonical kanji spelling of 1 to 255: 五, 十二, 四十, 百七, 二百五十五. */
  function KanjiText(n: nat): (t: string)
    requires 1 <= n <= 255
    ensures 1 <= |t| <= 5
    decreases n
  {
    if n < 10 then [KanjiDigits[n - 1]]
    else if n < 20 then "十" + OnesText(n % 10)
    else if n < 100 then [KanjiDigits[n / 10 - 1]] + "十" + OnesText(n % 10)
    else if n == 100 then "百"
    else if n < 200 then "百" + KanjiText(n - 100)
    else if n == 200 then "二百"
    else "二百" + KanjiText(n - 200)
  }

  function OnesText(d: nat): (t: string)
    requires d < 10
    ensures |t| <= 1 && (forall i :: 0 <= i < |t| ==> t[i] in KanjiDigits)
    ensures d == 0 <==> t == []
  {
    if d == 0 then "" else [KanjiDigits[d - 1]]
  }

  /** Where no numeral character stands, no kanji number starts. */
  lemma NoKanjiNumberAtNonNumeral(s: string, p: nat)
    requires p <= |s| && (p == |s| || !IsKanjiNumeralChar(s[p]))
    ensures KanjiDigit(s, p) == None
    ensures forall x: U8 :: 1 <= x <= 9 ==> KanjiTail(s, p, x) == None
    ensures KanjiNumber(s, p) == None
  {
  }

  /** Reading back: the canonical spelling of n, followed by anything that is not a
    * numeral character, reads as n and ends right after the spelling. */
  lemma KanjiNumberOfText(s: string, p: nat, n: nat)
    requires 1 <= n <= 255
    requires p + |KanjiText(n)| <= |s| && s[p..p + |KanjiText(n)|] == KanjiText(n)
    requires p + |KanjiText(n)| == |s| || !IsKanjiNumeralChar(s[p + |KanjiText(n)|])
    ensures KanjiNumber(s, p) == Some((n, p + |KanjiText(n)|))
  {
    KanjiSpelledAt(s, p, n, p + |KanjiText(n)|);
  }

  /** The same, with e the position right after the spelling. */
  lemma {:induction false} KanjiSpelledAt(s: string, p: nat, n: nat, e: nat)
    requires 1 <= n <= 255 && e == p + |KanjiText(n)|
    requires e <= |s| && s[p..e] == KanjiText(n) && (e == |s| || !IsKanjiNumeralChar(s[e]))
    ensures KanjiNumber(s, p) == Some((n, e))
    decreases n, 2
  {
    if n < 100 {
      KanjiSmallAt(s, p, n, e);
    } else {
      KanjiLargeAt(s, p, n, e);
    }
  }

  lemma KanjiSmallAt(s: string, p: nat, n: nat, e: nat)
    requires 1 <= n < 100 && e == p + |KanjiText(n)|
    requires e <= |s| && s[p..e] == KanjiText(n) && (e == |s| || !IsKanjiNumeralChar(s[e]))
    ensures KanjiNumber(s, p) == Some((n, e))
  {
    if n < 10 {
      KanjiOnesAt(s, p, n, e);
    } else {
      KanjiTensAt(s, p, n, e);
    }
  }

  lemma {:induction false} KanjiLargeAt(s: string, p: nat, n: nat, e: nat)
    requires 100 <= n <= 255 && e == p + |KanjiText(n)|
    requires e <= |s| && s[p..e] == KanjiText(n) && (e == |s| || !IsKanjiNumeralChar(s[e]))
    ensures KanjiNumber(s, p) == Some((n, e))
    decreases n, 1
  {
    if n == 100 || n == 200 {
      KanjiRoundHundredsAt(s, p, n, e);
    } else {
      KanjiHundredsAt(s, p, n, e);
    }
  }

  /** Over one hundred: the hundreds mark, then the spelling of the rest. */
  lemma {:induction false} KanjiHundredsAt(s: string, p: nat, n: nat, e: nat)
    requires 100 < n <= 255 && n != 200 && e == p + |KanjiText(n)|
    requires e <= |s| && s[p..e] == KanjiText(n) && (e == |s| || !IsKanjiNumeralChar(s[e]))
    ensures KanjiNumber(s, p) == Some((n, e))
    decreases n, 0
  {
    var j := HundredsPrefix(s, p, n, e);
    KanjiSpelledAt(s, p + j, n - 100 * j, e);
    HundredsOfParts(s, p, n, j, e);
  }

  /** Splits the spelling of a number over one hundred into its hundreds mark (百 or
    * 二百, j characters) and the spelling of the rest. */
  lemma HundredsPrefix(s: string, p: nat, n: nat, e: nat) returns (j: nat)
    requires 100 < n <= 255 && n != 200 && e == p + |KanjiText(n)|
    requires e <= |s| && s[p..e] == KanjiText(n)
    ensures j == (if n < 200 then 1 else 2)
    ensures e == p + j + |KanjiText(n - 100 * j)|
    ensures s[p + j..e] == KanjiText(n - 100 * j)
    ensures s[p + j - 1] == '百' && (j == 2 ==> s[p] == '二')
  {
    j := if n < 200 then 1 else 2;
    var t := KanjiText(n);
    var u := KanjiText(n - 100 * j);
    assert t == (if n < 200 then "百" else "二百") + u;
    assert s[p + j..e] == s[p..e][j..];
    assert s[p + j - 1] == s[p..e][j - 1];
    if j == 2 {
      assert s[p] == s[p..e][0];
    }
  }

  lemma KanjiOnesAt(s: string, p: nat, n: nat, e: nat)
    requires 1 <= n < 10 && e == p + |KanjiText(n)|
    requires e <= |s| && s[p..e] == KanjiText(n) && (e == |s| || !IsKanjiNumeralChar(s[e]))
    ensures KanjiNumber(s, p) == Some((n, e))
  {
    var t := KanjiText(n);
    assert t == [KanjiDigits[n - 1]];
    assert s[p] == s[p..e][0];
    assert KanjiDigits[n - 1] != '十' && KanjiDigits[n - 1] != '百';
    assert KanjiDigit(s, p) == Some((n, p + 1));
    NoKanjiNumberAtNonNumeral(s, p + 1);
  }

  lemma KanjiTensAt(s: string, p: nat, n: nat, e: nat)
    requires 10 <= n < 100 && e == p + |KanjiText(n)|
    requires e <= |s| && s[p..e] == KanjiText(n) && (e == |s| || !IsKanjiNumeralChar(s[e]))
    ensures KanjiNumber(s, p) == Some((n, e))
  {
    var j := if n < 20 then 1 else 2;
    TensChars(s, p, n, j, e);
    TensTail(s, p + j - 1, n, e);
    if n < 20 {
      NumberOfTail(s, p, (n, e));
    } else {
      NumberOfDigitTail(s, p, n / 10, (n, e));
    }
  }

  /** A tail of one at p is the number read there. */
  lemma NumberOfTail(s: string, p: nat, v: (U8, nat))
    requires p <= |s| && KanjiTail(s, p, 1) == Some(v)
    ensures KanjiNumber(s, p) == Some(v)
  {
  }

  /** The digit x at p, then a tail of x: that tail is the number read at p. */
  lemma NumberOfDigitTail(s: string, p: nat, x: U8, v: (U8, nat))
    requires 1 <= x <= 9 && p < |s| && s[p] == KanjiDigits[x - 1]
    requires KanjiTail(s, p + 1, x) == Some(v)
    ensures KanjiNumber(s, p) == Some(v)
  {
    DigitAt(s, p, x);
  }

  /** The x-th numeral character reads as the digit x. */
  lemma DigitAt(s: string, p: nat, x: U8)
    requires 1 <= x <= 9 && p < |s| && s[p] == KanjiDigits[x - 1]
    ensures KanjiDigit(s, p) == Some((x, p + 1))
  {
    IndexOfDistinct(KanjiDigits, x - 1);
  }

  /** In a string of distinct characters, the index of the i-th one is i. */
  lemma {:induction false} IndexOfDistinct(w: string, i: nat)
    requires i < |w| && forall a, b :: 0 <= a < b < |w| ==> w[a] != w[b]
    ensures IndexOf(w, w[i]) == i
  {
    if i > 0 {
      assert w[0] != w[i];
      assert w[1..][i - 1] == w[i];
      IndexOfDistinct(w[1..], i - 1);
    }
  }

  /** 十 at q, then the ones digit if any, ending at e: the tail makes n of its tens
    * digit. */
  lemma TensTail(s: string, q: nat, n: nat, e: nat)
    requires 10 <= n < 100 && e == q + (if n % 10 == 0 then 1 else 2)
    requires e <= |s| && s[q] == '十'
    requires n % 10 != 0 ==> s[q + 1] == KanjiDigits[n % 10 - 1]
    requires e == |s| || !IsKanjiNumeralChar(s[e])
    ensures KanjiTail(s, q, n / 10) == Some((n, e))
  {
    if n % 10 == 0 {
      NoKanjiNumberAtNonNumeral(s, q + 1);
    } else {
      assert KanjiDigit(s, q + 1) == Some((n % 10, q + 2));
    }
  }

  /** The characters of a spelling of 10 to 99: the tens digit (from 20 on), 十, and
    * the ones digit unless it is zero. */
  lemma TensChars(s: string, p: nat, n: nat, j: nat, e: nat)
    requires 10 <= n < 100 && j == (if n < 20 then 1 else 2) && e == p + |KanjiText(n)|
    requires e <= |s| && s[p..e] == KanjiText(n)
    ensures e == p + j - 1 + (if n % 10 == 0 then 1 else 2)
    ensures s[p + j - 1] == '十'
    ensures n >= 20 ==> s[p] == KanjiDigits[n / 10 - 1]
    ensures n % 10 != 0 ==> s[p + j] == KanjiDigits[n % 10 - 1]
  {
    var t := KanjiText(n);
    var lead := if n < 20 then "十" else [KanjiDigits[n / 10 - 1]] + "十";
    assert t == lead + OnesText(n % 10);
    assert s[p + j - 1] == s[p..e][j - 1];
    if n >= 20 {
      assert s[p] == s[p..e][0];
    }
    if n % 10 != 0 {
      assert s[p + j] == s[p..e][j];
    }
  }

  lemma KanjiRoundHundredsAt(s: string, p: nat, n: nat, e: nat)
    requires (n == 100 || n == 200) && e == p + |KanjiText(n)|
    requires e <= |s| && s[p..e] == KanjiText(n) && (e == |s| || !IsKanjiNumeralChar(s[e]))
    ensures KanjiNumber(s, p) == Some((n, e))
  {
    var t := KanjiText(n);
    var j := n / 100;
    assert t == (if n == 100 then "百" else "二百");
    assert e == p + j;
    assert s[p + j - 1] == s[p..e][j - 1];
    if n == 200 {
      assert s[p] == s[p..e][0];
      assert KanjiDigit(s, p) == Some((2, p + 1));
    }
    NoKanjiNumberAtNonNumeral(s, e);
    assert KanjiTail(s, p + j - 1, j) == Some((n, e));
  }

  /** 百 at q, then a number below one hundred that keeps the total in a byte: the
    * tail makes x hundreds and that number. */
  lemma HundredsTail(s: string, q: nat, x: U8, d: nat, e: nat)
    requires q < |s| && s[q] == '百' && 1 <= x <= 9
    requires KanjiNumber(s, q + 1) == Some((d, e)) && d < 100 && x * 100 + d <= 255
    ensures KanjiTail(s, q, x) == Some((x * 100 + d, e))
  {
  }

  /** The hundreds mark before a reading of the rest makes the whole number. */
  lemma HundredsOfParts(s: string, p: nat, n: nat, j: nat, e: nat)
    requires 100 < n <= 255 && n != 200 && j == (if n < 200 then 1 else 2)
    requires p + j <= |s| && s[p + j - 1] == '百' && (j == 2 ==> s[p] == '二')
    requires KanjiNumber(s, p + j) == Some((n - 100 * j, e))
    ensures KanjiNumber(s, p) == Some((n, e))
  {
    HundredsTail(s, p + j - 1, j, n - 100 * j, e);
    if j == 1 {
      NumberOfTail(s, p, (n, e));
    } else {
      NumberOfDigitTail(s, p, 2, (n, e));
    }
  }
}
