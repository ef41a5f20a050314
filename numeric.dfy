/** Fixed-width unsigned integers and their decimal text, written the way
  * Rust's `Display` prints them and `str::parse` reads them. */
module Numeric {
  import opened Wrappers

  type U8 = x: int | 0 <= x < 0x100
  type U32 = x: int | 0 <= x < 0x1_0000_0000
  type U64 = x: int | 0 <= x < 0x1_0000_0000_0000_0000

  predicate IsDigit(c: char) { '0' <= c <= '9' }

  predicate AllDigits(s: string) { forall i :: 0 <= i < |s| ==> IsDigit(s[i]) }

  function DigitValue(c: char): (d: nat)
    requires IsDigit(c)
    ensures d < 10
  { c as int - '0' as int }

  function DigitChar(d: nat): (c: char)
    requires d < 10
    ensures IsDigit(c) && DigitValue(c) == d
  { ('0' as int + d) as char }

  /** The value of a run of ASCII digits, most significant digit first. */
  function DecimalValue(s: string): nat
    requires AllDigits(s)
  {
    if s == [] then 0 else DecimalValue(s[..|s| - 1]) * 10 + DigitValue(s[|s| - 1])
  }

  /** Rust's `Display` of an unsigned integer: no sign, no leading zero. */
  function NatToString(n: nat): (r: string)
    ensures 1 <= |r| && AllDigits(r)
    ensures DecimalValue(r) == n
    ensures (r[0] == '0') <==> n == 0
    ensures n < 10 ==> |r| == 1
    ensures 10 <= n < 100 ==> |r| == 2
    ensures 100 <= n < 1000 ==> |r| == 3
  {
    if n < 10 then [DigitChar(n)]
    else
      var r := NatToString(n / 10) + [DigitChar(n % 10)];
      assert r[..|r| - 1] == NatToString(n / 10);
      r
  }

  /** Rust's `Display` of a signed integer. */
  function IntToString(i: int): (r: string)
    ensures 1 <= |r|
    ensures (r[0] == '-') <==> i < 0
    ensures forall k :: 0 < k < |r| ==> IsDigit(r[k])
  {
    if i < 0 then "-" + NatToString(-i) else NatToString(i)
  }

  /** Rust's `u32::from_str`: an optional `+`, then at least one ASCII digit,
    * with a value that fits in 32 bits. */
  function ParseU32(s: string): (r: Option<U32>)
    ensures r.Some? ==> |s| > 0 && (s[0] == '+' || IsDigit(s[0]))
  {
    var digits := if |s| > 0 && s[0] == '+' then s[1..] else s;
    if |digits| > 0 && AllDigits(digits) && DecimalValue(digits) < 0x1_0000_0000
    then Some(DecimalValue(digits))
    else None
  }

  lemma ParseU32OfDisplay(n: U32)
    ensures ParseU32(NatToString(n)) == Some(n)
  {
    var s := NatToString(n);
    assert s[0] != '+';
  }

  /** Rust's `/` on integers: truncation toward zero. */
  function TruncDiv(a: int, b: int): (q: int)
    requires b > 0
    ensures a >= 0 ==> q == a / b
    ensures a < 0 ==> q == -((-a) / b)
  {
    if a >= 0 then a / b else -((-a) / b)
  }

  /** Rust's `%` on integers: the remainder takes the sign of the dividend. */
  function TruncRem(a: int, b: int): (r: int)
    requires b > 0
    ensures a == TruncDiv(a, b) * b + r
    ensures a >= 0 ==> 0 <= r < b
    ensures a < 0 ==> -b < r <= 0
  {
    a - TruncDiv(a, b) * b
  }

  /** The end of the run of at most `max` ASCII digits that starts at `p`. */
  function DigitRunEnd(s: string, p: nat, max: nat): (e: nat)
    requires p <= |s|
    ensures p <= e <= |s| && e - p <= max
    ensures AllDigits(s[p..e])
    ensures e - p < max && e < |s| ==> !IsDigit(s[e])
    decreases max
  {
    if max == 0 || p == |s| || !IsDigit(s[p]) then p
    else
      var e := DigitRunEnd(s, p + 1, max - 1);
      assert s[p..e] == [s[p]] + s[p + 1..e];
      e
  }

  /** A run of `k` digits that is not followed by another digit (or is `max` long)
    * is exactly the run `DigitRunEnd` finds. */
  lemma {:induction false} DigitRunEndOfRun(s: string, p: nat, k: nat, max: nat)
    requires p + k <= |s| && k <= max
    requires AllDigits(s[p..p + k])
    requires k == max || p + k == |s| || !IsDigit(s[p + k])
    ensures DigitRunEnd(s, p, max) == p + k
    decreases k
  {
    if k > 0 {
      assert IsDigit(s[p..p + k][0]);
      assert s[p + 1..p + k] == s[p..p + k][1..];
      DigitRunEndOfRun(s, p + 1, k - 1, max - 1);
    }
  }

  /** The displayed form of `n`, followed by a non-digit, is read back as `n`. */
  lemma DigitRunOfDisplay(s: string, p: nat, n: nat, max: nat)
    requires p + |NatToString(n)| <= |s| && s[p..p + |NatToString(n)|] == NatToString(n)
    requires |NatToString(n)| <= max
    requires p + |NatToString(n)| == |s| || !IsDigit(s[p + |NatToString(n)|])
    ensures DigitRunEnd(s, p, max) == p + |NatToString(n)|
    ensures DecimalValue(s[p..p + |NatToString(n)|]) == n
  {
    DigitRunEndOfRun(s, p, |NatToString(n)|, max);
  }
}
