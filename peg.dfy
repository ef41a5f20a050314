/** The parsing-expression-grammar machinery the command grammars are written in,
  * following the `peg` crate: ordered choice that commits to the first alternative
  * that matches, and error reporting at the furthest position where a terminal that
  * was not inside `quiet!` failed to match. */
module Peg {
  import opened Wrappers
  import opened Numeric

  /** The outcome of a rule at some position: the value and the position after it, if
    * the rule matched, and the furthest failure it recorded (0 when none). */
  datatype Parsed<T> = Parsed(result: Option<(T, nat)>, far: nat)
  {
    predicate Ok() { result.Some? }

    function Value(): T
      requires Ok()
    {
      result.value.0
    }

    function Next(): nat
      requires Ok()
    {
      result.value.1
    }
  }

  function Fail<T>(far: nat): Parsed<T>
  {
    Parsed(None, far)
  }

  function Match<T>(v: T, next: nat, far: nat): Parsed<T>
  {
    Parsed(Some((v, next)), far)
  }

  /** A rule applied at `p` within an input of length `n` stays in bounds. */
  predicate Within<T>(r: Parsed<T>, p: nat, n: nat)
  {
    r.far <= n && (r.Ok() ==> p <= r.Next() <= n)
  }

  function Max(a: nat, b: nat): nat
  {
    if a < b then b else a
  }

  /** The literal `w` occurs in `s` at `p`. */
  predicate MatchAt(s: string, p: nat, w: string)
  {
    p + |w| <= |s| && s[p..p + |w|] == w
  }

  lemma {:induction false} MatchAtChars(s: string, p: nat, w: string)
    requires p + |w| <= |s|
    requires forall i :: 0 <= i < |w| ==> s[p + i] == w[i]
    ensures MatchAt(s, p, w)
  {
    assert s[p..p + |w|] == w;
  }

  lemma NoMatchAtChar(s: string, p: nat, w: string, i: nat)
    requires i < |w| && (p + i >= |s| || s[p + i] != w[i])
    ensures !MatchAt(s, p, w)
  {
    assert p + |w| <= |s| ==> s[p..p + |w|][i] == s[p + i];
  }

  /** `[' ']*` inside `quiet!`: skips spaces and never records a failure. */
  function Ws(s: string, p: nat): (q: nat)
    requires p <= |s|
    ensures p <= q <= |s|
    ensures q < |s| ==> s[q] != ' '
    ensures forall i :: p <= i < q ==> s[i] == ' '
    decreases |s| - p
  {
    if p < |s| && s[p] == ' ' then Ws(s, p + 1) else p
  }

  lemma WsAtNonSpace(s: string, p: nat)
    requires p <= |s| && (p == |s| || s[p] != ' ')
    ensures Ws(s, p) == p
  {
  }

  /** The index of the first of `words` that occurs at `p`. */
  function FirstWord(s: string, p: nat, words: seq<string>): (r: Option<nat>)
    ensures r.Some? ==> r.value < |words| && MatchAt(s, p, words[r.value])
    ensures r.Some? ==> forall j :: 0 <= j < r.value ==> !MatchAt(s, p, words[j])
    ensures r.None? ==> forall j :: 0 <= j < |words| ==> !MatchAt(s, p, words[j])
  {
    if words == [] then None
    else if MatchAt(s, p, words[0]) then Some(0)
    else
      match FirstWord(s, p, words[1..])
      case Some(i) => Some(i + 1)
      case None => None
  }

  /** An ordered choice of literals outside `quiet!`: each literal that fails records a
    * failure at `p`. The value is the index of the literal that matched. */
  function Literals(s: string, p: nat, words: seq<string>): (r: Parsed<nat>)
    requires p <= |s|
    requires |words| > 0
    ensures Within(r, p, |s|)
    ensures r.Ok() ==> r.Value() < |words| && r.Next() == p + |words[r.Value()]|
  {
    match FirstWord(s, p, words)
    case Some(i) => Match(i, p + |words[i]|, if i == 0 then 0 else p)
    case None => Fail(p)
  }

  /** The same choice inside `quiet!`, followed by `expected!`: only the failure of the
    * whole choice is recorded. */
  function QuietLiterals(s: string, p: nat, words: seq<string>): (r: Parsed<nat>)
    requires p <= |s|
    ensures Within(r, p, |s|)
    ensures r.Ok() ==> r.Value() < |words| && r.Next() == p + |words[r.Value()]| && r.far == 0
  {
    match FirstWord(s, p, words)
    case Some(i) => Match(i, p + |words[i]|, 0)
    case None => Fail(p)
  }

  /** A single literal outside `quiet!`. */
  function Literal(s: string, p: nat, w: string): (r: Parsed<()>)
    requires p <= |s|
    ensures Within(r, p, |s|)
    ensures r.Ok() <==> MatchAt(s, p, w)
    ensures r.Ok() ==> r.Next() == p + |w| && r.far == 0
    ensures !r.Ok() ==> r.far == p
  {
    if MatchAt(s, p, w) then Match((), p + |w|, 0) else Fail(p)
  }

  /** `c+` for a character class outside `quiet!`: the end of the run; the attempt that
    * ends it records a failure there. */
  function ClassRunEnd(s: string, p: nat, inClass: char -> bool): (e: nat)
    requires p <= |s|
    ensures p <= e <= |s|
    ensures forall i :: p <= i < e ==> inClass(s[i])
    ensures e < |s| ==> !inClass(s[e])
    decreases |s| - p
  {
    if p < |s| && inClass(s[p]) then ClassRunEnd(s, p + 1, inClass) else p
  }

  /** Ordered choice `a / b`: the first alternative that matches wins, and the failures
    * recorded by every alternative that was tried are kept. */
  function Or<T>(a: Parsed<T>, b: Parsed<T>): (r: Parsed<T>)
    ensures r.Ok() <==> a.Ok() || b.Ok()
    ensures a.Ok() ==> r == a
    ensures !a.Ok() ==> r.result == b.result && r.far == Max(a.far, b.far)
  {
    if a.Ok() then a else Parsed(b.result, Max(a.far, b.far))
  }

  /** Choosing between two rules applied at `p` stays in bounds when both do. */
  lemma OrWithin<T>(a: Parsed<T>, b: Parsed<T>, p: nat, n: nat)
    requires Within(a, p, n) && Within(b, p, n)
    ensures Within(Or(a, b), p, n)
  {
  }

  /** A rule run after parts that recorded failures up to `far`. */
  function Then<T>(far: nat, r: Parsed<T>): (r': Parsed<T>)
    ensures r'.result == r.result && r'.far == Max(far, r.far)
  {
    Parsed(r.result, Max(far, r.far))
  }
}
