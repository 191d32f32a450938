/** The string operations the program uses, on sequences of code points. */
module Strings {

  datatype Option<+T> = None | Some(value: T) {
    function UnwrapOr(default: T): T {
      if Some? then value else default
    }
  }

  datatype Result<+T, +E> = Ok(value: T) | Err(error: E)

  predicate StartsWith(s: string, p: string) {
    |p| <= |s| && s[..|p|] == p
  }

  predicate EndsWith(s: string, p: string) {
    |p| <= |s| && s[|s| - |p|..] == p
  }

  predicate Contains(s: string, p: string) {
    StartsWith(s, p) || (s != "" && Contains(s[1..], p))
  }

  /** Unicode White_Space. */
  predicate IsSpace(c: char) {
    || '\t' <= c <= '\r' || c == ' '
    || c in {'\U{85}', '\U{A0}', '\U{1680}', '\U{2028}', '\U{2029}', '\U{202F}', '\U{205F}', '\U{3000}'}
    || '\U{2000}' <= c <= '\U{200A}'
  }

  function TrimStart(s: string): (r: string)
    ensures |r| <= |s| && r == s[|s| - |r|..]
    ensures r != "" ==> !IsSpace(r[0])
    ensures forall i | 0 <= i < |s| - |r| :: IsSpace(s[i])
  {
    if s != "" && IsSpace(s[0]) then TrimStart(s[1..]) else s
  }

  function TrimEnd(s: string): (r: string)
    ensures |r| <= |s| && r == s[..|r|]
    ensures r != "" ==> !IsSpace(r[|r| - 1])
    ensures |r| < |s| ==> IsSpace(s[|s| - 1])
  {
    if s != "" && IsSpace(s[|s| - 1]) then TrimEnd(s[..|s| - 1]) else s
  }

  function Trim(s: string): (r: string)
    ensures |r| <= |s|
  {
    TrimEnd(TrimStart(s))
  }

  /** The longest prefix without a character of `stop`. */
  function Until(s: string, stop: set<char>): (r: string)
    ensures |r| <= |s| && r == s[..|r|]
    ensures forall c | c in r :: c !in stop
    ensures |r| < |s| ==> s[|r|] in stop
  {
    if s == "" || s[0] in stop then "" else [s[0]] + Until(s[1..], stop)
  }

  function LowerChar(c: char): char {
    if 'A' <= c <= 'Z' then c - 'A' + 'a' else c
  }

  function LowerAscii(s: string): (r: string)
    ensures |r| == |s|
    ensures forall i | 0 <= i < |s| :: r[i] == LowerChar(s[i])
  {
    seq(|s|, i requires 0 <= i < |s| => LowerChar(s[i]))
  }

  function Utf8Width(c: char): nat {
    if c < '\U{80}' then 1 else if c < '\U{800}' then 2 else if c < '\U{10000}' then 3 else 4
  }

  function Utf8Length(s: string): nat {
    if s == "" then 0 else Utf8Width(s[0]) + Utf8Length(s[1..])
  }

  predicate IsDigit(c: char) {
    '0' <= c <= '9'
  }

  predicate IsDigits(s: string) {
    forall i | 0 <= i < |s| :: IsDigit(s[i])
  }

  lemma UntilUnique(s: string, stop: set<char>, n: nat)
    requires n <= |s|
    requires forall i | 0 <= i < n :: s[i] !in stop
    requires n < |s| ==> s[n] in stop
    ensures Until(s, stop) == s[..n]
  {
    var r := Until(s, stop);
    assert forall i | 0 <= i < |r| :: r[i] in r && s[i] !in stop;
  }

  lemma {:induction false} ContainsFirst(s: string, p: string)
    requires Contains(s, p) && p != ""
    ensures p[0] in s
  {
    if StartsWith(s, p) {
      assert s[0] == s[..|p|][0];
    } else {
      ContainsFirst(s[1..], p);
    }
  }

  /** The pieces between the separators, as `str::split` yields them. */
  function Split(s: string, separators: set<char>): (r: seq<string>)
    ensures |r| > 0
  {
    var piece := Until(s, separators);
    if |piece| == |s| then [piece] else [piece] + Split(s[|piece| + 1..], separators)
  }

  lemma ConcatFour(a: string, b: string, c: string, d: string)
    ensures a + (b + (c + d)) == a + b + c + d
  {
  }

  lemma CutAt(s: string, n: nat)
    requires n <= |s|
    ensures s[..n] + s[n..] == s
  {
  }

  lemma CutConcat(a: string, b: string)
    ensures (a + b)[..|a|] == a && (a + b)[|a|..] == b
  {
  }

  lemma ConcatThree(a: string, b: string, c: string)
    ensures a + (b + c) == a + b + c
  {
  }

  /** All different. */
  predicate NoneTwice(xs: seq<string>) {
    forall i, j | 0 <= i < j < |xs| :: xs[i] != xs[j]
  }
}
