/** SEB-JSON strings: quotes and control characters are escaped, backslashes are not. */
module JsonText {
  import opened Numerals
  import opened Strings

  function EncodeChar(c: char): string {
    if c == '"' then "\\\""
    else if c == '\n' then "\\n"
    else if c == '\r' then "\\r"
    else if c == '\t' then "\\t"
    else if c < ' ' then ['\\', 'u', '0', '0', HexDigit(c as int / 16), HexDigit(c as int % 16)]
    else [c]
  }

  function Encode(s: string): string {
    if s == "" then "" else EncodeChar(s[0]) + Encode(s[1..])
  }

  /** The text between the quotes is built character by character. */
  method WriteStr(s: string, out: string) returns (out': string)
    ensures out' == out + Quoted(s)
  {
    out' := out + ['"'];
    for i := 0 to |s|
      invariant out' + Encode(s[i..]) == out + ['"'] + Encode(s)
    {
      var c := s[i];
      assert s[i..][1..] == s[i + 1..];
      ghost var before := out';
      if c == '"' {
        out' := out' + "\\\"";
      } else if c == '\n' {
        out' := out' + "\\n";
      } else if c == '\r' {
        out' := out' + "\\r";
      } else if c == '\t' {
        out' := out' + "\\t";
      } else if c < ' ' {
        out' := out' + ['\\', 'u', '0', '0', HexDigit(c as int / 16), HexDigit(c as int % 16)];
      } else {
        out' := out' + [c];
      }
      assert out' == before + EncodeChar(c);
      ConcatThree(before, EncodeChar(c), Encode(s[i + 1..]));
    }
    ConcatThree(out, ['"'] + Encode(s), ['"']);
    ConcatThree(out, ['"'], Encode(s));
    out' := out' + ['"'];
  }

  function Quoted(s: string): string {
    ['"'] + Encode(s) + ['"']
  }

  // ----- reading it back ----------------------------------------------------------

  /** The control character printed as `\u00hh` with these two digits, if there is one. */
  function ControlChar(hi: char, lo: char): (r: Option<char>)
    ensures r.Some? ==> r.value < ' ' && EncodeChar(r.value) == ['\\', 'u', '0', '0', hi, lo]
  {
    if (hi == '0' || hi == '1') && ('0' <= lo <= '9' || 'a' <= lo <= 'f') then
      var low := if lo <= '9' then lo as int - '0' as int else lo as int - 'a' as int + 10;
      var code := (hi as int - '0' as int) * 16 + low;
      if code in {9, 10, 13} then None
      else
        assert HexDigit(code / 16) == hi && HexDigit(code % 16) == lo;
        Some(code as char)
    else None
  }

  /** The control-character escape s starts with, and its length. */
  function HeadEscape(s: string): (r: Option<(char, nat)>)
    ensures r.Some? ==> 2 <= r.value.1 <= |s| && s[0] == '\\' && EncodeChar(r.value.0) == s[..r.value.1]
    ensures r.Some? ==> r.value.0 < ' '
  {
    if |s| < 2 || s[0] != '\\' then None
    else if s[1] == 'n' then assert s[..2] == "\\n"; Some(('\n', 2))
    else if s[1] == 'r' then assert s[..2] == "\\r"; Some(('\r', 2))
    else if s[1] == 't' then assert s[..2] == "\\t"; Some(('\t', 2))
    else if |s| >= 6 && s[1] == 'u' && s[2] == '0' && s[3] == '0' && ControlChar(s[4], s[5]).Some? then
      assert s[..6] == ['\\', 'u', '0', '0', s[4], s[5]];
      Some((ControlChar(s[4], s[5]).value, 6))
    else None
  }

  predicate StartsWithQuote(t: string) {
    |t| >= 2 && t[0] == '\\' && t[1] == '"'
  }

  /** What a reader takes an escaped text for. */
  function Decode(t: string): string {
    if t == "" then ""
    else if StartsWithQuote(t) then ['"'] + Decode(t[2..])
    else match HeadEscape(t)
         case Some((c, n)) => [c] + Decode(t[n..])
         case None => [t[0]] + Decode(t[1..])
  }

  /** s with every raw backslash sequence that looks like a control escape replaced by the character. */
  function Unescape(s: string): string {
    if s == "" then ""
    else match HeadEscape(s)
         case Some((c, n)) => [c] + Unescape(s[n..])
         case None => [s[0]] + Unescape(s[1..])
  }

  /** No raw backslash starts something that reads as a control escape. */
  predicate IsClear(s: string) {
    forall i | 0 <= i < |s| :: HeadEscape(s[i..]).None?
  }

  /** The first n characters are printed as they are. */
  predicate PlainPrefix(s: string, n: nat) {
    n <= |s| && forall i | 0 <= i < n :: EncodeChar(s[i]) == [s[i]]
  }

  lemma {:induction false} PlainPrefixKept(s: string, n: nat)
    requires PlainPrefix(s, n)
    ensures Encode(s) == s[..n] + Encode(s[n..])
  {
    if n == 0 {
      assert s[..0] + Encode(s[0..]) == Encode(s) by { assert s[0..] == s; }
    } else {
      var rest := s[1..];
      PlainPrefixKept(rest, n - 1);
      assert rest[n - 1..] == s[n..];
      assert [s[0]] + rest[..n - 1] == s[..n];
      ConcatThree([s[0]], rest[..n - 1], Encode(s[n..]));
    }
  }

  lemma {:induction false} NoBackslashIsPlain(s: string, n: nat)
    requires n <= |Encode(s)| && forall i | 0 <= i < n :: Encode(s)[i] != '\\'
    ensures PlainPrefix(s, n)
  {
    if n == 0 {
    } else {
      assert Encode(s)[0] == EncodeChar(s[0])[0];
      assert EncodeChar(s[0]) == [s[0]];
      var rest := s[1..];
      assert forall i | 0 <= i < n - 1 :: Encode(rest)[i] == Encode(s)[i + 1];
      NoBackslashIsPlain(rest, n - 1);
      assert forall i | 0 < i < n :: s[i] == rest[i - 1];
    }
  }

  lemma EscapeShape(c: char)
    requires c < ' '
    ensures var e := EncodeChar(c);
            && |e| >= 2 && e[0] == '\\' && e[1] != '"'
            && PlainPrefix(e, |e|)
            && forall i | 0 < i < |e| :: e[i] != '\\'
  {
    HexDigitIsPlain(c as int / 16);
    HexDigitIsPlain(c as int % 16);
    assert forall d :: d >= '0' && d != '\\' ==> EncodeChar(d) == [d];
  }

  lemma HexDigitIsPlain(n: int)
    requires 0 <= n < 16
    ensures '0' <= HexDigit(n) && HexDigit(n) != '\\'
  {
  }

  lemma ControlCharOf(c: char)
    requires c < ' ' && c != '\n' && c != '\r' && c != '\t'
    ensures ControlChar(HexDigit(c as int / 16), HexDigit(c as int % 16)) == Some(c)
  {
    var lo := c as int % 16;
    assert HexDigit(c as int / 16) == if c as int / 16 == 0 then '0' else '1';
  }

  lemma HeadEscapeOf(c: char, rest: string)
    requires c < ' '
    ensures HeadEscape(EncodeChar(c) + rest) == Some((c, |EncodeChar(c)|))
  {
    var t := EncodeChar(c) + rest;
    if c != '\n' && c != '\r' && c != '\t' {
      ControlCharOf(c);
      assert t[4] == HexDigit(c as int / 16) && t[5] == HexDigit(c as int % 16);
    }
  }

  /** A raw backslash reads as an escape in the printed text exactly when it does in the string. */
  lemma BackslashReads(s: string)
    requires s != "" && s[0] == '\\'
    ensures HeadEscape(Encode(s)) == HeadEscape(s)
    ensures HeadEscape(s).Some? ==> Encode(s)[HeadEscape(s).value.1..] == Encode(s[HeadEscape(s).value.1..])
  {
    var t := Encode(s);
    match HeadEscape(s)
    case Some((c, n)) =>
      EscapeShape(c);
      assert PlainPrefix(s, n) by { assert forall i | 0 <= i < n :: s[i] == s[..n][i]; }
      PlainPrefixKept(s, n);
      HeadEscapeOf(c, Encode(s[n..]));
      CutConcat(s[..n], Encode(s[n..]));
    case None =>
      match HeadEscape(t) {
        case None =>
        case Some((c, n)) =>
          NoNewEscape(s, c, n);
      }
  }

  lemma EscapeHasOneBackslash(t: string, c: char, n: nat)
    requires HeadEscape(t) == Some((c, n))
    ensures forall i | 0 < i < n :: t[i] != '\\'
  {
    EscapeShape(c);
    assert forall i | 0 < i < n :: t[i] == t[..n][i];
  }

  lemma EscapeIsPlain(s: string, n: nat)
    requires s != "" && s[0] == '\\' && 0 < n <= |Encode(s)|
    requires forall i | 0 < i < n :: Encode(s)[i] != '\\'
    ensures PlainPrefix(s, n)
  {
    var rest := s[1..];
    assert forall i | 0 <= i < n - 1 :: Encode(rest)[i] == Encode(s)[i + 1];
    NoBackslashIsPlain(rest, n - 1);
    assert forall i | 0 < i < n :: s[i] == rest[i - 1];
  }

  lemma NoNewEscape(s: string, c: char, n: nat)
    requires s != "" && s[0] == '\\' && HeadEscape(Encode(s)) == Some((c, n))
    ensures HeadEscape(s).Some?
  {
    EscapeHasOneBackslash(Encode(s), c, n);
    EscapeIsPlain(s, n);
    PlainPrefixKept(s, n);
    CutConcat(s[..n], Encode(s[n..]));
    CutAt(s, n);
    HeadEscapeOf(c, s[n..]);
  }

  /** A printed backslash is not followed by a quote. */
  lemma BackslashNoQuote(s: string)
    requires s != "" && s[0] == '\\'
    ensures !StartsWithQuote(Encode(s))
  {
    var t := Encode(s);
    assert t == ['\\'] + Encode(s[1..]);
    if |s| > 1 {
      assert t[1] == EncodeChar(s[1])[0];
    }
  }

  /** Reading a printed string gives the string with its look-alike sequences replaced. */
  lemma {:induction false} DecodeEncode(s: string)
    ensures Decode(Encode(s)) == Unescape(s)
    decreases |s|
  {
    if s == "" {
    } else {
      if s[0] == '\\' {
        BackslashReads(s);
        BackslashNoQuote(s);
        match HeadEscape(s)
        case Some((c, n)) =>
          DecodeEncode(s[n..]);
        case None =>
          assert Encode(s)[1..] == Encode(s[1..]);
          DecodeEncode(s[1..]);
      } else {
        DecodeEncode(s[1..]);
        DecodeHead(s[0], Encode(s[1..]));
      }
    }
  }

  lemma DecodeHead(c: char, rest: string)
    requires c != '\\'
    ensures Decode(EncodeChar(c) + rest) == [c] + Decode(rest)
  {
    var t := EncodeChar(c) + rest;
    CutConcat(EncodeChar(c), rest);
    if c == '"' {
      assert StartsWithQuote(t);
    } else if c < ' ' {
      EscapeShape(c);
      HeadEscapeOf(c, rest);
      } else {
      assert t[0] == c;
    }
  }

  /** Replacing the look-alike sequences does not change what is printed. */
  lemma {:induction false} EncodeUnescape(s: string)
    ensures Encode(Unescape(s)) == Encode(s)
    decreases |s|
  {
    if s == "" {
    } else {
      match HeadEscape(s)
      case Some((c, n)) =>
        EncodeUnescape(s[n..]);
        EscapeShape(c);
        assert PlainPrefix(s, n) by { assert forall i | 0 <= i < n :: s[i] == s[..n][i]; }
        PlainPrefixKept(s, n);
        assert Unescape(s) == [c] + Unescape(s[n..]);
        assert Unescape(s)[1..] == Unescape(s[n..]);
      case None =>
        EncodeUnescape(s[1..]);
        assert Unescape(s) == [s[0]] + Unescape(s[1..]);
        assert Unescape(s)[1..] == Unescape(s[1..]);
    }
  }

  /** Two strings are printed alike exactly when they read alike. */
  lemma EncodeCollision(s: string, t: string)
    ensures Encode(s) == Encode(t) <==> Unescape(s) == Unescape(t)
  {
    DecodeEncode(s);
    DecodeEncode(t);
    EncodeUnescape(s);
    EncodeUnescape(t);
  }

  /** The strings that are read back as they are. */
  lemma {:induction false} ClearIffKept(s: string)
    ensures |Unescape(s)| <= |s|
    ensures IsClear(s) <==> Unescape(s) == s
    decreases |s|
  {
    if s == "" {
    } else {
      match HeadEscape(s)
      case Some((c, n)) =>
        ClearIffKept(s[n..]);
        ClearTail(s);
      case None =>
        ClearIffKept(s[1..]);
        ClearTail(s);
        HeadKept(s, Unescape(s[1..]));
    }
  }

  lemma HeadKept(s: string, rest: string)
    requires s != ""
    ensures [s[0]] + rest == s <==> rest == s[1..]
  {
    CutConcat([s[0]], rest);
    CutAt(s, 1);
  }

  lemma ClearTail(s: string)
    requires s != ""
    ensures IsClear(s) <==> HeadEscape(s).None? && IsClear(s[1..])
  {
    assert s[0..] == s;
    assert forall i | 0 < i < |s| :: s[i..] == s[1..][i - 1..];
    assert forall i | 0 <= i < |s| - 1 :: s[1..][i..] == s[i + 1..];
  }
}
