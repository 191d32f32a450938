/** The regular expressions written for allowed domains, and the URLs they let through. */
module UrlRule {
  import opened Strings
  import opened Seb

  // ----- regular expressions -------------------------------------------------------

  datatype CharClass = OneOf(chars: string) | NoneOf(chars: string) | Range(lo: char, hi: char) | AnyButNewline

  datatype Regex =
    | Text(text: string)
    | In(cls: CharClass)
    | Then(first: Regex, second: Regex)
    | Either(left: Regex, right: Regex)
    | Group(body: Regex)
    | Optional(body: Regex)
    | Repeat(body: Regex)
    | RepeatOnce(body: Regex)

  predicate InClass(cls: CharClass, c: char) {
    match cls
    case OneOf(chars) => c in chars
    case NoneOf(chars) => c !in chars
    case Range(lo, hi) => lo <= c <= hi
    case AnyButNewline => c != '\n'
  }

  /** The whole of s matches. */
  predicate Matches(re: Regex, s: string)
    decreases re, |s|
  {
    match re
    case Text(text) => s == text
    case In(cls) => |s| == 1 && InClass(cls, s[0])
    case Then(a, b) => exists i | 0 <= i <= |s| :: Matches(a, s[..i]) && Matches(b, s[i..])
    case Either(a, b) => Matches(a, s) || Matches(b, s)
    case Group(a) => Matches(a, s)
    case Optional(a) => s == "" || Matches(a, s)
    case Repeat(a) => s == "" || exists i | 0 < i <= |s| :: Matches(a, s[..i]) && Matches(re, s[i..])
    case RepeatOnce(a) => Matches(a, s) || exists i | 0 < i < |s| :: Matches(a, s[..i]) && Matches(re, s[i..])
  }

  predicate IsMeta(c: char) {
    || c == '\\' || c == '.' || c == '+' || c == '*' || c == '?' || c == '(' || c == ')'
    || c == '|' || c == '[' || c == ']' || c == '{' || c == '}' || c == '^' || c == '$'
  }

  function Escape(text: string): string {
    if text == "" then ""
    else (if IsMeta(text[0]) then ['\\', text[0]] else [text[0]]) + Escape(text[1..])
  }

  function ShowClass(cls: CharClass): string {
    match cls
    case OneOf(chars) => "[" + chars + "]"
    case NoneOf(chars) => "[^" + chars + "]"
    case Range(lo, hi) => "[" + [lo] + "-" + [hi] + "]"
    case AnyButNewline => "."
  }

  /** Regex syntax. Operands of `?`, `*` and `+` must be a character, a class or a group. */
  function Show(re: Regex): string {
    match re
    case Text(text) => Escape(text)
    case In(cls) => ShowClass(cls)
    case Then(a, b) => Show(a) + Show(b)
    case Either(a, b) => Show(a) + "|" + Show(b)
    case Group(a) => "(" + Show(a) + ")"
    case Optional(a) => Show(a) + "?"
    case Repeat(a) => Show(a) + "*"
    case RepeatOnce(a) => Show(a) + "+"
  }

  predicate IsUnit(re: Regex) {
    (re.Text? && |re.text| == 1) || re.In? || re.Group?
  }

  /** Characters without a meaning inside brackets. */
  predicate PlainInClass(c: char) {
    c != ']' && c != '[' && c != '-' && c != '^' && c != '\\' && c != '&' && c != '~'
  }

  predicate PlainSet(chars: string) {
    chars != "" && forall i | 0 <= i < |chars| :: PlainInClass(chars[i])
  }

  predicate ClassReadsBack(cls: CharClass) {
    match cls
    case OneOf(chars) => PlainSet(chars)
    case NoneOf(chars) => PlainSet(chars)
    case Range(lo, hi) => PlainInClass(lo) && PlainInClass(hi)
    case AnyButNewline => true
  }

  /** The printed form groups the way the expression does: alternatives stand in a group, operands of
      postfix operators are units, and brackets list plain characters. */
  predicate ReadsBack(re: Regex) {
    match re
    case Text(_) => true
    case In(cls) => ClassReadsBack(cls)
    case Then(a, b) => ReadsBack(a) && ReadsBack(b) && !a.Either? && !b.Either?
    case Either(a, b) => ReadsBack(a) && ReadsBack(b)
    case Group(a) => ReadsBack(a)
    case Optional(a) => ReadsBack(a) && IsUnit(a)
    case Repeat(a) => ReadsBack(a) && IsUnit(a)
    case RepeatOnce(a) => ReadsBack(a) && IsUnit(a)
  }

  // ----- the rule for a domain --------------------------------------------------------

  function EscapeDots(domain: string): string {
    if domain == "" then ""
    else (if domain[0] == '.' then "\\." else [domain[0]]) + EscapeDots(domain[1..])
  }

  function DomainRule(domain: string): string {
    "^(https?|wss?)://([^/?#@]*\\.)?" + EscapeDots(domain) + "(:[0-9]+)?([/?#].*)?$"
  }

  const SCHEME := Group(Either(Then(Text("http"), Optional(Text("s"))), Then(Text("ws"), Optional(Text("s")))))
  const SUBDOMAINS := Optional(Group(Then(Repeat(In(NoneOf("/?#@"))), Text("."))))
  const PORT := Optional(Group(Then(Text(":"), RepeatOnce(In(Range('0', '9'))))))
  const TAIL := Optional(Group(Then(In(OneOf("/?#")), Repeat(In(AnyButNewline)))))

  function RuleRegex(domain: string): Regex {
    Then(SCHEME, Then(Text("://"), Then(SUBDOMAINS, Then(Text(domain), Then(PORT, TAIL)))))
  }

  /** Case-insensitive matching compares simple case folds; two further characters fold to ASCII letters. */
  function FoldChar(c: char): char {
    if c == '\U{17F}' then 's' else if c == '\U{212A}' then 'k' else LowerChar(c)
  }

  function Fold(s: string): (r: string)
    ensures |r| == |s|
    ensures forall i | 0 <= i < |s| :: r[i] == FoldChar(s[i])
  {
    seq(|s|, i requires 0 <= i < |s| => FoldChar(s[i]))
  }

  /** The anchored rule for the domain matches the URL, ignoring case. */
  predicate RuleMatches(domain: string, url: string) {
    Matches(RuleRegex(domain), Fold(url))
  }

  lemma {:induction false} EscapeIsEscapeDots(d: string)
    requires forall i | 0 <= i < |d| :: DomainChar(d[i])
    ensures Escape(d) == EscapeDots(d)
  {
    if d == "" {
    } else {
      EscapeIsEscapeDots(d[1..]);
    }
  }

  lemma {:induction false} EscapePlain(text: string)
    requires forall i | 0 <= i < |text| :: !IsMeta(text[i])
    ensures Escape(text) == text
  {
    if text == "" {
    } else {
      EscapePlain(text[1..]);
    }
  }

  /** The text written for a domain is the anchored form of the expression studied here. */
  lemma RuleTextIsRegex(d: string)
    requires IsDomain(d)
    ensures DomainRule(d) == "^" + Show(RuleRegex(d)) + "$"
    ensures ReadsBack(RuleRegex(d))
  {
    DomainChars(d);
    EscapeIsEscapeDots(d);
    ShowScheme();
    EscapePlain("://");
    ShowSubdomains();
    ShowPort();
    ShowTail();
    ShowFive(SCHEME, Text("://"), SUBDOMAINS, Text(d), PORT, TAIL);
    RuleText(EscapeDots(d));
  }

  lemma ShowFive(a: Regex, b: Regex, c: Regex, d: Regex, e: Regex, f: Regex)
    requires ReadsBack(a) && ReadsBack(b) && ReadsBack(c) && ReadsBack(d) && ReadsBack(e) && ReadsBack(f)
    requires !a.Either? && !b.Either? && !c.Either? && !d.Either? && !e.Either? && !f.Either?
    ensures
      var re := Then(a, Then(b, Then(c, Then(d, Then(e, f)))));
      && Show(re) == Show(a) + (Show(b) + (Show(c) + (Show(d) + (Show(e) + Show(f)))))
      && ReadsBack(re)
  {
    ShowThen(e, f);
    ShowThen(d, Then(e, f));
    ShowThen(c, Then(d, Then(e, f)));
    ShowThen(b, Then(c, Then(d, Then(e, f))));
    ShowThen(a, Then(b, Then(c, Then(d, Then(e, f)))));
  }

  lemma ShowThen(a: Regex, b: Regex)
    requires ReadsBack(a) && ReadsBack(b) && !a.Either? && !b.Either?
    ensures Show(Then(a, b)) == Show(a) + Show(b) && ReadsBack(Then(a, b))
  {
  }

  lemma RuleText(escaped: string)
    ensures "^" + ("(https?|wss?)" + ("://" + ("([^/?#@]*\\.)?" + (escaped + ("(:[0-9]+)?" + "([/?#].*)?"))))) + "$"
         == "^(https?|wss?)://([^/?#@]*\\.)?" + escaped + "(:[0-9]+)?([/?#].*)?$"
  {
    assert "(:[0-9]+)?" + "([/?#].*)?" + "$" == "(:[0-9]+)?([/?#].*)?$";
    assert "^" + ("(https?|wss?)" + ("://" + "([^/?#@]*\\.)?")) == "^(https?|wss?)://([^/?#@]*\\.)?";
    Regroup("^", "(https?|wss?)", "://", "([^/?#@]*\\.)?", escaped, "(:[0-9]+)?" + "([/?#].*)?", "$");
  }

  lemma Regroup(a: string, b: string, c: string, d: string, e: string, f: string, g: string)
    ensures a + (b + (c + (d + (e + f)))) + g == (a + (b + (c + d))) + e + (f + g)
  {
  }

  lemma ShowWordS(word: string)
    requires forall i | 0 <= i < |word| :: !IsMeta(word[i])
    ensures Show(Then(Text(word), Optional(Text("s")))) == word + "s?"
    ensures ReadsBack(Then(Text(word), Optional(Text("s"))))
  {
    EscapePlain(word);
    EscapePlain("s");
    assert Show(Optional(Text("s"))) == "s" + "?";
  }

  lemma ShowScheme()
    ensures Show(SCHEME) == "(https?|wss?)" && ReadsBack(SCHEME)
  {
    ShowWordS("http");
    ShowWordS("ws");
    SchemeText();
  }

  lemma SchemeText()
    ensures "(" + (("http" + "s?") + "|" + ("ws" + "s?")) + ")" == "(https?|wss?)"
  {
  }

  lemma ShowSubdomains()
    ensures Show(SUBDOMAINS) == "([^/?#@]*\\.)?" && ReadsBack(SUBDOMAINS)
  {
    assert Escape(".") == "\\.";
    var many := Repeat(In(NoneOf("/?#@")));
    assert Show(many) == "[^/?#@]*";
    assert Show(Then(many, Text("."))) == "[^/?#@]*\\.";
    assert ReadsBack(Then(many, Text(".")));
  }

  lemma ShowPort()
    ensures Show(PORT) == "(:[0-9]+)?" && ReadsBack(PORT)
  {
    EscapePlain(":");
    var digits := RepeatOnce(In(Range('0', '9')));
    assert Show(digits) == "[0-9]+";
    assert Show(Then(Text(":"), digits)) == ":[0-9]+";
    assert ReadsBack(Then(Text(":"), digits));
  }

  lemma ShowTail()
    ensures Show(TAIL) == "([/?#].*)?" && ReadsBack(TAIL)
  {
    var any := Repeat(In(AnyButNewline));
    assert Show(any) == ".*";
    assert Show(Then(In(OneOf("/?#")), any)) == "[/?#].*";
    assert ReadsBack(Then(In(OneOf("/?#")), any));
  }

  // ----- the URLs a rule should let through ---------------------------------------------

  /** Host part of an authority (section 3.2 of RFC 3986): a final `:digits` is a port. */
  function HostOf(authority: string): string {
    match WithoutPort(authority)
    case Some(host) => host
    case None => authority
  }

  /** http, https, ws or wss; no user information; the host is the domain or lies under it. */
  predicate Allows(domain: string, url: string) {
    exists scheme | scheme in ["http", "https", "ws", "wss"] ::
      && StartsWith(url, scheme + "://")
      && AllowsRest(domain, url[|scheme| + 3..])
  }

  predicate AllowsRest(domain: string, rest: string) {
    var authority := Until(rest, AUTHORITY_END);
    && '@' !in authority
    && Covered(HostOf(authority), domain)
    && '\n' !in rest[|authority|..]
  }

  // ----- what the parts match -----------------------------------------------------------

  lemma {:induction false} RepeatClass(cls: CharClass, s: string)
    ensures Matches(Repeat(In(cls)), s) <==> forall i | 0 <= i < |s| :: InClass(cls, s[i])
    decreases |s|
  {
    if s == "" {
    } else {
      RepeatClass(cls, s[1..]);
      assert s[..1] == [s[0]];
      assert Matches(In(cls), s[..1]) <==> InClass(cls, s[0]);
      if i :| 0 < i <= |s| && Matches(In(cls), s[..i]) && Matches(Repeat(In(cls)), s[i..]) {
        assert i == 1;
      }
      assert forall i | 0 < i < |s| :: s[i] == s[1..][i - 1];
    }
  }

  lemma ThenJoins(a: Regex, b: Regex, x: string, y: string)
    requires Matches(a, x) && Matches(b, y)
    ensures Matches(Then(a, b), x + y)
  {
    var s := x + y;
    assert s[..|x|] == x && s[|x|..] == y;
  }

  lemma ThenSplits(a: Regex, b: Regex, s: string) returns (x: string, y: string)
    requires Matches(Then(a, b), s)
    ensures s == x + y && Matches(a, x) && Matches(b, y)
  {
    var i :| 0 <= i <= |s| && Matches(a, s[..i]) && Matches(b, s[i..]);
    x, y := s[..i], s[i..];
  }

  lemma OptionalS(word: string, s: string)
    ensures Matches(Then(Text(word), Optional(Text("s"))), s) <==> s == word || s == word + "s"
  {
    var re := Then(Text(word), Optional(Text("s")));
    if Matches(re, s) {
      var x, y := ThenSplits(Text(word), Optional(Text("s")), s);
    }
    ThenJoins(Text(word), Optional(Text("s")), word, "");
    ThenJoins(Text(word), Optional(Text("s")), word, "s");
    assert word + "" == word;
  }

  lemma SchemeMatches(s: string)
    ensures Matches(SCHEME, s) <==> s in ["http", "https", "ws", "wss"]
  {
    OptionalS("http", s);
    OptionalS("ws", s);
    assert "http" + "s" == "https" && "ws" + "s" == "wss";
  }

  lemma {:induction false} RepeatHostChars(s: string)
    ensures Matches(Repeat(In(NoneOf("/?#@"))), s) <==> IsHostText(s)
  {
    RepeatClass(NoneOf("/?#@"), s);
    assert forall c :: InClass(NoneOf("/?#@"), c) <==> IsHostChar(c);
  }

  /** An optional group matches nothing, or what it encloses. */
  lemma OptionalGroup(re: Regex, s: string)
    ensures Matches(Optional(Group(re)), s) <==> s == "" || Matches(re, s)
  {
  }

  predicate OneChar(re: Regex) {
    re.In? || (re.Text? && |re.text| == 1)
  }

  /** The first character matches the one, the rest the other. */
  lemma FirstThen(one: Regex, other: Regex, s: string)
    requires OneChar(one)
    ensures Matches(Then(one, other), s) <==> s != "" && Matches(one, s[..1]) && Matches(other, s[1..])
  {
    if Matches(Then(one, other), s) {
      var x, y := ThenSplits(one, other, s);
      assert x == s[..1] && y == s[1..];
    }
    if s != "" && Matches(one, s[..1]) && Matches(other, s[1..]) {
      CutAt(s, 1);
      ThenJoins(one, other, s[..1], s[1..]);
    }
  }

  /** The last character matches the one, what stands before it the other. */
  lemma ThenLast(other: Regex, one: Regex, s: string)
    requires OneChar(one)
    ensures Matches(Then(other, one), s)
       <==> s != "" && Matches(other, s[..|s| - 1]) && Matches(one, s[|s| - 1..])
  {
    if Matches(Then(other, one), s) {
      var x, y := ThenSplits(other, one, s);
      assert x == s[..|s| - 1] && y == s[|s| - 1..];
    }
    if s != "" && Matches(other, s[..|s| - 1]) && Matches(one, s[|s| - 1..]) {
      CutAt(s, |s| - 1);
      ThenJoins(other, one, s[..|s| - 1], s[|s| - 1..]);
    }
  }

  lemma SubdomainsMatch(s: string)
    ensures Matches(SUBDOMAINS, s) <==> IsSubdomainText(s)
  {
    var many := Repeat(In(NoneOf("/?#@")));
    OptionalGroup(Then(many, Text(".")), s);
    ThenLast(many, Text("."), s);
    if s != "" {
      RepeatHostChars(s[..|s| - 1]);
      HostTextButLast(s);
    }
  }

  lemma HostTextButLast(s: string)
    requires s != ""
    ensures s[|s| - 1] == '.' ==> (IsHostText(s) <==> IsHostText(s[..|s| - 1]))
    ensures s[|s| - 1] == '.' <==> s[|s| - 1..] == "."
  {
    var init := s[..|s| - 1];
    assert forall i | 0 <= i < |init| :: init[i] == s[i];
  }

  /** No character of s ends a host name. */
  predicate IsHostText(s: string) {
    forall i | 0 <= i < |s| :: IsHostChar(s[i])
  }

  predicate IsHostChar(c: char) {
    c != '/' && c != '?' && c != '#' && c != '@'
  }

  lemma PortMatches(s: string)
    ensures Matches(PORT, s) <==> s == "" || (s[0] == ':' && |s| > 1 && IsDigits(s[1..]))
  {
    var digits := RepeatOnce(In(Range('0', '9')));
    OptionalGroup(Then(Text(":"), digits), s);
    FirstThen(Text(":"), digits, s);
    if s != "" {
      RepeatDigits(s[1..]);
      assert s[..1] == ":" <==> s[0] == ':';
    }
  }

  lemma RepeatDigits(s: string)
    ensures Matches(RepeatOnce(In(Range('0', '9'))), s) <==> s != "" && IsDigits(s)
  {
    RepeatOnceClass(Range('0', '9'), s);
    assert forall i | 0 <= i < |s| :: InClass(Range('0', '9'), s[i]) <==> IsDigit(s[i]);
  }

  /** Two or more characters of a class are one and then more. */
  lemma RepeatOnceMore(cls: CharClass, s: string)
    requires |s| > 1
    ensures Matches(RepeatOnce(In(cls)), s) <==> InClass(cls, s[0]) && Matches(RepeatOnce(In(cls)), s[1..])
  {
    assert s[..1] == [s[0]];
    assert !Matches(In(cls), s);
    if Matches(RepeatOnce(In(cls)), s) {
      var i :| 0 < i < |s| && Matches(In(cls), s[..i]) && Matches(RepeatOnce(In(cls)), s[i..]);
      assert i == 1;
    }
    if InClass(cls, s[0]) && Matches(RepeatOnce(In(cls)), s[1..]) {
      assert Matches(In(cls), s[..1]);
    }
  }

  lemma {:induction false} RepeatOnceClass(cls: CharClass, s: string)
    ensures Matches(RepeatOnce(In(cls)), s) <==> s != "" && forall i | 0 <= i < |s| :: InClass(cls, s[i])
    decreases |s|
  {
    if |s| <= 1 {
    } else {
      RepeatOnceMore(cls, s);
      RepeatOnceClass(cls, s[1..]);
      assert forall i | 0 < i < |s| :: s[i] == s[1..][i - 1];
    }
  }

  lemma DelimiterClass(c: char)
    ensures InClass(OneOf("/?#"), c) <==> c in AUTHORITY_END
  {
  }

  lemma RepeatAny(s: string)
    ensures Matches(Repeat(In(AnyButNewline)), s) <==> '\n' !in s
  {
    RepeatClass(AnyButNewline, s);
  }

  lemma NewlineInRest(s: string)
    requires s != ""
    ensures s[0] in AUTHORITY_END ==> ('\n' !in s <==> '\n' !in s[1..])
  {
  }

  lemma TailMatches(s: string)
    ensures Matches(TAIL, s) <==> IsTailText(s)
  {
    var delimiter, any := In(OneOf("/?#")), Repeat(In(AnyButNewline));
    OptionalGroup(Then(delimiter, any), s);
    FirstThen(delimiter, any, s);
    if s != "" {
      RepeatAny(s[1..]);
      DelimiterClass(s[0]);
      NewlineInRest(s);
    }
  }

  // ----- the rule and the authority test agree --------------------------------------------

  /** All that the proofs below need to know about a domain. */
  predicate HostShaped(d: string) {
    d != "" && (forall i | 0 <= i < |d| :: DomainChar(d[i])) && !IsDigits(d)
  }

  lemma DomainIsHostShaped(d: string)
    requires IsDomain(d)
    ensures HostShaped(d)
  {
    DomainChars(d);
    if '.' in d {
      var k :| 0 <= k < |d| && d[k] == '.';
    } else {
      assert d[0] == 'l';
    }
  }

  predicate IsSubdomainText(pre: string) {
    pre == "" || (pre[|pre| - 1] == '.' && IsHostText(pre))
  }

  predicate IsPortText(port: string) {
    port == "" || (port[0] == ':' && |port| > 1 && IsDigits(port[1..]))
  }

  predicate IsTailText(tail: string) {
    tail == "" || (tail[0] in AUTHORITY_END && '\n' !in tail)
  }

  lemma CoveredByEnd(pre: string, d: string)
    requires pre == "" || pre[|pre| - 1] == '.'
    ensures Covered(pre + d, d)
  {
    var host := pre + d;
    if pre == "" {
      assert host == d;
    } else {
      assert host[|host| - |d| - 1..] == "." + d;
    }
  }

  lemma LastColonIs(s: string, i: nat)
    requires i < |s| && s[i] == ':' && forall j | i < j < |s| :: s[j] != ':'
    ensures LastColon(s) == Some(i)
  {
    var r := LastColon(s);
    assert forall j | r.value < j < |s| :: s[j] == s[r.value + 1..][j - r.value - 1];
  }

  /** A port is cut off. */
  lemma HostBeforePort(host: string, port: string)
    requires IsPortText(port) && port != ""
    ensures HostOf(host + port) == host
  {
    var authority := host + port;
    assert authority[|host|] == ':';
    assert authority[|host| + 1..] == port[1..];
    assert forall j | |host| < j < |authority| :: authority[j] == port[1..][j - |host| - 1];
    LastColonIs(authority, |host|);
    assert authority[..|host|] == host;
  }

  /** Without a port nothing is cut off: what follows a colon has the domain's dot or letter. */
  lemma HostWithoutPort(pre: string, d: string)
    requires HostShaped(d)
    ensures HostOf(pre + d) == pre + d
  {
    var host := pre + d;
    match LastColon(host)
    case None =>
    case Some(i) =>
      assert i < |pre|;
      var k :| 0 <= k < |d| && !IsDigit(d[k]);
      assert host[i + 1..][|pre| - i - 1 + k] == d[k];
  }

  lemma AuthorityIsHostText(pre: string, d: string, port: string)
    requires HostShaped(d) && IsSubdomainText(pre) && IsPortText(port)
    ensures IsHostText(pre + d + port)
  {
    assert IsHostText(d);
    if port != "" {
      assert forall i | 0 < i < |port| :: port[i] == port[1..][i - 1];
      assert IsHostText(port);
    }
  }

  lemma AllowsParts(d: string, pre: string, port: string, tail: string)
    requires HostShaped(d) && IsSubdomainText(pre) && IsPortText(port) && IsTailText(tail)
    ensures AllowsRest(d, pre + d + port + tail)
  {
    var authority := pre + d + port;
    var rest := authority + tail;
    AuthorityIsHostText(pre, d, port);
    CoveredByEnd(pre, d);
    if port == "" {
      assert authority == pre + d;
      HostWithoutPort(pre, d);
    } else {
      HostBeforePort(pre + d, port);
    }
    CutConcat(authority, tail);
    AuthorityEnds(authority, tail);
  }

  lemma AuthorityEnds(authority: string, tail: string)
    requires IsHostText(authority) && IsTailText(tail)
    ensures Until(authority + tail, AUTHORITY_END) == authority
  {
    UntilUnique(authority + tail, AUTHORITY_END, |authority|);
    CutConcat(authority, tail);
  }

  lemma AuthorityParts(d: string, authority: string) returns (pre: string, port: string)
    requires Covered(HostOf(authority), d) && IsHostText(authority)
    ensures authority == pre + d + port
    ensures IsSubdomainText(pre) && IsPortText(port)
  {
    var host := HostOf(authority);
    port := PortOf(authority);
    pre := BeforeDomain(host, d);
    ConcatThree(pre, d, port);
    HostTextStart(pre, d + port);
  }

  lemma PortOf(authority: string) returns (port: string)
    ensures authority == HostOf(authority) + port && IsPortText(port)
  {
    match LastColon(authority)
    case None =>
      port := "";
    case Some(i) =>
      CutAt(authority, i);
      port := if HostOf(authority) == authority then "" else authority[i..];
      assert authority[i..][1..] == authority[i + 1..];
  }

  lemma HostTextStart(x: string, y: string)
    requires IsHostText(x + y)
    ensures IsHostText(x)
  {
    assert forall i | 0 <= i < |x| :: (x + y)[i] == x[i];
  }

  lemma BeforeDomain(host: string, d: string) returns (pre: string)
    requires Covered(host, d)
    ensures host == pre + d
    ensures pre == "" || pre[|pre| - 1] == '.'
  {
    pre := host[..|host| - |d|];
    if host != d {
      var end := host[|host| - |d| - 1..];
      assert end == "." + d;
      assert host[|host| - |d| - 1] == end[0];
      assert host[|host| - |d|..] == end[1..];
    }
  }

  /** Six expressions in a row match a text exactly when they match its pieces. */
  lemma SixSplit(a: Regex, b: Regex, c: Regex, d: Regex, e: Regex, f: Regex, s: string)
      returns (sa: string, sb: string, sc: string, sd: string, se: string, sf: string)
    requires Matches(Then(a, Then(b, Then(c, Then(d, Then(e, f))))), s)
    ensures s == sa + (sb + (sc + (sd + (se + sf))))
    ensures Matches(a, sa) && Matches(b, sb) && Matches(c, sc) && Matches(d, sd) && Matches(e, se) && Matches(f, sf)
  {
    var s1, s2, s3, s4;
    sa, s1 := ThenSplits(a, Then(b, Then(c, Then(d, Then(e, f)))), s);
    sb, s2 := ThenSplits(b, Then(c, Then(d, Then(e, f))), s1);
    sc, s3 := ThenSplits(c, Then(d, Then(e, f)), s2);
    sd, s4 := ThenSplits(d, Then(e, f), s3);
    se, sf := ThenSplits(e, f, s4);
  }

  lemma SixJoin(a: Regex, b: Regex, c: Regex, d: Regex, e: Regex, f: Regex,
                sa: string, sb: string, sc: string, sd: string, se: string, sf: string)
    requires Matches(a, sa) && Matches(b, sb) && Matches(c, sc) && Matches(d, sd) && Matches(e, se) && Matches(f, sf)
    ensures Matches(Then(a, Then(b, Then(c, Then(d, Then(e, f))))), sa + (sb + (sc + (sd + (se + sf)))))
  {
    ThenJoins(e, f, se, sf);
    ThenJoins(d, Then(e, f), sd, se + sf);
    ThenJoins(c, Then(d, Then(e, f)), sc, sd + (se + sf));
    ThenJoins(b, Then(c, Then(d, Then(e, f))), sb, sc + (sd + (se + sf)));
    ThenJoins(a, Then(b, Then(c, Then(d, Then(e, f)))), sa, sb + (sc + (sd + (se + sf))));
  }

  lemma AllowsFromScheme(d: string, scheme: string, rest: string)
    requires scheme in ["http", "https", "ws", "wss"] && AllowsRest(d, rest)
    ensures Allows(d, scheme + ("://" + rest))
  {
    ConcatThree(scheme, "://", rest);
    CutConcat(scheme + "://", rest);
  }

  lemma RuleSound(d: string, s: string)
    requires HostShaped(d) && Matches(RuleRegex(d), s)
    ensures Allows(d, s)
  {
    var scheme, colon, pre, d', port, tail := SixSplit(SCHEME, Text("://"), SUBDOMAINS, Text(d), PORT, TAIL, s);
    SchemeMatches(scheme);
    SubdomainsMatch(pre);
    PortMatches(port);
    TailMatches(tail);
    AllowsParts(d, pre, port, tail);
    ConcatFour(pre, d, port, tail);
    AllowsFromScheme(d, scheme, pre + (d + (port + tail)));
  }

  lemma RuleComplete(d: string, s: string)
    requires Allows(d, s)
    ensures Matches(RuleRegex(d), s)
  {
    var scheme :| scheme in ["http", "https", "ws", "wss"] && StartsWith(s, scheme + "://")
      && AllowsRest(d, s[|scheme| + 3..]);
    var rest := s[|scheme| + 3..];
    var authority, pre, port, tail := RestParts(d, rest);
    SchemeMatches(scheme);
    SubdomainsMatch(pre);
    PortMatches(port);
    TailMatches(tail);
    SixJoin(SCHEME, Text("://"), SUBDOMAINS, Text(d), PORT, TAIL, scheme, "://", pre, d, port, tail);
    CutAt(s, |scheme| + 3);
    ConcatThree(scheme, "://", rest);
  }

  lemma RestParts(d: string, rest: string) returns (authority: string, pre: string, port: string, tail: string)
    requires AllowsRest(d, rest)
    ensures rest == pre + (d + (port + tail))
    ensures IsSubdomainText(pre) && IsPortText(port) && IsTailText(tail)
  {
    authority := Until(rest, AUTHORITY_END);
    tail := rest[|authority|..];
    AuthorityIsHostTextHere(authority);
    pre, port := AuthorityParts(d, authority);
    CutAt(rest, |authority|);
    ConcatFour(pre, d, port, tail);
  }

  lemma AuthorityIsHostTextHere(authority: string)
    requires '@' !in authority && forall c | c in authority :: c !in AUTHORITY_END
    ensures IsHostText(authority)
  {
    assert forall i | 0 <= i < |authority| :: authority[i] in authority;
  }

  /** The rule for a domain matches exactly the URLs the authority test allows. */
  lemma RuleMatchesAllowed(d: string, url: string)
    requires IsDomain(d)
    ensures RuleMatches(d, url) <==> Allows(d, Fold(url))
  {
    DomainIsHostShaped(d);
    if RuleMatches(d, url) {
      RuleSound(d, Fold(url));
    }
    if Allows(d, Fold(url)) {
      RuleComplete(d, Fold(url));
    }
  }
}
