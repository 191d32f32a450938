/** Which texts name a domain, which lists are read how, and in what order their domains stay. */
module DomainLaws {
  import opened Strings
  import opened Seb
  import opened StartUrlRule
  import ExamSettings

  // ----- host names, character by character ----------------------------------------------------

  predicate NameChar(c: char) {
    '0' <= c <= '9' || 'a' <= c <= 'z' || 'A' <= c <= 'Z' || c == '-' || c == '.'
  }

  /** A dot with something other than a dot or hyphen on each side. */
  predicate DotStands(d: string, i: nat)
    requires i < |d|
  {
    d[i] == '.' ==> 0 < i < |d| - 1 && d[i - 1] != '-' && d[i + 1] != '-' && d[i - 1] != '.' && d[i + 1] != '.'
  }

  /** One of the 64 characters from here on is a dot. */
  predicate DotWithin(d: string, i: nat)
    requires i + 64 <= |d|
  {
    exists k | i <= k < i + 64 :: d[k] == '.'
  }

  /** Letters, digits, hyphens and dots; no hyphen next to a dot or an end, no dot next to a dot or an end, and no 64
      characters in a row without a dot. */
  predicate Spelled(d: string) {
    && d != "" && d[0] != '-' && d[|d| - 1] != '-'
    && (forall i | 0 <= i < |d| :: NameChar(d[i]) && DotStands(d, i))
    && (forall i | 0 <= i <= |d| - 64 :: DotWithin(d, i))
  }

  lemma NoDotNoCut(d: string)
    requires '.' !in d
    ensures LabelsOk(d) <==> LabelOk(d)
  {
    assert forall i | 0 <= i < |d| :: d[i] in d;
    UntilUnique(d, {'.'}, |d|);
    assert d[..|d|] == d;
  }

  lemma OneLabel(d: string)
    requires '.' !in d
    ensures LabelOk(d) <==> Spelled(d)
  {
    assert forall i | 0 <= i < |d| :: d[i] in d;
    if LabelOk(d) {
      assert Spelled(d);
    }
    if Spelled(d) {
      NoDotIsShort(d);
      assert forall c | c in d :: IsAlnum(c) || c == '-';
    }
  }

  lemma FirstLabel(d: string)
    requires '.' !in d
    ensures LabelsOk(d) <==> Spelled(d)
  {
    NoDotNoCut(d);
    OneLabel(d);
  }

  lemma MoreLabels(d: string, n: nat)
    requires n < |d| && d[n] == '.' && '.' !in d[..n]
    ensures LabelsOk(d) <==> LabelOk(d[..n]) && LabelsOk(d[n + 1..])
  {
    UntilUnique(d, {'.'}, n) by {
      assert forall i | 0 <= i < n :: d[i] == d[..n][i];
    }
  }

  lemma {:induction false} LabelsAreSpelled(d: string)
    ensures LabelsOk(d) <==> Spelled(d)
    decreases |d|
  {
    var n := |Until(d, {'.'})|;
    if n == |d| {
      FirstLabel(d);
    } else {
      MoreLabels(d, n);
      FirstLabel(d[..n]);
      NoDotNoCut(d[..n]);
      LabelsAreSpelled(d[n + 1..]);
      SpelledParts(d, n);
    }
  }

  lemma SpelledParts(d: string, n: nat)
    requires n < |d| && d[n] == '.' && '.' !in d[..n]
    ensures Spelled(d) <==> Spelled(d[..n]) && Spelled(d[n + 1..])
  {
    var a, b := d[..n], d[n + 1..];
    assert forall i | 0 <= i < n :: a[i] == d[i];
    assert forall i | 0 <= i < |b| :: b[i] == d[n + 1 + i];
    if Spelled(d) {
      SpelledFirst(d, n);
      SpelledRest(d, n);
    }
    if Spelled(a) && Spelled(b) {
      SpelledWhole(d, n);
    }
  }

  lemma SpelledFirst(d: string, n: nat)
    requires n < |d| && d[n] == '.' && '.' !in d[..n] && Spelled(d)
    ensures Spelled(d[..n])
  {
    var a := d[..n];
    assert DotStands(d, n);
    assert forall i | 0 <= i < n :: a[i] == d[i] && d[i] != '.' && NameChar(d[i]);
    if n >= 64 {
      DotEarly(d, n);
    }
  }

  lemma SpelledRest(d: string, n: nat)
    requires n < |d| && d[n] == '.' && Spelled(d)
    ensures Spelled(d[n + 1..])
  {
    var b := d[n + 1..];
    assert DotStands(d, n);
    forall i | 0 <= i < |b|
      ensures NameChar(b[i]) && DotStands(b, i)
    {
      assert NameChar(d[n + 1 + i]) && DotStands(d, n + 1 + i);
    }
    forall i | 0 <= i <= |b| - 64
      ensures DotWithin(b, i)
    {
      assert DotWithin(d, n + 1 + i);
      var k :| n + 1 + i <= k < n + 1 + i + 64 && d[k] == '.';
      assert b[k - n - 1] == '.';
    }
  }

  lemma SpelledWhole(d: string, n: nat)
    requires n < |d| && d[n] == '.' && '.' !in d[..n] && Spelled(d[..n]) && Spelled(d[n + 1..])
    ensures Spelled(d)
  {
    var a, b := d[..n], d[n + 1..];
    NoDotIsShort(a);
    forall i | 0 <= i < |d|
      ensures NameChar(d[i]) && DotStands(d, i)
    {
      if i < n {
        assert NameChar(a[i]) && a[i] in a;
      } else if i > n {
        assert NameChar(b[i - n - 1]) && DotStands(b, i - n - 1);
      }
    }
    forall i | 0 <= i <= |d| - 64
      ensures DotWithin(d, i)
    {
      if i <= n {
        assert d[n] == '.' && n < i + 64;
      } else {
        assert DotWithin(b, i - n - 1);
        var k :| i - n - 1 <= k < i - n - 1 + 64 && b[k] == '.';
        assert d[k + n + 1] == '.';
      }
    }
  }

  lemma NoDotIsShort(a: string)
    requires Spelled(a) && '.' !in a
    ensures |a| <= 63
  {
    if |a| >= 64 {
      DotEarly(a, |a|);
    }
  }

  lemma DotEarly(d: string, n: nat)
    requires Spelled(d) && 64 <= n <= |d|
    ensures '.' in d[..n] && '.' in d
  {
    assert DotWithin(d, 0);
    var k :| 0 <= k < 64 && d[k] == '.';
    assert d[..n][k] == '.';
  }

  lemma {:induction false} AsciiWidth(d: string)
    requires forall i | 0 <= i < |d| :: NameChar(d[i])
    ensures Utf8Length(d) == |d|
  {
    if d == "" {
    } else {
      assert forall i | 0 <= i < |d[1..]| :: d[1..][i] == d[i + 1];
      AsciiWidth(d[1..]);
    }
  }

  /** A host name is what is spelled like one in at most 253 characters, with a dot or as localhost. */
  lemma HostNames(d: string)
    ensures IsHostName(d) <==> Spelled(d) && |d| <= 253 && ('.' in d || d == "localhost")
  {
    LabelsAreSpelled(d);
    if Spelled(d) {
      AsciiWidth(d);
    }
  }

  // ----- what may stand around a name ------------------------------------------------------------

  predicate AllSpace(s: string) {
    forall i | 0 <= i < |s| :: IsSpace(s[i])
  }

  predicate AllDots(s: string) {
    forall i | 0 <= i < |s| :: s[i] == '.'
  }

  /** `*.` any number of times. */
  predicate AllStars(s: string) {
    |s| % 2 == 0 && forall i | 0 <= i < |s| :: s[i] == if i % 2 == 0 then '*' else '.'
  }

  /** What stands in front of a name, and behind it. */
  datatype Dress = Dress(spaces: string, stars: string, dots: string, endDots: string, endSpaces: string)

  predicate Fits(x: Dress) {
    AllSpace(x.spaces) && AllStars(x.stars) && AllDots(x.dots) && AllDots(x.endDots) && AllSpace(x.endSpaces)
  }

  function Inner(name: string, x: Dress): string {
    x.stars + (x.dots + (name + x.endDots))
  }

  function Dressed(name: string, x: Dress): string {
    x.spaces + (Inner(name, x) + x.endSpaces)
  }

  lemma {:induction false} TrimStartSkips(a: string, y: string)
    requires AllSpace(a) && (y != "" ==> !IsSpace(y[0]))
    ensures TrimStart(a + y) == y
  {
    if a == "" {
      assert a + y == y;
    } else {
      assert (a + y)[1..] == a[1..] + y;
      assert forall i | 0 <= i < |a[1..]| :: a[1..][i] == a[i + 1];
      TrimStartSkips(a[1..], y);
    }
  }

  lemma {:induction false} TrimEndSkips(y: string, b: string)
    requires AllSpace(b) && (y != "" ==> !IsSpace(y[|y| - 1]))
    ensures TrimEnd(y + b) == y
  {
    if b == "" {
      assert y + b == y;
    } else {
      assert (y + b)[..|y| + |b| - 1] == y + b[..|b| - 1];
      TrimEndSkips(y, b[..|b| - 1]);
    }
  }

  lemma TrimBetween(a: string, y: string, b: string)
    requires AllSpace(a) && AllSpace(b) && y != "" && !IsSpace(y[0]) && !IsSpace(y[|y| - 1])
    ensures Trim(a + (y + b)) == y
  {
    TrimStartSkips(a, y + b);
    TrimEndSkips(y, b);
  }

  lemma {:induction false} StarsBefore(s: string)
    ensures AllStars(s[..|s| - |DropStars(s)|]) && !StartsWith(DropStars(s), "*.")
    decreases |s|
  {
    if !StartsWith(s, "*.") {
    } else {
      StarsBefore(s[2..]);
      OneMoreStar(s, |s| - |DropStars(s)|);
    }
  }

  lemma OneMoreStar(s: string, n: nat)
    requires StartsWith(s, "*.") && 2 <= n <= |s| && AllStars(s[2..][..n - 2])
    ensures AllStars(s[..n])
  {
    assert s[0] == s[..2][0] && s[1] == s[..2][1];
    assert forall i | 2 <= i < n :: s[..n][i] == s[2..][..n - 2][i - 2];
  }

  lemma {:induction false} DotsBefore(s: string)
    ensures AllDots(s[..|s| - |DropDots(s)|])
    decreases |s|
  {
    if s == "" || s[0] != '.' {
    } else {
      DotsBefore(s[1..]);
      OneMoreDot(s, |s| - |DropDots(s)|);
    }
  }

  lemma OneMoreDot(s: string, n: nat)
    requires 1 <= n <= |s| && s[0] == '.' && AllDots(s[1..][..n - 1])
    ensures AllDots(s[..n])
  {
    assert forall i | 1 <= i < n :: s[..n][i] == s[1..][..n - 1][i - 1];
  }

  lemma OneMoreEndDot(s: string, n: nat)
    requires n < |s| && s[|s| - 1] == '.' && AllDots(s[..|s| - 1][n..])
    ensures AllDots(s[n..])
  {
    assert forall i | 0 <= i < |s| - 1 - n :: s[n..][i] == s[..|s| - 1][n..][i];
  }

  lemma {:induction false} DotsBehind(s: string)
    ensures AllDots(s[|DropEndDots(s)|..])
    decreases |s|
  {
    if s == "" || s[|s| - 1] != '.' {
    } else {
      DotsBehind(s[..|s| - 1]);
      OneMoreEndDot(s, |DropEndDots(s)|);
    }
  }

  /** A cut behind stars, before a text that starts with none, is where the stars end. */
  lemma StarsUnique(s: string, m: nat, n: nat)
    requires m <= n <= |s| && AllStars(s[..m]) && AllStars(s[..n]) && !StartsWith(s[m..], "*.")
    ensures m == n
  {
    if m < n {
      StarAt(s, m, n);
    }
  }

  lemma StarAt(s: string, m: nat, n: nat)
    requires m < n <= |s| && AllStars(s[..m]) && AllStars(s[..n])
    ensures StartsWith(s[m..], "*.")
  {
    assert s[m] == s[..n][m] && s[m + 1] == s[..n][m + 1];
    assert s[m..][..2] == [s[m], s[m + 1]];
  }

  lemma DotsUnique(s: string, m: nat, n: nat)
    requires m <= n <= |s| && AllDots(s[..n]) && (m < |s| ==> s[m] != '.')
    ensures m == n
  {
    if m < n {
      DotAt(s, m, n);
    }
  }

  lemma DotAt(s: string, m: nat, n: nat)
    requires m < n <= |s| && AllDots(s[..n])
    ensures s[m] == '.'
  {
    assert s[..n][m] == s[m];
  }

  lemma EndDotsUnique(s: string, m: nat, n: nat)
    requires m <= n <= |s| && AllDots(s[m..]) && (n > 0 ==> s[n - 1] != '.')
    ensures m == n
  {
    if m < n {
      EndDotAt(s, m, n);
    }
  }

  lemma EndDotAt(s: string, m: nat, n: nat)
    requires m < n <= |s| && AllDots(s[m..])
    ensures s[n - 1] == '.'
  {
    assert s[m..][n - 1 - m] == s[n - 1];
  }

  lemma StarsDropped(stars: string, y: string)
    requires AllStars(stars) && !StartsWith(y, "*.")
    ensures DropStars(stars + y) == y
  {
    CutConcat(stars, y);
    StarsBefore(stars + y);
    OneCut(stars + y, |stars + y| - |DropStars(stars + y)|, |stars|);
  }

  lemma OneCut(s: string, m: nat, n: nat)
    requires m <= |s| && n <= |s| && AllStars(s[..m]) && AllStars(s[..n])
    requires !StartsWith(s[m..], "*.") && !StartsWith(s[n..], "*.")
    ensures m == n
  {
    if m <= n {
      StarsUnique(s, m, n);
    }
    if n <= m {
      StarsUnique(s, n, m);
    }
  }

  lemma DotsDropped(dots: string, y: string)
    requires AllDots(dots) && y != "" && y[0] != '.'
    ensures DropDots(dots + y) == y
  {
    var s := dots + y;
    var r := DropDots(s);
    var n := |s| - |r|;
    DotsBefore(s);
    CutConcat(dots, y);
    if n <= |dots| {
      DotsUnique(s, n, |dots|);
    }
    if |dots| <= n {
      DotsUnique(s, |dots|, n);
    }
  }

  lemma EndDotsDropped(y: string, dots: string)
    requires AllDots(dots) && y != "" && y[|y| - 1] != '.'
    ensures DropEndDots(y + dots) == y
  {
    var s := y + dots;
    var r := DropEndDots(s);
    DotsBehind(s);
    CutConcat(y, dots);
    if |r| <= |y| {
      EndDotsUnique(s, |r|, |y|);
    }
    if |y| <= |r| {
      EndDotsUnique(s, |y|, |r|);
    }
  }

  lemma NameEnds(name: string)
    requires IsHostName(LowerAscii(name))
    ensures name != "" && forall i | 0 <= i < |name| :: NameChar(name[i])
    ensures NameChar(name[0]) && name[0] != '.' && NameChar(name[|name| - 1]) && name[|name| - 1] != '.'
  {
    var d := LowerAscii(name);
    HostNames(d);
    assert DotStands(d, 0) && DotStands(d, |d| - 1);
    assert forall i | 0 <= i < |d| :: NameChar(d[i]) && d[i] == LowerChar(name[i]);
  }

  lemma BareInner(name: string, x: Dress)
    requires IsHostName(LowerAscii(name)) && Fits(x)
    ensures BareName(Inner(name, x)) == name
  {
    NameEnds(name);
    var rest := name + x.endDots;
    NoStar(x.dots + rest);
    StarsDropped(x.stars, x.dots + rest);
    DotsDropped(x.dots, rest);
    EndDotsDropped(name, x.endDots);
  }

  lemma NoStar(s: string)
    requires s != "" && s[0] != '*'
    ensures !StartsWith(s, "*.")
  {
    NoStars(s);
    StarsBefore(s);
  }

  /** No space and no colon. */
  predicate Plain(s: string) {
    forall i | 0 <= i < |s| :: NameChar(s[i]) || s[i] == '*'
  }

  lemma InnerPlain(name: string, x: Dress)
    requires Plain(name) && Fits(x)
    ensures Plain(Inner(name, x))
  {
  }

  /** A host name in any case, with any such text around it, names itself in lower case. */
  lemma DressedNormalizes(name: string, x: Dress)
    requires IsHostName(LowerAscii(name)) && Fits(x)
    ensures NormalizeDomain(Dressed(name, x)) == Ok(LowerAscii(name))
  {
    NameEnds(name);
    InnerPlain(name, x);
    BareInner(name, x);
    var y := Inner(name, x);
    PlainEnds(y);
    TrimBetween(x.spaces, y, x.endSpaces);
    PlainNoUrl(y);
    BareNormalizes(Dressed(name, x), y, name);
  }

  lemma PlainEnds(y: string)
    requires y != "" && Plain(y)
    ensures !IsSpace(y[0]) && !IsSpace(y[|y| - 1])
  {
    NotSpace(y[0]);
    NotSpace(y[|y| - 1]);
  }

  lemma NotSpace(c: char)
    requires NameChar(c) || c == '*'
    ensures !IsSpace(c)
  {
  }

  lemma PlainNoUrl(y: string)
    requires Plain(y)
    ensures !Contains(y, "://")
  {
    NoColonNoUrl(y);
  }

  lemma BareNormalizes(input: string, y: string, name: string)
    requires Trim(input) == y && !Contains(y, "://") && BareName(y) == name && IsHostName(LowerAscii(name))
    ensures NormalizeDomain(input) == Ok(LowerAscii(name))
  {
  }

  lemma {:induction false} SpacesAtEnd(s: string)
    ensures AllSpace(s[|TrimEnd(s)|..])
  {
    if s == "" || !IsSpace(s[|s| - 1]) {
    } else {
      SpacesAtEnd(s[..|s| - 1]);
      var n := |TrimEnd(s)|;
      assert forall i | 0 <= i < |s| - 1 - n :: s[n..][i] == s[..|s| - 1][n..][i];
    }
  }

  lemma Trimmed(s: string) returns (before: string, after: string)
    ensures s == before + (Trim(s) + after) && AllSpace(before) && AllSpace(after)
  {
    var t := TrimStart(s);
    before, after := s[..|s| - |t|], t[|Trim(s)|..];
    SpacesAtEnd(t);
    CutAt(s, |s| - |t|);
    CutAt(t, |Trim(s)|);
  }

  lemma BareFound(d: string) returns (stars: string, dots: string, endDots: string)
    ensures d == stars + (dots + (BareName(d) + endDots)) && AllStars(stars) && AllDots(dots) && AllDots(endDots)
  {
    var s := DropStars(d);
    var t := DropDots(s);
    stars, dots, endDots := d[..|d| - |s|], s[..|s| - |t|], t[|DropEndDots(t)|..];
    StarsBefore(d);
    DotsBefore(s);
    DotsBehind(t);
    CutAt(d, |d| - |s|);
    CutAt(s, |s| - |t|);
    CutAt(t, |DropEndDots(t)|);
  }

  /** And a text without a scheme names a domain in no other way. */
  lemma NormalizedIsDressed(input: string) returns (name: string, x: Dress)
    requires NormalizeDomain(input).Ok? && !Contains(Trim(input), "://")
    ensures input == Dressed(name, x) && Fits(x)
    ensures IsHostName(LowerAscii(name)) && NormalizeDomain(input) == Ok(LowerAscii(name))
  {
    var spaces, endSpaces := Trimmed(input);
    var stars, dots, endDots := BareFound(Trim(input));
    name, x := BareName(Trim(input)), Dress(spaces, stars, dots, endDots, endSpaces);
  }

  // ----- hosts in URLs ---------------------------------------------------------------------------------

  predicate PortText(port: string) {
    port == "" || (|port| > 1 && port[0] == ':' && IsDigits(port[1..]))
  }

  /** Nothing that ends an authority or its user information, and no colon unless a port follows. */
  predicate HostText(host: string, port: string) {
    && (forall i | 0 <= i < |host| :: host[i] != '/' && host[i] != '?' && host[i] != '#' && host[i] != '@')
    && (port == "" ==> ':' !in host)
  }

  predicate TailText(tail: string) {
    tail == "" || tail[0] == '/' || tail[0] == '?' || tail[0] == '#'
  }

  /** `http://` or `https://`, host, port and tail, with white space around. */
  datatype UrlText = UrlText(spaces: string, secure: bool, host: string, port: string, tail: string, endSpaces: string)

  function SchemeText(secure: bool): (r: string)
    ensures r != "" && r[0] == 'h'
  {
    if secure then "https://" else "http://"
  }

  function Core(x: UrlText): (r: string)
    ensures r != "" && r[0] == 'h'
  {
    SchemeText(x.secure) + (x.host + x.port + x.tail)
  }

  function UrlOf(x: UrlText): string {
    x.spaces + (Core(x) + x.endSpaces)
  }

  predicate WellFormed(x: UrlText) {
    && AllSpace(x.spaces) && AllSpace(x.endSpaces) && !IsSpace(Core(x)[|Core(x)| - 1])
    && HostText(x.host, x.port) && PortText(x.port) && TailText(x.tail)
  }

  lemma SchemeRead(secure: bool, rest: string)
    ensures AfterScheme(SchemeText(secure) + rest) == Some(rest)
  {
    var s := SchemeText(secure) + rest;
    CutConcat(SchemeText(secure), rest);
    if !secure {
      DiffersAt(s, "https://", 4);
    }
  }

  lemma DiffersAt(s: string, p: string, i: nat)
    requires i < |s| && i < |p| && s[i] != p[i]
    ensures !StartsWith(s, p)
  {
    assert |p| <= |s| ==> s[..|p|][i] == s[i];
  }

  lemma AuthorityRead(authority: string, tail: string)
    requires TailText(tail)
    requires forall i | 0 <= i < |authority| :: authority[i] != '/' && authority[i] != '?' && authority[i] != '#'
    ensures Until(authority + tail, AUTHORITY_END) == authority
  {
    UntilUnique(authority + tail, AUTHORITY_END, |authority|);
    CutConcat(authority, tail);
  }

  lemma LastColonAt(s: string, i: nat)
    requires i < |s| && s[i] == ':' && forall j | i < j < |s| :: s[j] != ':'
    ensures LastColon(s) == Some(i)
  {
    assert s[i] in s;
  }

  lemma PortRead(host: string, port: string)
    requires HostText(host, port) && PortText(port)
    ensures WithoutPort(host + port) == Some(host)
  {
    var s := host + port;
    CutConcat(host, port);
    if port == "" {
      assert s == host;
    } else {
      assert s[|host| + 1..] == port[1..];
      LastColonAt(s, |host|);
    }
  }

  lemma NoUserInfo(host: string, port: string)
    requires HostText(host, port) && PortText(port)
    ensures forall i | 0 <= i < |host + port| :: (host + port)[i] !in {'/', '?', '#', '@'}
  {
    if port != "" {
      assert forall i | 0 <= i < |port[1..]| :: port[1..][i] == port[i + 1];
    }
  }

  /** The host of such a URL is what stands between scheme and port or tail. */
  lemma UrlRead(x: UrlText)
    requires WellFormed(x)
    ensures WrittenHost(UrlOf(x)) == Ok(x.host)
  {
    TrimBetween(x.spaces, Core(x), x.endSpaces);
    SchemeRead(x.secure, x.host + x.port + x.tail);
    NoUserInfo(x.host, x.port);
    AuthorityRead(x.host + x.port, x.tail);
    PortRead(x.host, x.port);
    WrittenFrom(UrlOf(x), Core(x), x.host + x.port + x.tail, x.host + x.port, x.host);
  }

  lemma WrittenFrom(url: string, core: string, rest: string, authority: string, host: string)
    requires Trim(url) == core && AfterScheme(core) == Some(rest) && Until(rest, AUTHORITY_END) == authority
    requires '@' !in authority && WithoutPort(authority) == Some(host)
    ensures WrittenHost(url) == Ok(host)
  {
  }

  lemma SchemeFound(s: string) returns (secure: bool)
    requires AfterScheme(s).Some?
    ensures s == SchemeText(secure) + AfterScheme(s).value
  {
    secure := StartsWith(s, "https://");
    CutAt(s, if secure then 8 else 7);
  }

  lemma PortFound(authority: string) returns (port: string)
    requires WithoutPort(authority).Some?
    ensures authority == WithoutPort(authority).value + port && PortText(port)
    ensures port == "" ==> ':' !in authority
  {
    port := authority[|WithoutPort(authority).value|..];
    CutAt(authority, |WithoutPort(authority).value|);
    if port != "" {
      assert port[1..] == authority[LastColon(authority).value + 1..];
    }
  }

  lemma HostFound(authority: string, host: string, port: string)
    requires authority == host + port && '@' !in authority && (port == "" ==> ':' !in authority)
    requires forall c | c in authority :: c !in AUTHORITY_END
    ensures HostText(host, port)
  {
    forall i | 0 <= i < |host|
      ensures host[i] !in AUTHORITY_END && host[i] != '@'
    {
      assert authority[i] == host[i] && authority[i] in authority;
    }
    assert port == "" ==> host == authority;
  }

  lemma AuthorityFound(rest: string) returns (tail: string)
    ensures rest == Until(rest, AUTHORITY_END) + tail && TailText(tail)
  {
    tail := rest[|Until(rest, AUTHORITY_END)|..];
    CutAt(rest, |Until(rest, AUTHORITY_END)|);
  }

  lemma TrimmedEnd(s: string)
    ensures Trim(s) != "" ==> !IsSpace(Trim(s)[|Trim(s)| - 1])
  {
  }

  lemma WrittenParts(url: string)
    requires WrittenHost(url).Ok?
    ensures AfterScheme(Trim(url)).Some?
    ensures
      var authority := Until(AfterScheme(Trim(url)).value, AUTHORITY_END);
      '@' !in authority && WithoutPort(authority) == Some(WrittenHost(url).value)
  {
  }

  lemma CoreFound(t: string, rest: string, authority: string, host: string)
    returns (secure: bool, port: string, tail: string)
    requires AfterScheme(t) == Some(rest) && Until(rest, AUTHORITY_END) == authority
    requires '@' !in authority && WithoutPort(authority) == Some(host)
    ensures t == SchemeText(secure) + (host + port + tail)
    ensures HostText(host, port) && PortText(port) && TailText(tail)
  {
    secure := SchemeFound(t);
    tail := AuthorityFound(rest);
    port := PortFound(authority);
    HostFound(authority, host, port);
  }

  /** And a host is written in no other way. */
  lemma UrlFound(url: string) returns (x: UrlText)
    requires WrittenHost(url).Ok?
    ensures url == UrlOf(x) && WellFormed(x) && x.host == WrittenHost(url).value
  {
    var spaces, endSpaces := Trimmed(url);
    WrittenParts(url);
    TrimmedEnd(url);
    var t, host := Trim(url), WrittenHost(url).value;
    var rest := AfterScheme(t).value;
    var secure, port, tail := CoreFound(t, rest, Until(rest, AUTHORITY_END), host);
    x := UrlText(spaces, secure, host, port, tail, endSpaces);
    assert Core(x) == t;
  }

  // ----- lists of domains ----------------------------------------------------------------------------

  /** The pieces with these characters between them. */
  function Glued(pieces: seq<string>, marks: string): string
    requires |pieces| == |marks| + 1
  {
    if marks == "" then pieces[0] else pieces[0] + ([marks[0]] + Glued(pieces[1..], marks[1..]))
  }

  /** Splitting cuts the text at every separator and nowhere else, and loses nothing. */
  lemma {:induction false} SplitGlued(s: string, separators: set<char>) returns (marks: string)
    ensures |Split(s, separators)| == |marks| + 1 && Glued(Split(s, separators), marks) == s
    ensures forall c | c in marks :: c in separators
    ensures forall p, c | p in Split(s, separators) && c in p :: c !in separators
    decreases |s|
  {
    var n := |Until(s, separators)|;
    if n == |s| {
      marks := "";
    } else {
      var rest := SplitGlued(s[n + 1..], separators);
      marks := [s[n]] + rest;
      assert marks[1..] == rest && Split(s, separators)[1..] == Split(s[n + 1..], separators);
      CutOut(s, n);
    }
  }

  lemma CutOut(s: string, n: nat)
    requires n < |s|
    ensures s == s[..n] + ([s[n]] + s[n + 1..])
  {
  }

  /** What a piece names: nothing when blank. */
  function Entry(piece: string): Option<Result<string, Seb.Error>> {
    if Trim(piece) == "" then None else Some(NormalizeDomain(piece))
  }

  /** The entries all name domains, and these are what they name; or e is what is wrong with the first bad one. */
  predicate Names(entries: seq<Option<Result<string, Seb.Error>>>, r: Result<seq<string>, Seb.Error>) {
    match r
    case Ok(ds) =>
      && (forall i | 0 <= i < |entries| && entries[i].Some? :: entries[i].value.Ok? && entries[i].value.value in ds)
      && (forall d | d in ds :: Some(Ok(d)) in entries)
    case Err(e) =>
      exists i | 0 <= i < |entries| ::
        entries[i] == Some(Err(e)) && forall j | 0 <= j < i && entries[j].Some? :: entries[j].value.Ok?
  }

  function Extended(before: Result<seq<string>, Seb.Error>, entry: Option<Result<string, Seb.Error>>)
    : Result<seq<string>, Seb.Error>
  {
    match (before, entry)
    case (Err(e), _) => Err(e)
    case (Ok(ds), None) => Ok(ds)
    case (Ok(ds), Some(Ok(d))) => Ok(ds + [d])
    case (Ok(_), Some(Err(e))) => Err(e)
  }

  lemma OneMoreEntry(entries: seq<Option<Result<string, Seb.Error>>>, r: Result<seq<string>, Seb.Error>,
                     entry: Option<Result<string, Seb.Error>>)
    requires Names(entries, r)
    ensures Names(entries + [entry], Extended(r, entry))
  {
    var more := entries + [entry];
    assert forall i | 0 <= i < |entries| :: more[i] == entries[i];
    if r.Err? {
      var i :| 0 <= i < |entries| && entries[i] == Some(Err(r.error))
               && forall j | 0 <= j < i && entries[j].Some? :: entries[j].value.Ok?;
      assert more[i] == Some(Err(r.error));
    } else if entry.Some? && entry.value.Err? {
      assert more[|entries|] == Some(Err(entry.value.error));
    }
  }

  function Entries(f: string -> Option<Result<string, Seb.Error>>, pieces: seq<string>)
    : (r: seq<Option<Result<string, Seb.Error>>>)
    ensures |r| == |pieces| && forall i | 0 <= i < |r| :: r[i] == f(pieces[i])
  {
    seq(|pieces|, i requires 0 <= i < |pieces| => f(pieces[i]))
  }

  lemma EntriesOneMore(f: string -> Option<Result<string, Seb.Error>>, pieces: seq<string>)
    requires pieces != []
    ensures Entries(f, pieces) == Entries(f, pieces[..|pieces| - 1]) + [f(pieces[|pieces| - 1])]
  {
  }

  lemma PieceIsEntry(before: Result<seq<string>, Seb.Error>, piece: string)
    ensures WithPiece(before, piece) == Extended(before, Entry(piece))
  {
  }

  lemma LastPiece(pieces: seq<string>)
    requires pieces != []
    ensures Normalized(pieces) == WithPiece(Normalized(pieces[..|pieces| - 1]), pieces[|pieces| - 1])
  {
  }

  /** The list that pieces name, or what is wrong with the first that names none. */
  lemma {:induction false} PiecesName(pieces: seq<string>)
    ensures Names(Entries(Entry, pieces), Normalized(pieces))
  {
    if pieces == [] {
    } else {
      var n := |pieces| - 1;
      PiecesName(pieces[..n]);
      EntriesOneMore(Entry, pieces);
      LastPiece(pieces);
      PieceIsEntry(Normalized(pieces[..n]), pieces[n]);
      OneMoreEntry(Entries(Entry, pieces[..n]), Normalized(pieces[..n]), Entry(pieces[n]));
    }
  }

  /** The entries at these rising places are the domains. */
  predicate NamedInOrder(entries: seq<Option<Result<string, Seb.Error>>>, ds: seq<string>, places: seq<nat>) {
    && |places| == |ds|
    && (forall i | 0 <= i < |ds| :: places[i] < |entries| && entries[places[i]] == Some(Ok(ds[i])))
    && (forall i, j | 0 <= i < j < |places| :: places[i] < places[j])
  }

  lemma OneMorePlace(entries: seq<Option<Result<string, Seb.Error>>>, ds: seq<string>, before: seq<nat>,
                     entry: Option<Result<string, Seb.Error>>) returns (places: seq<nat>)
    requires NamedInOrder(entries, ds, before) && Extended(Ok(ds), entry).Ok?
    ensures NamedInOrder(entries + [entry], Extended(Ok(ds), entry).value, places)
  {
    places := if entry.Some? then before + [|entries|] else before;
  }

  /** And the list has them in the order of the pieces. */
  lemma {:induction false} PiecesInOrder(pieces: seq<string>) returns (places: seq<nat>)
    requires Normalized(pieces).Ok?
    ensures NamedInOrder(Entries(Entry, pieces), Normalized(pieces).value, places)
  {
    if pieces == [] {
      places := [];
    } else {
      var n := |pieces| - 1;
      LastPiece(pieces);
      PieceIsEntry(Normalized(pieces[..n]), pieces[n]);
      places := PiecesInOrder(pieces[..n]);
      EntriesOneMore(Entry, pieces);
      places := OneMorePlace(Entries(Entry, pieces[..n]), Normalized(pieces[..n]).value, places, Entry(pieces[n]));
    }
  }

  // ----- in which order ---------------------------------------------------------------------------------

  /** Each of kept is listed at its place, not before, and the places rise. */
  predicate InListedOrder(listed: seq<string>, kept: seq<string>, places: seq<nat>) {
    && |places| == |kept|
    && (forall i | 0 <= i < |kept| ::
          places[i] < |listed| && listed[places[i]] == kept[i] && kept[i] !in listed[..places[i]])
    && (forall i, j | 0 <= i < j < |places| :: places[i] < places[j])
  }

  lemma OneMoreListed(listed: seq<string>, last: string, kept: seq<string>, places: seq<nat>)
    requires InListedOrder(listed, kept, places)
    ensures InListedOrder(listed + [last], kept, places)
    ensures last !in listed ==> InListedOrder(listed + [last], kept + [last], places + [|listed|])
  {
    var more := listed + [last];
    assert more[..|listed|] == listed;
    forall i | 0 <= i < |kept|
      ensures more[places[i]] == kept[i] && kept[i] !in more[..places[i]]
    {
      assert more[..places[i]] == listed[..places[i]];
    }
  }

  /** Duplicates are dropped behind the first mention. */
  lemma {:induction false} DistinctInOrder(xs: seq<string>) returns (places: seq<nat>)
    ensures InListedOrder(xs, Distinct(xs), places)
  {
    if xs == [] {
      places := [];
    } else {
      var n := |xs| - 1;
      places := DistinctInOrder(xs[..n]);
      assert xs == xs[..n] + [xs[n]];
      OneMoreListed(xs[..n], xs[n], Distinct(xs[..n]), places);
      if xs[n] !in Distinct(xs[..n]) {
        places := places + [n];
      }
    }
  }

  lemma {:induction false} TopsInOrder(domains: seq<string>, n: nat) returns (places: seq<nat>)
    requires n <= |domains|
    ensures InListedOrder(domains[..n], TopsAmong(domains, n), places)
  {
    if n == 0 {
      places := [];
    } else {
      places := TopsInOrder(domains, n - 1);
      assert domains[..n] == domains[..n - 1] + [domains[n - 1]];
      OneMoreListed(domains[..n - 1], domains[n - 1], TopsAmong(domains, n - 1), places);
      if IsKept(domains, n - 1) {
        places := places + [n - 1];
      }
    }
  }

  /** Reducing keeps the order in which the domains are first listed. */
  lemma ReducedInOrder(domains: seq<string>) returns (places: seq<nat>)
    ensures InListedOrder(domains, Reduced(domains), places)
  {
    places := TopsInOrder(domains, |domains|);
    assert domains[..|domains|] == domains;
  }

  lemma EffectiveParts(spec: ExamSpec)
    requires EffectiveDomains(spec).Ok?
    ensures UrlHost(spec.startUrl).Ok? && NormalizedAll(spec.allowedDomains).Ok?
    ensures EffectiveDomains(spec).value
         == Reduced([UrlHost(spec.startUrl).value] + NormalizedAll(spec.allowedDomains).value)
  {
  }

  /** The start host comes first, then the listed domains as they are listed, less what another one covers. */
  lemma EffectiveInOrder(spec: ExamSpec) returns (listed: seq<string>, places: seq<nat>)
    requires EffectiveDomains(spec).Ok?
    ensures UrlHost(spec.startUrl).Ok? && AllOk(Results(NormalizeDomain, spec.allowedDomains), listed)
    ensures InListedOrder([UrlHost(spec.startUrl).value] + listed, EffectiveDomains(spec).value, places)
  {
    EffectiveParts(spec);
    listed := NormalizedAll(spec.allowedDomains).value;
    NormalizedEach(spec.allowedDomains);
    places := ReducedInOrder([UrlHost(spec.startUrl).value] + listed);
  }

  /** And the gate's host comes last, if no other domain covers it. */
  lemma RuleDomainsInOrder(spec: ExamSpec, opts: ExamSettings.SebOptions)
    requires ExamSettings.RuleDomains(spec, opts).Ok?
    ensures
      var domains, gate := EffectiveDomains(spec).value, opts.startUrlOverride;
      ExamSettings.RuleDomains(spec, opts).value
      == if gate.Some? && !Admits(domains, UrlHost(gate.value).value) then domains + [UrlHost(gate.value).value]
         else domains
  {
    if opts.startUrlOverride.Some? {
      UrlHostIsDomain(opts.startUrlOverride.value);
      NormalizeKeepsDomain(UrlHost(opts.startUrlOverride.value).value);
    }
  }
}
