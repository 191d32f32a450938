/** When the start URL that is written for an exam is let through by the rules written with it. */
module StartUrlRule {
  import opened Strings
  import opened Seb
  import opened UrlRule
  import opened ExamSettings

  // ----- the parts of an accepted URL ----------------------------------------------------

  function RestOf(url: string): string
    requires UrlHost(url).Ok?
  {
    AfterScheme(Trim(url)).value
  }

  function AuthorityOf(url: string): string
    requires UrlHost(url).Ok?
  {
    Until(RestOf(url), AUTHORITY_END)
  }

  /** The host as it is written in the URL, before it is normalised. */
  function HostText(url: string): string
    requires UrlHost(url).Ok?
  {
    WrittenHost(url).value
  }

  /** What follows the authority. */
  function TailOf(url: string): string
    requires UrlHost(url).Ok?
  {
    RestOf(url)[|AuthorityOf(url)|..]
  }

  lemma HostTextNormalizes(url: string)
    requires UrlHost(url).Ok?
    ensures NormalizeDomain(HostText(url)) == UrlHost(url)
  {
    var host := WrittenHost(url).value;
    var d := NormalizeDomain(host);
    assert UrlHost(url) == match d case Ok(_) => d case Err(e) => Err(StartUrlHost(e));
  }

  lemma HostTextIsAuthority(url: string)
    requires UrlHost(url).Ok?
    ensures '@' !in AuthorityOf(url) && WithoutPort(AuthorityOf(url)) == Some(HostText(url))
  {
  }

  // ----- folding keeps the shape of a URL ---------------------------------------------------

  lemma FoldConcat(a: string, b: string)
    ensures Fold(a + b) == Fold(a) + Fold(b)
  {
  }

  lemma FoldUntil(rest: string)
    ensures Until(Fold(rest), AUTHORITY_END) == Fold(Until(rest, AUTHORITY_END))
  {
    var r := Until(rest, AUTHORITY_END);
    forall i | 0 <= i < |r| ensures Fold(rest)[i] !in AUTHORITY_END {
      assert r[i] in r && rest[i] == r[i];
    }
    UntilUnique(Fold(rest), AUTHORITY_END, |r|);
  }

  lemma FoldLastColon(s: string)
    ensures LastColon(Fold(s)) == LastColon(s)
  {
    match LastColon(s)
    case None =>
      assert forall i | 0 <= i < |s| :: s[i] in s && Fold(s)[i] == FoldChar(s[i]);
    case Some(i) =>
      forall j | i < j < |s| ensures Fold(s)[j] != ':' {
        assert s[i + 1..][j - i - 1] == s[j];
        assert s[j] in s[i + 1..];
      }
      LastColonIs(Fold(s), i);
  }

  lemma FoldWithoutPort(s: string)
    requires WithoutPort(s).Some?
    ensures HostOf(Fold(s)) == Fold(WithoutPort(s).value)
  {
    FoldLastColon(s);
    if LastColon(s).Some? {
      FoldParts(s, LastColon(s).value);
    }
  }

  lemma FoldParts(s: string, i: nat)
    requires i < |s|
    ensures Fold(s)[..i] == Fold(s[..i])
    ensures Fold(s)[i + 1..] == Fold(s[i + 1..])
    ensures IsDigits(s[i + 1..]) ==> IsDigits(Fold(s[i + 1..]))
  {
  }

  lemma AllowsHttp(d: string, scheme: string, rest: string)
    requires scheme == "http" || scheme == "https"
    ensures Allows(d, scheme + "://" + rest) <==> AllowsRest(d, rest)
  {
    var url := scheme + "://" + rest;
    CutConcat(scheme + "://", rest);
    assert url[..|scheme + "://"|] == scheme + "://";
    if Allows(d, url) {
      var s :| s in ["http", "https", "ws", "wss"] && StartsWith(url, s + "://") && AllowsRest(d, url[|s| + 3..]);
      OneScheme(url, s, scheme);
    }
  }

  lemma OneScheme(url: string, s: string, t: string)
    requires s in ["http", "https", "ws", "wss"] && (t == "http" || t == "https")
    requires StartsWith(url, s + "://") && StartsWith(url, t + "://")
    ensures s == t
  {
    assert url[0] == (s + "://")[0] == (t + "://")[0];
    assert url[4] == (t + "://")[4];
    assert |s| >= 4 ==> url[4] == (s + "://")[4];
  }

  lemma SchemeFolds()
    ensures Fold("https://") == "https://" && Fold("http://") == "http://"
  {
  }

  lemma SchemeOf(t: string) returns (scheme: string)
    requires AfterScheme(t).Some?
    ensures scheme == "http" || scheme == "https"
    ensures t == scheme + "://" + AfterScheme(t).value
  {
    if StartsWith(t, "https://") {
      scheme := "https";
      CutAt(t, 8);
    } else {
      scheme := "http";
      CutAt(t, 7);
    }
  }

  lemma FoldUrl(scheme: string, rest: string)
    requires scheme == "http" || scheme == "https"
    ensures Fold(scheme + "://" + rest) == scheme + "://" + Fold(rest)
  {
    SchemeFolds();
    FoldConcat(scheme + "://", rest);
  }

  lemma RestMatchesHost(d: string, rest: string)
    requires '@' !in Until(rest, AUTHORITY_END) && WithoutPort(Until(rest, AUTHORITY_END)).Some?
    ensures AllowsRest(d, Fold(rest)) <==>
            Covered(Fold(WithoutPort(Until(rest, AUTHORITY_END)).value), d)
                && '\n' !in rest[|Until(rest, AUTHORITY_END)|..]
  {
    var authority := Until(rest, AUTHORITY_END);
    var tail := rest[|authority|..];
    FoldUntil(rest);
    FoldWithoutPort(authority);
    FoldKeepsAt(authority);
    assert Fold(rest)[|authority|..] == Fold(tail);
    FoldKeepsNewline(tail);
  }

  /** Which rules match an accepted URL: those for domains that cover the host as written. */
  lemma RuleMatchesHost(d: string, url: string)
    requires IsDomain(d) && UrlHost(url).Ok?
    ensures RuleMatches(d, Trim(url)) <==> Covered(Fold(HostText(url)), d) && '\n' !in TailOf(url)
  {
    var scheme := SchemeOf(Trim(url));
    RuleMatchesAllowed(d, Trim(url));
    FoldUrl(scheme, RestOf(url));
    AllowsHttp(d, scheme, Fold(RestOf(url)));
    HostTextIsAuthority(url);
    RestMatchesHost(d, RestOf(url));
  }

  lemma FoldKeepsAt(s: string)
    ensures '@' in Fold(s) <==> '@' in s
  {
    assert forall i | 0 <= i < |s| :: Fold(s)[i] == '@' <==> s[i] == '@';
  }

  lemma FoldKeepsNewline(s: string)
    ensures '\n' in Fold(s) <==> '\n' in s
  {
    assert forall i | 0 <= i < |s| :: Fold(s)[i] == '\n' <==> s[i] == '\n';
  }

  // ----- the host as written against the normalised host -----------------------------------------

  lemma TrimParts(text: string) returns (lead: string, spaces: string)
    ensures text == lead + Trim(text) + spaces
    ensures lead == "" || IsSpace(lead[|lead| - 1])
    ensures spaces == "" || IsSpace(spaces[|spaces| - 1])
  {
    lead := FrontSpaces(text);
    spaces := EndSpaces(TrimStart(text));
    ConcatThree(lead, Trim(text), spaces);
  }

  lemma FrontSpaces(text: string) returns (lead: string)
    ensures text == lead + TrimStart(text)
    ensures lead == "" || IsSpace(lead[|lead| - 1])
  {
    var n := |text| - |TrimStart(text)|;
    lead := text[..n];
    CutAt(text, n);
  }

  lemma EndSpaces(text: string) returns (spaces: string)
    ensures text == TrimEnd(text) + spaces
    ensures spaces == "" || IsSpace(spaces[|spaces| - 1])
  {
    spaces := text[|TrimEnd(text)|..];
    CutAt(text, |TrimEnd(text)|);
  }

  lemma BareParts(t: string) returns (before: string, dots: string)
    ensures t == before + BareName(t) + dots
    ensures before == "" || before[|before| - 1] == '.'
    ensures dots == "" || dots[|dots| - 1] == '.'
  {
    var rest;
    before, rest := FrontParts(t);
    var name := DropEndDots(rest);
    dots := EndParts(rest, name);
    Rejoin(t, before, rest, name, dots);
  }

  lemma Rejoin(t: string, before: string, rest: string, name: string, dots: string)
    requires t == before + rest && rest == name + dots
    ensures t == before + name + dots
  {
  }

  lemma FrontParts(t: string) returns (before: string, rest: string)
    ensures rest == DropDots(DropStars(t)) && t == before + rest
    ensures before == "" || before[|before| - 1] == '.'
  {
    StarsCut(t);
    DotsCut(DropStars(t));
    rest := DropDots(DropStars(t));
    before := CutFront(t, DropStars(t), rest);
  }

  /** a is what is left of t, cut off after a dot if anything was cut off. */
  predicate CutAfterDot(t: string, a: string) {
    |a| <= |t| && a == t[|t| - |a|..] && (|a| < |t| ==> t[|t| - |a| - 1] == '.')
  }

  lemma StarsCut(t: string)
    ensures CutAfterDot(t, DropStars(t))
  {
  }

  lemma DotsCut(t: string)
    ensures CutAfterDot(t, DropDots(t))
  {
  }

  lemma CutFront(t: string, a: string, b: string) returns (before: string)
    requires CutAfterDot(t, a) && CutAfterDot(a, b)
    ensures t == before + b
    ensures before == "" || before[|before| - 1] == '.'
  {
    before := t[..|t| - |b|];
    CutAt(t, |before|);
    assert t[|before|..] == b;
  }

  lemma EndParts(s: string, r: string) returns (dots: string)
    requires |r| <= |s| && r == s[..|r|] && (|r| < |s| ==> s[|s| - 1] == '.')
    ensures s == r + dots
    ensures dots == "" || dots[|dots| - 1] == '.'
  {
    dots := s[|r|..];
    CutAt(s, |r|);
  }

  /** A written host is its name, with the dots and spaces that normalising strips around it. */
  lemma NamePlace(text: string) returns (before: string, dots: string, spaces: string)
    ensures text == before + BareName(Trim(text)) + (dots + spaces)
    ensures before == "" || before[|before| - 1] == '.' || IsSpace(before[|before| - 1])
    ensures dots == "" || dots[|dots| - 1] == '.'
    ensures spaces == "" || IsSpace(spaces[|spaces| - 1])
  {
    var lead, b;
    lead, spaces := TrimParts(text);
    b, dots := BareParts(Trim(text));
    before := Around(text, lead, Trim(text), b, BareName(Trim(text)), dots, spaces);
  }

  lemma Around(text: string, lead: string, trimmed: string, b: string, name: string, dots: string, spaces: string)
    returns (before: string)
    requires text == lead + trimmed + spaces && trimmed == b + name + dots
    requires lead == "" || IsSpace(lead[|lead| - 1])
    requires b == "" || b[|b| - 1] == '.'
    ensures text == before + name + (dots + spaces)
    ensures before == "" || before[|before| - 1] == '.' || IsSpace(before[|before| - 1])
  {
    before := lead + b;
    Regroup(lead, b, name, dots, spaces);
    LastOfTwo(lead, b);
  }

  lemma LastOfTwo(a: string, b: string)
    ensures a + b != "" ==> (a + b)[|a + b| - 1] == if b != "" then b[|b| - 1] else a[|a| - 1]
  {
  }

  lemma Regroup(a: string, b: string, c: string, d: string, e: string)
    ensures a + (b + c + d) + e == a + b + c + (d + e)
  {
  }

  /** The name folds to the normalised host. */
  lemma NameFolds(name: string, host: string)
    requires IsDomain(host) && LowerAscii(name) == host
    ensures Fold(name) == host
  {
    DomainChars(host);
    forall i | 0 <= i < |name| ensures FoldChar(name[i]) == host[i] {
      assert LowerChar(name[i]) == host[i] && DomainChar(host[i]);
    }
  }

  /** The host as written ends in the normalised host, in any case, and what stands before the
      name is nothing or ends in a dot, or there is a rule for a parent of the host. */
  predicate HostIsReadable(text: string, host: string, hasParent: bool) {
    && text != "" && text[|text| - 1] != '.' && !IsSpace(text[|text| - 1])
    && (|text| <= |host| || text[|text| - |host| - 1] == '.' || hasParent)
  }

  predicate HasParentRule(domains: seq<string>, host: string) {
    exists d | d in domains :: d != host && Covered(host, d)
  }

  lemma FoldLast(text: string)
    requires text != ""
    ensures text[|text| - 1] == '.' || IsSpace(text[|text| - 1]) ==> !IsAlnum(Fold(text)[|text| - 1])
  {
  }

  lemma CoveredEndsAlnum(x: string, d: string)
    requires IsDomain(d) && Covered(x, d)
    ensures x != "" && IsAlnum(x[|x| - 1])
  {
    DomainChars(d);
    if x != d {
      assert x[|x| - 1] == ("." + d)[|d|];
    }
  }

  /** A name with something other than a dot before it is covered only by proper parents of the name. */
  lemma CoveredAfterSpace(before: string, host: string, d: string)
    requires IsDomain(d) && before != "" && !DomainChar(before[|before| - 1])
    ensures Covered(before + host, d) <==> d != host && Covered(host, d)
  {
    DomainChars(d);
    var x, dot := before + host, "." + d;
    assert x[|before| - 1] == before[|before| - 1];
    if |dot| <= |host| {
      assert x[|x| - |dot|..] == host[|host| - |dot|..];
    } else if |dot| <= |x| {
      assert x[|x| - |dot|..][|dot| - |host| - 1] == before[|before| - 1];
    }
  }

  lemma CoveredAfterDot(before: string, host: string, d: string)
    requires before == "" || before[|before| - 1] == '.'
    requires Covered(host, d)
    ensures Covered(before + host, d)
  {
    CoveredByEnd(before, host);
    CoveredTransitive(before + host, host, d);
  }

  /** Some domain covers the host as written exactly when it is readable. */
  lemma ReadableIsCovered(text: string, host: string, domains: seq<string>)
    requires LowerAscii(BareName(Trim(text))) == host && IsDomain(host)
    requires (forall d | d in domains :: IsDomain(d)) && Admits(domains, host)
    ensures Admits(domains, Fold(text)) <==> HostIsReadable(text, host, HasParentRule(domains, host))
  {
    var before, dots, spaces := NamePlace(text);
    var name := BareName(Trim(text));
    NameFolds(name, host);
    if dots + spaces != "" {
      EndChar(text, before + name, dots, spaces);
      NotCoveredWithEnd(text, domains);
    } else {
      NoEnd(before + name, dots + spaces);
      ReadableWhole(before, name, host, domains);
    }
  }

  lemma NoEnd(start: string, end: string)
    requires end == ""
    ensures start + end == start
  {
  }

  lemma ReadableWhole(before: string, name: string, host: string, domains: seq<string>)
    requires IsDomain(host) && (forall d | d in domains :: IsDomain(d)) && Admits(domains, host)
    requires Fold(name) == host
    requires before == "" || before[|before| - 1] == '.' || IsSpace(before[|before| - 1])
    ensures Admits(domains, Fold(before + name)) <==> HostIsReadable(before + name, host, HasParentRule(domains, host))
  {
    ReadableWithoutEnd(before, host, domains);
    FoldConcat(before, name);
    ReadableName(before, name, host, domains);
  }

  lemma EndChar(text: string, start: string, dots: string, spaces: string)
    requires text == start + (dots + spaces) && dots + spaces != ""
    requires dots == "" || dots[|dots| - 1] == '.'
    requires spaces == "" || IsSpace(spaces[|spaces| - 1])
    ensures text != "" && (text[|text| - 1] == '.' || IsSpace(text[|text| - 1]))
  {
    assert text[|text| - 1] == if spaces != "" then spaces[|spaces| - 1] else dots[|dots| - 1];
  }

  lemma NotCoveredWithEnd(text: string, domains: seq<string>)
    requires forall d | d in domains :: IsDomain(d)
    requires text != "" && (text[|text| - 1] == '.' || IsSpace(text[|text| - 1]))
    ensures !Admits(domains, Fold(text))
  {
    FoldLast(text);
    forall d | d in domains ensures !Covered(Fold(text), d) {
      if Covered(Fold(text), d) {
        CoveredEndsAlnum(Fold(text), d);
      }
    }
  }

  lemma ReadableName(before: string, name: string, host: string, domains: seq<string>)
    requires IsDomain(host) && Fold(name) == host
    ensures HostIsReadable(before + name, host, HasParentRule(domains, host)) <==>
            before == "" || before[|before| - 1] == '.' || HasParentRule(domains, host)
  {
    FoldConcat(before, name);
    CutConcat(Fold(before), host);
    LastIsAlnum(before + name, host);
    NameLength(name, host);
    ReadableShape(before, name, host, domains);
  }

  lemma NameLength(name: string, host: string)
    requires Fold(name) == host
    ensures |name| == |host|
  {
  }

  lemma ReadableShape(before: string, name: string, host: string, domains: seq<string>)
    requires |name| == |host|
    requires
      var text := before + name;
      text != "" && text[|text| - 1] != '.' && !IsSpace(text[|text| - 1])
    ensures HostIsReadable(before + name, host, HasParentRule(domains, host)) <==>
            before == "" || before[|before| - 1] == '.' || HasParentRule(domains, host)
  {
    BeforeName(before, name);
  }

  lemma BeforeName(before: string, name: string)
    ensures |before + name| <= |name| <==> before == ""
    ensures before != "" ==> (before + name)[|before + name| - |name| - 1] == before[|before| - 1]
  {
  }

  lemma LastIsAlnum(text: string, host: string)
    requires IsDomain(host) && |text| >= |host| && Fold(text)[|text| - |host|..] == host
    ensures text != "" && text[|text| - 1] != '.' && !IsSpace(text[|text| - 1])
  {
    DomainEnds(host);
    assert Fold(text)[|text| - 1] == Fold(text)[|text| - |host|..][|host| - 1];
    FoldLast(text);
  }

  lemma ReadableWithoutEnd(before: string, host: string, domains: seq<string>)
    requires IsDomain(host) && (forall d | d in domains :: IsDomain(d)) && Admits(domains, host)
    requires before == "" || before[|before| - 1] == '.' || IsSpace(before[|before| - 1])
    ensures Admits(domains, Fold(before) + host) <==>
            before == "" || before[|before| - 1] == '.' || HasParentRule(domains, host)
  {
    if before == "" || before[|before| - 1] == '.' {
      AdmitsAfterDot(Fold(before), host, domains);
    } else {
      AdmitsAfterSpace(before, host, domains);
    }
  }

  lemma AdmitsAfterDot(before: string, host: string, domains: seq<string>)
    requires Admits(domains, host) && (before == "" || before[|before| - 1] == '.')
    ensures Admits(domains, before + host)
  {
    var d :| d in domains && Covered(host, d);
    CoveredAfterDot(before, host, d);
  }

  lemma AdmitsAfterSpace(before: string, host: string, domains: seq<string>)
    requires IsDomain(host) && forall d | d in domains :: IsDomain(d)
    requires before != "" && IsSpace(before[|before| - 1])
    ensures Admits(domains, Fold(before) + host) <==> HasParentRule(domains, host)
  {
    var folded := Fold(before);
    assert !DomainChar(folded[|folded| - 1]);
    forall d | d in domains ensures Covered(folded + host, d) <==> d != host && Covered(host, d) {
      CoveredAfterSpace(folded, host, d);
    }
  }

  // ----- parents of the host among the exam's domains ------------------------------------------------

  predicate IsParent(domain: Result<string, Error>, host: string) {
    domain.Ok? && domain.value != host && Covered(host, domain.value)
  }

  /** The host of the instructor's start URL or a listed domain is a proper parent of the host. */
  predicate HasParent(spec: ExamSpec, host: string) {
    IsParent(UrlHost(spec.startUrl), host) || ListsParent(NormalizeDomain, spec.allowedDomains, host)
  }

  /** Read with f, one of the listed texts names a proper parent of the host. */
  predicate ListsParent(f: string -> Result<string, Error>, listed: seq<string>, host: string) {
    exists i | 0 <= i < |listed| :: IsParent(f(listed[i]), host)
  }

  lemma {:induction false} NormalizedEach(listed: seq<string>)
    requires NormalizedAll(listed).Ok?
    ensures AllOk(Results(NormalizeDomain, listed), NormalizedAll(listed).value)
  {
    if listed == [] {
    } else {
      var n := |listed| - 1;
      NormalizedOneMore(listed);
      NormalizedEach(listed[..n]);
      ResultsOneMore(NormalizeDomain, listed);
      OneMoreOk(Results(NormalizeDomain, listed[..n]), NormalizedAll(listed[..n]).value,
                NormalizeDomain(listed[n]).value);
    }
  }

  function Results(f: string -> Result<string, Error>, listed: seq<string>): (r: seq<Result<string, Error>>)
    ensures |r| == |listed| && forall i | 0 <= i < |r| :: r[i] == f(listed[i])
  {
    seq(|listed|, i requires 0 <= i < |listed| => f(listed[i]))
  }

  predicate AllOk(results: seq<Result<string, Error>>, ds: seq<string>) {
    |results| == |ds| && forall i | 0 <= i < |ds| :: results[i] == Ok(ds[i])
  }

  lemma OneMoreOk(results: seq<Result<string, Error>>, ds: seq<string>, d: string)
    requires AllOk(results, ds)
    ensures AllOk(results + [Ok(d)], ds + [d])
  {
  }

  lemma ResultsOneMore(f: string -> Result<string, Error>, listed: seq<string>)
    requires listed != []
    ensures Results(f, listed) == Results(f, listed[..|listed| - 1]) + [f(listed[|listed| - 1])]
  {
  }

  lemma NormalizedOneMore(listed: seq<string>)
    requires listed != [] && NormalizedAll(listed).Ok?
    ensures
      var n := |listed| - 1;
      && NormalizedAll(listed[..n]).Ok? && NormalizeDomain(listed[n]).Ok?
      && NormalizedAll(listed).value == NormalizedAll(listed[..n]).value + [NormalizeDomain(listed[n]).value]
  {
  }

  /** The parent of the host that reducing keeps. */
  lemma ParentKept(all: seq<string>, d: string, host: string)
    requires d in all && d != host && Covered(host, d)
    ensures HasParentRule(Reduced(all), host)
  {
    var top := TopAbove(all, d);
    ReducedMembers(all);
    CoveredTransitive(host, d, top);
    CoveredShrinks(host, d);
    assert top in Reduced(all) && top != host;
  }

  lemma ReducedParents(all: seq<string>, host: string)
    ensures HasParentRule(Reduced(all), host) <==> HasParentRule(all, host)
  {
    ReducedMembers(all);
    if d :| d in all && d != host && Covered(host, d) {
      ParentKept(all, d, host);
    }
  }

  lemma FirstOrRest(first: string, rest: seq<string>, host: string)
    ensures HasParentRule([first] + rest, host)
       <==> (first != host && Covered(host, first)) || HasParentRule(rest, host)
  {
    assert forall d :: d in [first] + rest <==> d == first || d in rest;
  }

  lemma ListedParents(listed: seq<string>, host: string)
    requires NormalizedAll(listed).Ok?
    ensures HasParentRule(NormalizedAll(listed).value, host) <==> ListsParent(NormalizeDomain, listed, host)
  {
    NormalizedEach(listed);
    SomeResult(Results(NormalizeDomain, listed), NormalizedAll(listed).value, host);
    ListsSomeResult(NormalizeDomain, listed, host);
  }

  lemma ListsSomeResult(f: string -> Result<string, Error>, listed: seq<string>, host: string)
    ensures ListsParent(f, listed, host) <==> exists i | 0 <= i < |listed| :: IsParent(Results(f, listed)[i], host)
  {
    assert forall i | 0 <= i < |listed| :: Results(f, listed)[i] == f(listed[i]);
  }

  lemma SomeResult(results: seq<Result<string, Error>>, ds: seq<string>, host: string)
    requires AllOk(results, ds)
    ensures HasParentRule(ds, host) <==> exists i | 0 <= i < |results| :: IsParent(results[i], host)
  {
    if d :| d in ds && d != host && Covered(host, d) {
      var i :| 0 <= i < |ds| && ds[i] == d;
      assert IsParent(results[i], host);
    }
    if i :| 0 <= i < |results| && IsParent(results[i], host) {
      assert ds[i] in ds;
    }
  }

  lemma AllParents(spec: ExamSpec, host: string)
    requires AllDomains(spec).Ok?
    ensures HasParentRule(AllDomains(spec).value, host) <==> HasParent(spec, host)
  {
    FirstOrRest(UrlHost(spec.startUrl).value, NormalizedAll(spec.allowedDomains).value, host);
    ListedParents(spec.allowedDomains, host);
  }

  /** Some rule is for a proper parent of the start host exactly when the exam names one. */
  lemma RuleParents(spec: ExamSpec, opts: SebOptions)
    requires RuleDomains(spec, opts).Ok? && UrlHost(RawStartUrl(spec, opts)).Ok?
    ensures
      var host := UrlHost(RawStartUrl(spec, opts)).value;
      HasParentRule(RuleDomains(spec, opts).value, host) <==> HasParent(spec, host)
  {
    var host := UrlHost(RawStartUrl(spec, opts)).value;
    RuleDomainsShape(spec, opts);
    ReducedParents(AllDomains(spec).value, host);
    AllParents(spec, host);
    OwnHostIsNoParent(EffectiveDomains(spec).value, host);
  }

  /** At most the host of the start URL itself is added to the exam's domains. */
  lemma RuleDomainsShape(spec: ExamSpec, opts: SebOptions)
    requires RuleDomains(spec, opts).Ok? && UrlHost(RawStartUrl(spec, opts)).Ok?
    ensures
      var domains := RuleDomains(spec, opts).value;
      && EffectiveDomains(spec).Ok?
      && (domains == EffectiveDomains(spec).value
          || domains == EffectiveDomains(spec).value + [UrlHost(RawStartUrl(spec, opts)).value])
  {
    match opts.startUrlOverride
    case None =>
    case Some(u) =>
      UrlHostIsDomain(u);
      NormalizeKeepsDomain(UrlHost(u).value);
  }

  lemma OwnHostIsNoParent(domains: seq<string>, host: string)
    ensures HasParentRule(domains + [host], host) <==> HasParentRule(domains, host)
  {
    if d :| d in domains && d != host && Covered(host, d) {
      assert d in domains + [host];
    }
  }

  /** When the start URL written for an exam is let through by one of the rules written with it:
      nothing after the host contains a newline, and the host is readable as written. */
  lemma StartUrlAdmitted(spec: ExamSpec, opts: SebOptions)
    requires RuleDomains(spec, opts).Ok?
    ensures
      var url := RawStartUrl(spec, opts);
      && UrlHost(url).Ok?
      && (LetThrough(RuleDomains(spec, opts).value, StartUrl(spec, opts)) <==>
          && '\n' !in TailOf(url)
          && HostIsReadable(HostText(url), UrlHost(url).value, HasParent(spec, UrlHost(url).value)))
  {
    RuleDomainsCoverStart(spec, opts);
    RuleParents(spec, opts);
    UrlAdmitted(RuleDomains(spec, opts).value, RawStartUrl(spec, opts));
  }

  /** Some rule matches the URL. */
  predicate LetThrough(domains: seq<string>, url: string) {
    exists d | d in domains :: RuleMatches(d, url)
  }

  lemma UrlAdmitted(domains: seq<string>, url: string)
    requires UrlHost(url).Ok? && (forall d | d in domains :: IsDomain(d)) && Admits(domains, UrlHost(url).value)
    ensures LetThrough(domains, Trim(url)) <==>
            && '\n' !in TailOf(url)
            && HostIsReadable(HostText(url), UrlHost(url).value, HasParentRule(domains, UrlHost(url).value))
  {
    UrlHostIsDomain(url);
    HostTextIsName(url);
    ReadableIsCovered(HostText(url), UrlHost(url).value, domains);
    SomeRuleMatches(domains, url);
  }

  lemma HostTextIsName(url: string)
    requires UrlHost(url).Ok?
    ensures LowerAscii(BareName(Trim(HostText(url)))) == UrlHost(url).value
  {
    HostTextNormalizes(url);
    HostTextIsNoUrl(url);
  }

  lemma SomeRuleMatches(domains: seq<string>, url: string)
    requires (forall d | d in domains :: IsDomain(d)) && UrlHost(url).Ok?
    ensures LetThrough(domains, Trim(url)) <==> Admits(domains, Fold(HostText(url))) && '\n' !in TailOf(url)
  {
    forall d | d in domains
      ensures RuleMatches(d, Trim(url)) <==> Covered(Fold(HostText(url)), d) && '\n' !in TailOf(url)
    {
      RuleMatchesHost(d, url);
    }
  }

  lemma HostTextIsNoUrl(url: string)
    requires UrlHost(url).Ok?
    ensures !Contains(Trim(HostText(url)), "://")
  {
    var text, authority := HostText(url), AuthorityOf(url);
    HostTextIsAuthority(url);
    NotInPrefix(text, authority, '/');
    NoSlashNoUrl(text);
  }

  lemma NotInPrefix(s: string, t: string, c: char)
    requires |s| <= |t| && s == t[..|s|] && c !in t
    ensures c !in s
  {
  }

  lemma NoSlashNoUrl(text: string)
    requires '/' !in text
    ensures !Contains(Trim(text), "://")
  {
    var lead, spaces := TrimParts(text);
    if Contains(Trim(text), "://") {
      ContainsSlash(Trim(text));
    }
  }

  lemma {:induction false} ContainsSlash(s: string)
    requires Contains(s, "://")
    ensures '/' in s
  {
    if StartsWith(s, "://") {
      assert s[1] == s[..3][1];
    } else {
      ContainsSlash(s[1..]);
    }
  }
}
