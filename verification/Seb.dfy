/** Domain lists: normalising, reducing and turning them into URL rules. */
module Seb {
  import opened Strings

  const MAX_DOMAINS := 64

  datatype Error =
    | NotHttps
    | UserInfo
    | BadPort
    | StartUrlHost(cause: Error)
    | EmptyDomain
    | TooLong(domain: string)
    | NotADomain(domain: string)
    | NeedsDot(domain: string)
    | TooManyDomains

  datatype ExamSpec = ExamSpec(startUrl: string, allowedDomains: seq<string>, allowQuit: bool, accessCode: string)

  // ----- reading hosts and domains ---------------------------------------------

  const AUTHORITY_END := {'/', '?', '#'}

  function AfterScheme(url: string): (r: Option<string>)
    ensures r.Some? ==> |r.value| < |url|
  {
    if StartsWith(url, "https://") then Some(url[8..])
    else if StartsWith(url, "http://") then Some(url[7..])
    else None
  }

  /** Where the last colon stands. */
  function LastColon(s: string): (r: Option<nat>)
    ensures r.None? <==> ':' !in s
    ensures r.Some? ==> r.value < |s| && s[r.value] == ':' && ':' !in s[r.value + 1..]
  {
    if s == "" then None
    else if s[|s| - 1] == ':' then Some(|s| - 1)
    else
      var r := LastColon(s[..|s| - 1]);
      assert s == s[..|s| - 1] + [s[|s| - 1]];
      r
  }

  /** Drops a port from an authority; None when what follows the last colon is not one. */
  function WithoutPort(authority: string): (r: Option<string>)
    ensures r.Some? ==> |r.value| <= |authority| && r.value == authority[..|r.value|]
  {
    match LastColon(authority)
    case None => Some(authority)
    case Some(i) =>
      var port := authority[i + 1..];
      if port != "" && IsDigits(port) then Some(authority[..i]) else None
  }

  /** The host as it is written in a URL. */
  function WrittenHost(url: string): (r: Result<string, Error>)
    ensures r.Ok? ==> |r.value| < |url|
  {
    match AfterScheme(Trim(url))
    case None => Err(NotHttps)
    case Some(rest) =>
      var authority := Until(rest, AUTHORITY_END);
      if '@' in authority then Err(UserInfo)
      else
        match WithoutPort(authority)
        case None => Err(BadPort)
        case Some(host) => Ok(host)
  }

  function UrlHost(url: string): (r: Result<string, Error>)
    decreases |url|, 0
  {
    match WrittenHost(url)
    case Err(e) => Err(e)
    case Ok(host) =>
      match NormalizeDomain(host)
      case Ok(d) => Ok(d)
      case Err(e) => Err(StartUrlHost(e))
  }

  function NormalizeDomain(input: string): (r: Result<string, Error>)
    decreases |input|, 1
  {
    var d := Trim(input);
    if Contains(d, "://") then UrlHost(d)
    else CheckDomain(LowerAscii(BareName(d)))
  }

  /** The name without leading `*.` and dots and without trailing dots. */
  function BareName(d: string): (r: string)
    ensures |r| <= |d|
  {
    DropEndDots(DropDots(DropStars(d)))
  }

  function DropStars(s: string): (r: string)
    ensures |r| <= |s| && r == s[|s| - |r|..]
    ensures |r| < |s| ==> s[|s| - |r| - 1] == '.'
  {
    if StartsWith(s, "*.") then DropStars(s[2..]) else s
  }

  function DropDots(s: string): (r: string)
    ensures |r| <= |s| && r == s[|s| - |r|..]
    ensures |r| < |s| ==> s[|s| - |r| - 1] == '.'
    ensures r != "" ==> r[0] != '.'
  {
    if s != "" && s[0] == '.' then DropDots(s[1..]) else s
  }

  function DropEndDots(s: string): (r: string)
    ensures |r| <= |s| && r == s[..|r|]
    ensures |r| < |s| ==> s[|s| - 1] == '.'
    ensures r != "" ==> r[|r| - 1] != '.'
  {
    if s != "" && s[|s| - 1] == '.' then DropEndDots(s[..|s| - 1]) else s
  }

  function CheckDomain(d: string): (r: Result<string, Error>)
    ensures r.Ok? <==> IsHostName(d)
    ensures r.Ok? ==> r.value == d
  {
    if d == "" then Err(EmptyDomain)
    else if Utf8Length(d) > 253 then Err(TooLong(d))
    else if !LabelsOk(d) then Err(NotADomain(d))
    else if '.' !in d && d != "localhost" then Err(NeedsDot(d))
    else Ok(d)
  }

  predicate IsHostName(d: string) {
    d != "" && Utf8Length(d) <= 253 && LabelsOk(d) && ('.' in d || d == "localhost")
  }

  predicate IsAlnum(c: char) {
    '0' <= c <= '9' || 'a' <= c <= 'z' || 'A' <= c <= 'Z'
  }

  predicate LabelOk(part: string) {
    && part != ""
    && |part| <= 63
    && part[0] != '-'
    && part[|part| - 1] != '-'
    && forall c | c in part :: IsAlnum(c) || c == '-'
  }

  /** Every part between dots is a DNS label. */
  predicate LabelsOk(d: string) {
    var part := Until(d, {'.'});
    LabelOk(part) && (|part| == |d| || LabelsOk(d[|part| + 1..]))
  }

  // ----- what a normalised domain looks like -------------------------------------

  /** The domains that normalising accepts and returns. */
  predicate IsDomain(d: string) {
    IsHostName(d) && LowerAscii(d) == d
  }

  predicate DomainChar(c: char) {
    '0' <= c <= '9' || 'a' <= c <= 'z' || c == '-' || c == '.'
  }

  lemma {:induction false} LabelChars(d: string)
    requires LabelsOk(d)
    ensures d != "" && IsAlnum(d[0]) && IsAlnum(d[|d| - 1])
    ensures forall i | 0 <= i < |d| :: IsAlnum(d[i]) || d[i] == '-' || d[i] == '.'
  {
    var part := Until(d, {'.'});
    assert forall i | 0 <= i < |part| :: d[i] == part[i] && part[i] in part;
    if |part| == |d| {
    } else {
      var rest := d[|part| + 1..];
      LabelChars(rest);
      assert forall i | |part| < i < |d| :: d[i] == rest[i - |part| - 1];
    }
  }

  lemma DomainChars(d: string)
    requires IsDomain(d)
    ensures d != "" && IsAlnum(d[0]) && IsAlnum(d[|d| - 1])
    ensures forall i | 0 <= i < |d| :: DomainChar(d[i])
  {
    LabelChars(d);
    assert forall i | 0 <= i < |d| :: LowerChar(d[i]) == d[i];
  }

  lemma DomainEnds(d: string)
    requires IsDomain(d)
    ensures d != "" && IsAlnum(d[0]) && IsAlnum(d[|d| - 1])
  {
    DomainChars(d);
  }

  lemma DomainIsTrimmed(d: string)
    requires IsDomain(d)
    ensures Trim(d) == d
  {
    DomainEnds(d);
    assert !IsSpace(d[0]) && !IsSpace(d[|d| - 1]);
  }

  lemma DomainIsBare(d: string)
    requires IsDomain(d)
    ensures !Contains(d, "://") && BareName(d) == d
  {
    DomainEnds(d);
    DomainHasNoColon(d);
    NoColonNoUrl(d);
    BareAlready(d);
  }

  lemma DomainHasNoColon(d: string)
    requires IsDomain(d)
    ensures forall i | 0 <= i < |d| :: d[i] != ':'
  {
    DomainChars(d);
  }

  lemma NoColonNoUrl(s: string)
    requires forall i | 0 <= i < |s| :: s[i] != ':'
    ensures !Contains(s, "://")
  {
    if Contains(s, "://") {
      ContainsFirst(s, "://");
    }
  }

  /** Without a star or dot in front and a dot at the end there is nothing to drop. */
  lemma BareAlready(d: string)
    requires d != "" && d[0] != '*' && d[0] != '.' && d[|d| - 1] != '.'
    ensures BareName(d) == d
  {
    NoStars(d);
    assert DropDots(d) == d;
    assert DropEndDots(d) == d;
  }

  lemma NoStars(d: string)
    requires d != "" && d[0] != '*'
    ensures DropStars(d) == d
  {
    assert !StartsWith(d, "*.") by { assert d[0] != "*."[0]; }
  }

  /** Normalising returns a domain, and leaves the domains it returns alone. */
  lemma {:induction false} NormalizeDomainIsDomain(input: string)
    ensures NormalizeDomain(input).Ok? ==> IsDomain(NormalizeDomain(input).value)
    decreases |input|, 1
  {
    var d := Trim(input);
    if Contains(d, "://") {
      UrlHostIsDomain(d);
    } else {
      LowerTwice(BareName(d));
    }
  }

  lemma LowerTwice(s: string)
    ensures LowerAscii(LowerAscii(s)) == LowerAscii(s)
  {
  }

  lemma NormalizeKeepsDomain(d: string)
    ensures IsDomain(d) <==> NormalizeDomain(d) == Ok(d)
  {
    if IsDomain(d) {
      DomainIsTrimmed(d);
      DomainIsBare(d);
    } else {
      NormalizeDomainIsDomain(d);
    }
  }

  lemma {:induction false} UrlHostIsDomain(url: string)
    ensures UrlHost(url).Ok? ==> IsDomain(UrlHost(url).value)
    decreases |url|, 0
  {
    if WrittenHost(url).Err? {
    } else {
      NormalizeDomainIsDomain(WrittenHost(url).value);
    }
  }

  // ----- lists of domains ----------------------------------------------------------

  const LIST_SEPARATORS := {'\n', ',', ' ', '\t'}

  /** The list after one more piece. */
  function WithPiece(before: Result<seq<string>, Error>, piece: string): Result<seq<string>, Error> {
    match before
    case Err(e) => Err(e)
    case Ok(ds) =>
      if Trim(piece) == "" then Ok(ds)
      else match NormalizeDomain(piece)
           case Ok(d) => Ok(ds + [d])
           case Err(e) => Err(e)
  }

  /** The domains named by the non-blank pieces, or the first error. */
  function Normalized(pieces: seq<string>): Result<seq<string>, Error> {
    if pieces == [] then Ok([])
    else WithPiece(Normalized(pieces[..|pieces| - 1]), pieces[|pieces| - 1])
  }

  function Distinct(xs: seq<string>): (r: seq<string>)
    ensures forall i, j | 0 <= i < j < |r| :: r[i] != r[j]
    ensures forall x :: x in r <==> x in xs
    ensures |r| <= |xs|
  {
    if xs == [] then []
    else
      var r := Distinct(xs[..|xs| - 1]);
      var last := xs[|xs| - 1];
      assert xs == xs[..|xs| - 1] + [last];
      if last in r then r else r + [last]
  }

  method ParseDomainList(text: string) returns (r: Result<seq<string>, Error>)
    ensures r == match Normalized(Split(text, LIST_SEPARATORS))
                 case Err(e) => Err(e)
                 case Ok(ds) => if |Distinct(ds)| > MAX_DOMAINS then Err(TooManyDomains) else Ok(Distinct(ds))
  {
    var pieces := Split(text, LIST_SEPARATORS);
    var out: seq<string> := [];
    for n := 0 to |pieces|
      invariant Normalized(pieces[..n]).Ok?
      invariant out == Distinct(Normalized(pieces[..n]).value)
    {
      var raw := pieces[n];
      NextPiece(pieces, n);
      if Trim(raw) != "" {
        match NormalizeDomain(raw) {
          case Err(e) =>
            NormalizedStopsAt(pieces, n + 1);
            return Err(e);
          case Ok(d) =>
            DistinctGrows(Normalized(pieces[..n]).value, d);
            if d !in out {
              out := out + [d];
            }
        }
      }
    }
    assert pieces[..|pieces|] == pieces;
    if |out| > MAX_DOMAINS {
      return Err(TooManyDomains);
    }
    return Ok(out);
  }

  lemma NextPiece(pieces: seq<string>, n: nat)
    requires n < |pieces|
    ensures Normalized(pieces[..n + 1]) == WithPiece(Normalized(pieces[..n]), pieces[n])
  {
    assert pieces[..n + 1][..n] == pieces[..n];
  }

  lemma DistinctGrows(xs: seq<string>, x: string)
    ensures Distinct(xs + [x]) == if x in Distinct(xs) then Distinct(xs) else Distinct(xs) + [x]
  {
    assert (xs + [x])[..|xs|] == xs;
  }

  lemma {:induction false} NormalizedStopsAt(pieces: seq<string>, n: nat)
    requires n <= |pieces| && Normalized(pieces[..n]).Err?
    ensures Normalized(pieces) == Normalized(pieces[..n])
    decreases |pieces|
  {
    if n == |pieces| {
      assert pieces[..n] == pieces;
    } else {
      assert pieces[..|pieces| - 1][..n] == pieces[..n];
      NormalizedStopsAt(pieces[..|pieces| - 1], n);
    }
  }

  // ----- reducing a list of domains ----------------------------------------------

  /** d is the parent or one of its subdomains. */
  predicate Covered(d: string, parent: string) {
    d == parent || EndsWith(d, "." + parent)
  }

  /** A host is let through when some listed domain covers it. */
  predicate Admits(domains: seq<string>, host: string) {
    exists d | d in domains :: Covered(host, d)
  }

  /** No other listed domain covers d. */
  predicate IsTop(domains: seq<string>, d: string) {
    forall x | x in domains && x != d :: !Covered(d, x)
  }

  /** The listed domains that no other listed domain covers, each where it is first listed. */
  function Reduced(domains: seq<string>): seq<string> {
    TopsAmong(domains, |domains|)
  }

  function TopsAmong(domains: seq<string>, n: nat): seq<string>
    requires n <= |domains|
  {
    if n == 0 then []
    else TopsAmong(domains, n - 1) + (if IsKept(domains, n - 1) then [domains[n - 1]] else [])
  }

  predicate IsKept(domains: seq<string>, i: nat)
    requires i < |domains|
  {
    domains[i] !in domains[..i] && IsTop(domains, domains[i])
  }

  function Retain(kept: seq<string>, d: string): seq<string> {
    if kept == [] then []
    else Retain(kept[..|kept| - 1], d) + (if Covered(kept[|kept| - 1], d) then [] else [kept[|kept| - 1]])
  }

  lemma CoveredTransitive(a: string, b: string, c: string)
    requires Covered(a, b) && Covered(b, c)
    ensures Covered(a, c)
  {
    if a != b && b != c {
      var s, t := "." + b, "." + c;
      assert s[|s| - |t|..] == t;
      assert a[|a| - |t|..] == a[|a| - |s|..][|s| - |t|..];
    }
  }

  lemma CoveredShrinks(a: string, b: string)
    requires Covered(a, b) && a != b
    ensures |b| < |a|
  {
  }

  /** Each listed domain lies under a listed one that no other covers. */
  lemma {:induction false} TopAbove(domains: seq<string>, d: string) returns (top: string)
    requires d in domains
    ensures top in domains && IsTop(domains, top) && Covered(d, top)
    decreases |d|
  {
    if IsTop(domains, d) {
      top := d;
    } else {
      var x :| x in domains && x != d && Covered(d, x);
      top := TopAbove(domains, x);
      CoveredTransitive(d, x, top);
    }
  }

  lemma {:induction false} TopsAmongMembers(domains: seq<string>, n: nat)
    requires n <= |domains|
    ensures forall d :: d in TopsAmong(domains, n) <==> d in domains[..n] && IsTop(domains, d)
    ensures forall i, j | 0 <= i < j < |TopsAmong(domains, n)| :: TopsAmong(domains, n)[i] != TopsAmong(domains, n)[j]
  {
    if n == 0 {
    } else {
      TopsAmongMembers(domains, n - 1);
      assert domains[..n] == domains[..n - 1] + [domains[n - 1]];
    }
  }

  /** What reducing keeps: exactly the uncovered domains, once each. */
  lemma ReducedMembers(domains: seq<string>)
    ensures forall d :: d in Reduced(domains) <==> d in domains && IsTop(domains, d)
    ensures forall i, j | 0 <= i < j < |Reduced(domains)| :: Reduced(domains)[i] != Reduced(domains)[j]
  {
    TopsAmongMembers(domains, |domains|);
    assert domains[..|domains|] == domains;
  }

  /** No kept domain covers another, and the same hosts are let through as before. */
  lemma ReducedKeepsMeaning(domains: seq<string>, host: string)
    ensures forall a, b | a in Reduced(domains) && b in Reduced(domains) && a != b :: !Covered(a, b)
    ensures Admits(Reduced(domains), host) <==> Admits(domains, host)
  {
    ReducedMembers(domains);
    if d :| d in domains && Covered(host, d) {
      var top := TopAbove(domains, d);
      CoveredTransitive(host, d, top);
      assert top in Reduced(domains);
    }
  }

  lemma {:induction false} TopsAmongCovered(domains: seq<string>, d: string, n: nat)
    requires n <= |domains| && Admits(domains, d)
    ensures TopsAmong(domains + [d], n) == TopsAmong(domains, n)
  {
    if n == 0 {
    } else {
      TopsAmongCovered(domains, d, n - 1);
      var x := domains[n - 1];
      assert (domains + [d])[..n - 1] == domains[..n - 1];
      if IsTop(domains, x) && x != d && Covered(x, d) {
        var parent :| parent in domains && Covered(d, parent);
        CoveredTransitive(x, d, parent);
        CoveredShrinks(x, d);
      }
    }
  }

  lemma {:induction false} TopsAmongRetained(domains: seq<string>, d: string, n: nat)
    requires n <= |domains| && !Admits(domains, d)
    ensures TopsAmong(domains + [d], n) == Retain(TopsAmong(domains, n), d)
  {
    if n == 0 {
    } else {
      TopsAmongRetained(domains, d, n - 1);
      var x := domains[n - 1];
      assert (domains + [d])[..n - 1] == domains[..n - 1];
      assert (domains + [d])[n - 1] == x;
      assert x != d by { assert Covered(d, d); }
      assert IsTop(domains + [d], x) <==> IsTop(domains, x) && !Covered(x, d);
      var kept := TopsAmong(domains, n - 1);
      assert IsKept(domains + [d], n - 1) <==> IsKept(domains, n - 1) && !Covered(x, d);
      if IsKept(domains, n - 1) {
        assert TopsAmong(domains, n) == kept + [x];
        assert (kept + [x])[..|kept|] == kept;
      } else {
        assert TopsAmong(domains, n) == kept;
      }
    }
  }

  /** Adding one more domain: skip it when covered, otherwise drop what it covers. */
  lemma ReducedStep(domains: seq<string>, d: string)
    ensures Admits(Reduced(domains), d) ==> Reduced(domains + [d]) == Reduced(domains)
    ensures !Admits(Reduced(domains), d) ==> Reduced(domains + [d]) == Retain(Reduced(domains), d) + [d]
  {
    ReducedKeepsMeaning(domains, d);
    var more := domains + [d];
    assert more[..|domains|] == domains;
    if Admits(domains, d) {
      TopsAmongCovered(domains, d, |domains|);
      var parent :| parent in domains && Covered(d, parent);
      assert parent in more;
    } else {
      TopsAmongRetained(domains, d, |domains|);
      assert forall x | x in domains :: !Covered(d, x);
      assert IsTop(more, d);
    }
  }

  /** The start host followed by the listed domains, or the first error. */
  function AllDomains(spec: ExamSpec): Result<seq<string>, Error> {
    match UrlHost(spec.startUrl)
    case Err(e) => Err(e)
    case Ok(host) =>
      match NormalizedAll(spec.allowedDomains)
      case Err(e) => Err(e)
      case Ok(ds) => Ok([host] + ds)
  }

  function NormalizedAll(listed: seq<string>): (r: Result<seq<string>, Error>) {
    if listed == [] then Ok([])
    else
      match NormalizedAll(listed[..|listed| - 1])
      case Err(e) => Err(e)
      case Ok(ds) =>
        match NormalizeDomain(listed[|listed| - 1])
        case Ok(d) => Ok(ds + [d])
        case Err(e) => Err(e)
  }

  function EffectiveDomains(spec: ExamSpec): Result<seq<string>, Error> {
    match AllDomains(spec)
    case Err(e) => Err(e)
    case Ok(all) => Ok(Reduced(all))
  }

  method ComputeEffectiveDomains(spec: ExamSpec) returns (r: Result<seq<string>, Error>)
    ensures r == EffectiveDomains(spec)
  {
    var host := UrlHost(spec.startUrl);
    if host.Err? {
      return Err(host.error);
    }
    var listed := NormalizeAll(spec.allowedDomains);
    if listed.Err? {
      return Err(listed.error);
    }
    var out := ReduceAll([host.value] + listed.value);
    return Ok(out);
  }

  method NormalizeAll(listed: seq<string>) returns (r: Result<seq<string>, Error>)
    ensures r == NormalizedAll(listed)
  {
    var out: seq<string> := [];
    for n := 0 to |listed|
      invariant NormalizedAll(listed[..n]) == Ok(out)
    {
      assert listed[..n + 1][..n] == listed[..n];
      match NormalizeDomain(listed[n]) {
        case Err(e) =>
          NormalizedAllStopsAt(listed, n + 1);
          return Err(e);
        case Ok(d) =>
          out := out + [d];
      }
    }
    assert listed[..|listed|] == listed;
    return Ok(out);
  }

  method ReduceAll(all: seq<string>) returns (out: seq<string>)
    ensures out == Reduced(all)
  {
    out := [];
    for n := 0 to |all|
      invariant out == Reduced(all[..n])
    {
      var d := all[n];
      ReducedStep(all[..n], d);
      assert all[..n] + [d] == all[..n + 1];
      if Admits(out, d) {
        continue;
      }
      out := RetainUncovered(out, d);
      out := out + [d];
    }
    assert all[..|all|] == all;
  }

  method RetainUncovered(kept: seq<string>, d: string) returns (out: seq<string>)
    ensures out == Retain(kept, d)
  {
    out := [];
    for i := 0 to |kept|
      invariant out == Retain(kept[..i], d)
    {
      assert kept[..i + 1][..i] == kept[..i];
      if !Covered(kept[i], d) {
        out := out + [kept[i]];
      }
    }
    assert kept[..|kept|] == kept;
  }

  lemma {:induction false} NormalizedAllStopsAt(listed: seq<string>, n: nat)
    requires n <= |listed| && NormalizedAll(listed[..n]).Err?
    ensures NormalizedAll(listed) == NormalizedAll(listed[..n])
    decreases |listed|
  {
    if n == |listed| {
      assert listed[..n] == listed;
    } else {
      assert listed[..|listed| - 1][..n] == listed[..n];
      NormalizedAllStopsAt(listed[..|listed| - 1], n);
    }
  }

  lemma {:induction false} NormalizedAllAreDomains(listed: seq<string>)
    requires NormalizedAll(listed).Ok?
    ensures forall d | d in NormalizedAll(listed).value :: IsDomain(d)
  {
    if listed == [] {
    } else {
      NormalizedAllAreDomains(listed[..|listed| - 1]);
      NormalizeDomainIsDomain(listed[|listed| - 1]);
    }
  }

  lemma EffectiveDomainsAreDomains(spec: ExamSpec)
    requires EffectiveDomains(spec).Ok?
    ensures forall d | d in EffectiveDomains(spec).value :: IsDomain(d)
    ensures Admits(EffectiveDomains(spec).value, UrlHost(spec.startUrl).value)
  {
    NormalizedAllAreDomains(spec.allowedDomains);
    UrlHostIsDomain(spec.startUrl);
    var all, host := AllDomains(spec).value, UrlHost(spec.startUrl).value;
    ReducedMembers(all);
    assert all[0] == host;
    assert Covered(host, host);
    ReducedKeepsMeaning(all, host);
  }
}
