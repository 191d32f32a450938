/** Inputs for which the program does not do what one would expect of it. */
module Limits {
  import opened Strings
  import opened Seb
  import opened Plist
  import opened KeyOrder
  import opened Numerals
  import opened JsonText
  import opened SebJson
  import opened UrlRule
  import opened ExamSettings
  import opened ExamAlike
  import opened StartUrlRule

  // ----- URLs with a simple authority --------------------------------------------------------

  predicate SimpleHost(host: string) {
    forall i | 0 <= i < |host| :: host[i] !in AUTHORITY_END && host[i] != '@' && host[i] != ':'
  }

  predicate SimpleTail(tail: string) {
    tail != "" && tail[0] in AUTHORITY_END && !IsSpace(tail[|tail| - 1])
  }

  function Url(host: string, tail: string): string {
    "https://" + (host + tail)
  }

  lemma UrlIsTrimmed(host: string, tail: string)
    requires SimpleTail(tail)
    ensures Trim(Url(host, tail)) == Url(host, tail)
    ensures AfterScheme(Url(host, tail)) == Some(host + tail)
  {
    var url := Url(host, tail);
    CutConcat("https://", host + tail);
    assert url[0] == 'h' && url[|url| - 1] == tail[|tail| - 1];
  }

  lemma AuthorityIsHost(host: string, tail: string)
    requires SimpleHost(host) && SimpleTail(tail)
    ensures Until(host + tail, AUTHORITY_END) == host
    ensures '@' !in host && WithoutPort(host) == Some(host)
  {
    UntilUnique(host + tail, AUTHORITY_END, |host|);
  }

  lemma SimpleUrl(host: string, tail: string, d: string)
    requires SimpleHost(host) && SimpleTail(tail) && NormalizeDomain(host) == Ok(d)
    ensures UrlHost(Url(host, tail)) == Ok(d)
    ensures HostText(Url(host, tail)) == host && TailOf(Url(host, tail)) == tail
  {
    UrlIsTrimmed(host, tail);
    AuthorityIsHost(host, tail);
  }

  lemma DomainIsSimple(d: string)
    requires IsDomain(d)
    ensures SimpleHost(d) && SimpleHost(d + ".")
  {
    DomainChars(d);
  }

  // ----- an exam whose own rules refuse its start URL --------------------------------------------

  lemma DotIsDropped(d: string)
    requires IsDomain(d)
    ensures NormalizeDomain(d + ".") == Ok(d)
  {
    DomainEnds(d);
    DotIsKeptByTrim(d);
    DotIsNoUrl(d);
    DotIsEndDot(d);
    NormalizeKeepsDomain(d);
    DomainIsTrimmed(d);
    DomainIsBare(d);
    SameName(d + ".", d);
  }

  /** Names with the same bare form normalise alike. */
  lemma SameName(s: string, t: string)
    requires Trim(s) == s && Trim(t) == t && !Contains(s, "://") && !Contains(t, "://")
    requires BareName(s) == BareName(t)
    ensures NormalizeDomain(s) == NormalizeDomain(t)
  {
  }

  lemma DotIsKeptByTrim(d: string)
    requires d != "" && IsAlnum(d[0])
    ensures Trim(d + ".") == d + "."
  {
    assert (d + ".")[0] == d[0] && (d + ".")[|d|] == '.';
  }

  lemma DotIsNoUrl(d: string)
    requires IsDomain(d)
    ensures !Contains(d + ".", "://")
  {
    DomainChars(d);
    if Contains(d + ".", "://") {
      ContainsFirst(d + ".", "://");
    }
  }

  lemma OnlyEndDots(t: string)
    requires t != "" && t[0] != '*' && t[0] != '.'
    ensures BareName(t) == DropEndDots(t)
  {
    NoStars(t);
    assert DropDots(t) == t;
  }

  lemma DotIsEndDot(d: string)
    requires d != "" && IsAlnum(d[0])
    ensures BareName(d + ".") == BareName(d)
  {
    assert (d + ".")[0] == d[0];
    OnlyEndDots(d);
    OnlyEndDots(d + ".");
    assert (d + ".")[..|d|] == d;
  }

  /** An exam on one host, with no further domains. */
  function Exam(url: string): ExamSpec {
    ExamSpec(url, [], false, "")
  }

  const NO_OPTIONS := SebOptions(None, [], None)

  lemma ReducedOne(d: string)
    ensures Reduced([d]) == [d]
  {
    assert IsKept([d], 0);
    assert TopsAmong([d], 1) == TopsAmong([d], 0) + [d];
  }

  lemma OneDomain(spec: ExamSpec, d: string)
    requires UrlHost(spec.startUrl) == Ok(d) && spec.allowedDomains == []
    ensures RuleDomains(spec, NO_OPTIONS) == Ok([d])
  {
    assert NormalizedAll([]) == Ok([]);
    assert [d] + [] == [d];
    ReducedOne(d);
  }

  lemma DotRefused(url: string, d: string)
    requires UrlHost(url) == Ok(d) && IsDomain(d) && HostText(url) == d + "."
    ensures !LetThrough([d], Trim(url))
  {
    assert Covered(d, d);
    assert Admits([d], d);
    UrlAdmitted([d], url);
  }

  /** On every host: a start URL with a dot after the host is accepted, and the rules written with it refuse it. */
  lemma EndDotIsRefused(d: string)
    requires IsDomain(d)
    ensures
      var exam := Exam(Url(d + ".", "/"));
      && RuleDomains(exam, NO_OPTIONS) == Ok([d])
      && !LetThrough([d], StartUrl(exam, NO_OPTIONS))
  {
    var url := Url(d + ".", "/");
    DottedUrl(d);
    DottedExam(url, d);
  }

  lemma DottedUrl(d: string)
    requires IsDomain(d)
    ensures UrlHost(Url(d + ".", "/")) == Ok(d) && HostText(Url(d + ".", "/")) == d + "."
  {
    DotIsDropped(d);
    DomainIsSimple(d);
    TheSlash();
    SimpleUrl(d + ".", "/", d);
  }

  lemma TheSlash()
    ensures SimpleTail("/")
  {
  }

  lemma DottedExam(url: string, d: string)
    requires UrlHost(url) == Ok(d) && IsDomain(d) && HostText(url) == d + "."
    ensures RuleDomains(Exam(url), NO_OPTIONS) == Ok([d])
    ensures !LetThrough([d], StartUrl(Exam(url), NO_OPTIONS))
  {
    OneDomain(Exam(url), d);
    DotRefused(url, d);
  }

  lemma ExampleIsDomain()
    ensures IsDomain("a.de")
  {
    assert Until("a.de", {'.'}) == "a";
    assert "a.de"[2..] == "de";
    assert Until("de", {'.'}) == "de";
    assert Utf8Length("a.de") == 4;
    assert "a.de"[1] == '.';
  }

  lemma RefusedStartUrl()
    ensures
      var exam := Exam("https://a.de./");
      RuleDomains(exam, NO_OPTIONS) == Ok(["a.de"]) && !LetThrough(["a.de"], StartUrl(exam, NO_OPTIONS))
  {
    ExampleIsDomain();
    EndDotIsRefused("a.de");
    ExampleUrl();
  }

  lemma ExampleUrl()
    ensures Url("a.de" + ".", "/") == "https://a.de./"
  {
  }

  // ----- texts that print alike ---------------------------------------------------------------------

  lemma {:induction false} EncodeConcat(a: string, b: string)
    ensures Encode(a + b) == Encode(a) + Encode(b)
  {
    if a == "" {
      assert a + b == b;
    } else {
      EncodeConcat(a[1..], b);
      EncodeFirst(a, b);
      ConcatThree(EncodeChar(a[0]), Encode(a[1..]), Encode(b));
    }
  }

  lemma EncodeFirst(a: string, b: string)
    requires a != ""
    ensures Encode(a + b) == EncodeChar(a[0]) + Encode(a[1..] + b)
    ensures Encode(a) == EncodeChar(a[0]) + Encode(a[1..])
  {
    assert (a + b)[1..] == a[1..] + b;
  }

  /** A newline is printed as a backslash and an n are. */
  lemma NewlineCollides()
    ensures Encode("\n") == Encode("\\n")
  {
    assert "\\n"[1..] == "n";
    assert Encode("n") == "n";
  }

  lemma CollisionAnywhere(a: string, b: string)
    ensures Encode(a + "\n" + b) == Encode(a + "\\n" + b)
  {
    NewlineCollides();
    EncodeConcat(a, "\n");
    EncodeConcat(a, "\\n");
    EncodeConcat(a + "\n", b);
    EncodeConcat(a + "\\n", b);
  }

  /** On every host: two exams that open different URLs and have the same Config Key. */
  lemma UrlsCollide(lib: Library, d: string)
    requires IsDomain(d)
    ensures
      var one, other := Exam(Url(d, "/\nx")), Exam(Url(d, "/\\nx"));
      && StartUrl(one, NO_OPTIONS) != StartUrl(other, NO_OPTIONS)
      && Settings(lib, one, NO_OPTIONS).Ok? && Settings(lib, other, NO_OPTIONS).Ok?
      && ConfigKey(lib, Settings(lib, one, NO_OPTIONS).value) == ConfigKey(lib, Settings(lib, other, NO_OPTIONS).value)
  {
    ExamWithTail(d, "/\nx");
    ExamWithTail(d, "/\\nx");
    assert |Url(d, "/\nx")| != |Url(d, "/\\nx")|;
    TailsReadAlike(d);
    EqualExamEqualJson(lib, Exam(Url(d, "/\nx")), NO_OPTIONS, Exam(Url(d, "/\\nx")), NO_OPTIONS);
  }

  lemma ExamWithTail(d: string, tail: string)
    requires IsDomain(d) && SimpleTail(tail)
    ensures RuleDomains(Exam(Url(d, tail)), NO_OPTIONS) == Ok([d])
    ensures StartUrl(Exam(Url(d, tail)), NO_OPTIONS) == Url(d, tail)
  {
    NormalizeKeepsDomain(d);
    DomainIsSimple(d);
    SimpleUrl(d, tail, d);
    OneDomain(Exam(Url(d, tail)), d);
    UrlIsTrimmed(d, tail);
  }

  lemma TailsReadAlike(d: string)
    ensures Unescape(Url(d, "/\nx")) == Unescape(Url(d, "/\\nx"))
  {
    var start := "https://" + d + "/";
    SplitTail(d, "\n");
    SplitTail(d, "\\n");
    assert "/" + "\n" + "x" == "/\nx" && "/" + "\\n" + "x" == "/\\nx";
    CollisionAnywhere(start, "x");
    EncodeCollision(start + "\n" + "x", start + "\\n" + "x");
  }

  lemma SplitTail(d: string, text: string)
    ensures Url(d, "/" + text + "x") == "https://" + d + "/" + text + "x"
  {
    Flatten("https://", d, "/", text, "x");
  }

  lemma Flatten(a: string, b: string, c: string, d: string, e: string)
    ensures a + (b + (c + d + e)) == a + b + c + d + e
  {
    ConcatThree(a, b, c + d + e);
    ConcatThree(a + b, c + d, e);
    ConcatThree(a + b, c, d);
  }

  // ----- different trees that print alike ---------------------------------------------------------------

  lemma TreesCollide(lower: Lowercase)
    ensures Json(lower, Str("\n")) == Json(lower, Str("\\n"))
    ensures Json(lower, Int(5)) == Json(lower, Uid(5)) == Json(lower, Real("5"))
    ensures Json(lower, Date("")) == Json(lower, Data([])) == Json(lower, Str(""))
    ensures Json(lower, Dict([Entry("a", Dict([]))])) == Json(lower, Dict([]))
  {
    NewlineCollides();
    FiveIsShown();
    EmptyIsDropped();
  }

  lemma FiveIsShown()
    ensures ShowInt(5) == "5"
  {
  }

  lemma EmptyIsDropped()
    ensures ShownKeys([Entry("a", Dict([]))]) == []
  {
    assert IsEmptyDict(Dict([]));
  }
}
