/** What the URL filter of an exam's settings lets through, read back from the finished dictionary alone. */
module FilterLaws {
  import opened Strings
  import opened Seb
  import opened UrlRule
  import opened RegexText
  import opened Plist
  import opened ExamSettings
  import FleetModel
  import ExamBuild

  // ----- reading the dictionary ------------------------------------------------------------

  /** An active rule of this action whose regular expression matches the URL, ignoring case. */
  ghost predicate RuleApplies(rule: Value, action: int, url: string) {
    && rule.Dict?
    && Holds(rule.entries, "action", Int(action)) && Holds(rule.entries, "active", Bool(true))
    && Holds(rule.entries, "regex", Bool(true))
    && exists re ::
         ReadsBack(re) && Holds(rule.entries, "expression", Str("^" + Show(re) + "$")) && Matches(re, Fold(url))
  }

  ghost predicate SomeRuleApplies(es: seq<Entry>, action: int, url: string) {
    exists rules, i ::
      Holds(es, "URLFilterRules", Arr(rules)) && 0 <= i < |rules| && RuleApplies(rules[i], action, url)
  }

  predicate FilterOn(es: seq<Entry>) {
    Holds(es, "URLFilterEnable", Bool(true))
  }

  predicate ContentFilterOn(es: seq<Entry>) {
    FilterOn(es) && Holds(es, "URLFilterEnableContentFilter", Bool(true))
  }

  /** With the filter on, a page needs a rule that allows it (action 1) and none that blocks it (action 0). */
  ghost predicate PageAllowed(es: seq<Entry>, url: string) {
    FilterOn(es) ==> SomeRuleApplies(es, 1, url) && !SomeRuleApplies(es, 0, url)
  }

  /** The same for what a page loads. */
  ghost predicate ContentAllowed(es: seq<Entry>, url: string) {
    ContentFilterOn(es) ==> SomeRuleApplies(es, 1, url) && !SomeRuleApplies(es, 0, url)
  }

  // ----- the authority test --------------------------------------------------------------------

  /** The hosts an exam is about: the instructor's start host, the listed domains, and the gate's host. */
  function ExamDomains(spec: ExamSpec, opts: SebOptions): seq<string>
    requires RuleDomains(spec, opts).Ok?
  {
    AllDomains(spec).value + (match opts.startUrlOverride case None => [] case Some(u) => [UrlHost(u).value])
  }

  /** http, https, ws or wss; no user information; the host is one of the domains or lies under one; no newline. */
  predicate AuthorityAllowed(domains: seq<string>, url: string) {
    exists scheme | scheme in ["http", "https", "ws", "wss"] ::
      StartsWith(url, scheme + "://") && RestAllowed(domains, url[|scheme| + 3..])
  }

  predicate RestAllowed(domains: seq<string>, rest: string) {
    var authority := Until(rest, AUTHORITY_END);
    '@' !in authority && Admits(domains, HostOf(authority)) && '\n' !in rest[|authority|..]
  }

  lemma AllowedByOne(domains: seq<string>, url: string)
    ensures AuthorityAllowed(domains, url) <==> exists d | d in domains :: Allows(d, url)
  {
    if AuthorityAllowed(domains, url) {
      var scheme :| scheme in ["http", "https", "ws", "wss"]
                 && StartsWith(url, scheme + "://") && RestAllowed(domains, url[|scheme| + 3..]);
      var d :| d in domains && Covered(HostOf(Until(url[|scheme| + 3..], AUTHORITY_END)), d);
      assert AllowsRest(d, url[|scheme| + 3..]);
      assert Allows(d, url);
    }
    if d :| d in domains && Allows(d, url) {
      var scheme :| scheme in ["http", "https", "ws", "wss"]
                 && StartsWith(url, scheme + "://") && AllowsRest(d, url[|scheme| + 3..]);
      assert RestAllowed(domains, url[|scheme| + 3..]);
    }
  }

  lemma SameHostsSameUrls(a: seq<string>, b: seq<string>, url: string)
    requires forall host :: Admits(a, host) <==> Admits(b, host)
    ensures AuthorityAllowed(a, url) <==> AuthorityAllowed(b, url)
  {
    forall rest ensures RestAllowed(a, rest) <==> RestAllowed(b, rest) {
    }
  }

  // ----- the rules of an exam ---------------------------------------------------------------------

  lemma RuleHolds(d: string)
    ensures
      var es := RuleDict(d).entries;
      && Holds(es, "action", Int(1)) && Holds(es, "active", Bool(true)) && Holds(es, "regex", Bool(true))
      && Holds(es, "expression", Str(DomainRule(d))) && !Holds(es, "action", Int(0))
  {
    var es := RuleDict(d).entries;
    assert DistinctKeys(es);
    IndexIsUnique(es, "action", 0);
    IndexIsUnique(es, "active", 1);
    IndexIsUnique(es, "expression", 2);
    IndexIsUnique(es, "regex", 3);
  }

  /** The rule for a domain lets through what its authority test allows. */
  lemma RuleIsAuthorityTest(d: string, url: string)
    requires IsDomain(d)
    ensures RuleApplies(RuleDict(d), 1, url) <==> Allows(d, Fold(url))
    ensures !RuleApplies(RuleDict(d), 0, url)
  {
    RuleHolds(d);
    if RuleApplies(RuleDict(d), 1, url) {
      ApplyingIsAllowed(d, url);
    }
    if Allows(d, Fold(url)) {
      AllowedApplies(d, url);
    }
  }

  lemma ApplyingIsAllowed(d: string, url: string)
    requires IsDomain(d) && RuleApplies(RuleDict(d), 1, url)
    ensures Allows(d, Fold(url))
  {
    RuleHolds(d);
    var re :| ReadsBack(re) && Holds(RuleDict(d).entries, "expression", Str("^" + Show(re) + "$"))
           && Matches(re, Fold(url));
    RuleTextDecides(d, re, url);
  }

  lemma AllowedApplies(d: string, url: string)
    requires IsDomain(d) && Allows(d, Fold(url))
    ensures RuleApplies(RuleDict(d), 1, url)
  {
    RuleHolds(d);
    RuleTextIsRegex(d);
    RuleTextDecides(d, RuleRegex(d), url);
    assert ReadsBack(RuleRegex(d)) && Matches(RuleRegex(d), Fold(url));
  }

  lemma RulesApply(es: seq<Entry>, domains: seq<string>, url: string)
    requires DistinctKeys(es) && Holds(es, "URLFilterRules", Arr(RuleDicts(domains)))
    requires forall d | d in domains :: IsDomain(d)
    ensures SomeRuleApplies(es, 1, url) <==> exists d | d in domains :: Allows(d, Fold(url))
    ensures !SomeRuleApplies(es, 0, url)
  {
    if SomeRuleApplies(es, 1, url) {
      var i := ApplyingRule(es, domains, 1, url);
      RuleIsAuthorityTest(domains[i], url);
    }
    if SomeRuleApplies(es, 0, url) {
      var i := ApplyingRule(es, domains, 0, url);
      RuleIsAuthorityTest(domains[i], url);
    }
    if d :| d in domains && Allows(d, Fold(url)) {
      RuleIsAuthorityTest(d, url);
      var i :| 0 <= i < |domains| && domains[i] == d;
      assert RuleApplies(RuleDicts(domains)[i], 1, url);
    }
  }

  lemma ApplyingRule(es: seq<Entry>, domains: seq<string>, action: int, url: string) returns (i: nat)
    requires Holds(es, "URLFilterRules", Arr(RuleDicts(domains))) && SomeRuleApplies(es, action, url)
    ensures i < |domains| && RuleApplies(RuleDict(domains[i]), action, url) && domains[i] in domains
  {
    var rules, j :| Holds(es, "URLFilterRules", Arr(rules)) && 0 <= j < |rules| && RuleApplies(rules[j], action, url);
    i := j;
  }

  lemma ExamHosts(spec: ExamSpec, opts: SebOptions, host: string)
    requires RuleDomains(spec, opts).Ok?
    ensures Admits(RuleDomains(spec, opts).value, host) <==> Admits(ExamDomains(spec, opts), host)
  {
    ReducedKeepsMeaning(AllDomains(spec).value, host);
    match opts.startUrlOverride
    case None => assert AllDomains(spec).value + [] == AllDomains(spec).value;
    case Some(u) => GateHost(spec, opts, u, host);
  }

  lemma GateHost(spec: ExamSpec, opts: SebOptions, u: string, host: string)
    requires RuleDomains(spec, opts).Ok? && opts.startUrlOverride == Some(u)
    ensures Admits(RuleDomains(spec, opts).value, host) <==> Admits(AllDomains(spec).value + [UrlHost(u).value], host)
  {
    var all, gate := AllDomains(spec).value, UrlHost(u).value;
    UrlHostIsDomain(u);
    NormalizeKeepsDomain(gate);
    ReducedKeepsMeaning(all, host);
    ReducedKeepsMeaning(all, gate);
    OneMoreHost(all, gate, host);
    OneMoreHost(Reduced(all), gate, host);
    if Admits(all, gate) {
      CoveredHostAddsNothing(all, gate, host);
    }
  }

  lemma OneMoreHost(domains: seq<string>, gate: string, host: string)
    ensures Admits(domains + [gate], host) <==> Admits(domains, host) || Covered(host, gate)
  {
    assert forall d :: d in domains + [gate] <==> d in domains || d == gate;
  }

  lemma CoveredHostAddsNothing(domains: seq<string>, gate: string, host: string)
    requires Admits(domains, gate)
    ensures Covered(host, gate) ==> Admits(domains, host)
  {
    if Covered(host, gate) {
      var d :| d in domains && Covered(gate, d);
      CoveredTransitive(host, gate, d);
    }
  }

  /** The finished settings let through exactly the pages, and content, that the authority test allows for the
      exam's hosts. */
  lemma FilterIsAuthorityTest(lib: Library, spec: ExamSpec, opts: SebOptions, url: string)
    requires Settings(lib, spec, opts).Ok?
    ensures
      var es := Settings(lib, spec, opts).value;
      && (PageAllowed(es, url) <==> AuthorityAllowed(ExamDomains(spec, opts), Fold(url)))
      && (ContentAllowed(es, url) <==> AuthorityAllowed(ExamDomains(spec, opts), Fold(url)))
  {
    var domains := RuleDomains(spec, opts).value;
    SettingsFilter(lib, spec, opts, domains);
    RuleDomainsCoverStart(spec, opts);
    FilterDecides(PutAll(Inserts(lib, spec, opts, domains)), domains, url);
    AllowedByOne(domains, Fold(url));
    SameHosts(spec, opts, Fold(url));
  }

  lemma SettingsFilter(lib: Library, spec: ExamSpec, opts: SebOptions, domains: seq<string>)
    ensures
      var es := PutAll(Inserts(lib, spec, opts, domains));
      && DistinctKeys(es) && FilterOn(es) && ContentFilterOn(es)
      && Holds(es, "URLFilterRules", Arr(RuleDicts(domains)))
  {
    SettingsHold(lib, spec, opts, domains);
    FixedSettings(lib, spec, opts, domains);
  }

  lemma FilterDecides(es: seq<Entry>, domains: seq<string>, url: string)
    requires DistinctKeys(es) && FilterOn(es) && ContentFilterOn(es)
    requires Holds(es, "URLFilterRules", Arr(RuleDicts(domains))) && forall d | d in domains :: IsDomain(d)
    ensures PageAllowed(es, url) <==> exists d | d in domains :: Allows(d, Fold(url))
    ensures ContentAllowed(es, url) <==> PageAllowed(es, url)
  {
    RulesApply(es, domains, url);
  }

  lemma SameHosts(spec: ExamSpec, opts: SebOptions, url: string)
    requires RuleDomains(spec, opts).Ok?
    ensures AuthorityAllowed(RuleDomains(spec, opts).value, url) <==> AuthorityAllowed(ExamDomains(spec, opts), url)
  {
    var domains := RuleDomains(spec, opts).value;
    forall host ensures Admits(domains, host) <==> Admits(ExamDomains(spec, opts), host) {
      ExamHosts(spec, opts, host);
    }
    SameHostsSameUrls(domains, ExamDomains(spec, opts), url);
  }

  // ----- the configuration in a reply -----------------------------------------------------------------

  /** Some rule's regular expression matches the URL, ignoring case. */
  ghost predicate SomeTextMatches(rules: seq<string>, url: string) {
    exists i, re ::
      0 <= i < |rules| && ReadsBack(re) && rules[i] == "^" + Show(re) + "$" && Matches(re, Fold(url))
  }

  lemma TextsDecide(domains: seq<string>, rules: seq<string>, url: string)
    requires forall d | d in domains :: IsDomain(d)
    requires |rules| == |domains| && forall i | 0 <= i < |rules| :: rules[i] == DomainRule(domains[i])
    ensures SomeTextMatches(rules, url) <==> exists d | d in domains :: Allows(d, Fold(url))
  {
    if SomeTextMatches(rules, url) {
      var i, re :| 0 <= i < |rules| && ReadsBack(re) && rules[i] == "^" + Show(re) + "$" && Matches(re, Fold(url));
      RuleTextDecides(domains[i], re, url);
    }
    if d :| d in domains && Allows(d, Fold(url)) {
      var i :| 0 <= i < |domains| && domains[i] == d;
      RuleTextIsRegex(d);
      RuleTextDecides(d, RuleRegex(d), url);
      assert rules[i] == "^" + Show(RuleRegex(d)) + "$";
    }
  }

  lemma ReplyParts(lib: Library, publicUrl: Option<string>, exam: FleetModel.Exam)
    requires ExamBuild.BuildPayload(lib, publicUrl, exam).Ok?
    ensures ExamBuild.BuildConfig(exam.spec).Ok?
    ensures
      var p := ExamBuild.BuildPayload(lib, publicUrl, exam).value;
      p.id == exam.id && p.name == exam.name && p.config == ExamBuild.BuildConfig(exam.spec).value
  {
  }

  lemma ConfigParts(spec: ExamSpec, config: FleetModel.SebConfig)
    requires ExamBuild.BuildConfig(spec) == Ok(config)
    ensures config.startUrl == Trim(spec.startUrl) && config.allowQuit == spec.allowQuit
    ensures EffectiveDomains(spec).Ok? && |config.rules| == |EffectiveDomains(spec).value|
    ensures forall i | 0 <= i < |config.rules| :: config.rules[i] == DomainRule(EffectiveDomains(spec).value[i])
  {
  }

  lemma EffectiveUrls(spec: ExamSpec, url: string)
    requires EffectiveDomains(spec).Ok?
    ensures AllDomains(spec).Ok?
    ensures AuthorityAllowed(EffectiveDomains(spec).value, url) <==> AuthorityAllowed(AllDomains(spec).value, url)
  {
    ReducedUrls(AllDomains(spec).value, url);
  }

  lemma ReducedUrls(all: seq<string>, url: string)
    ensures AuthorityAllowed(Reduced(all), url) <==> AuthorityAllowed(all, url)
  {
    forall host ensures Admits(Reduced(all), host) <==> Admits(all, host) {
      ReducedKeepsMeaning(all, host);
    }
    SameHostsSameUrls(Reduced(all), all, url);
  }

  lemma ConfigDecides(spec: ExamSpec, config: FleetModel.SebConfig, domains: seq<string>, url: string)
    requires ExamBuild.BuildConfig(spec) == Ok(config) && EffectiveDomains(spec) == Ok(domains)
    ensures SomeTextMatches(config.rules, url) <==> AuthorityAllowed(domains, Fold(url))
  {
    ConfigParts(spec, config);
    EffectiveDomainsAreDomains(spec);
    TextsDecide(domains, config.rules, url);
    AllowedByOne(domains, Fold(url));
  }

  /** A start brings the exam's id and name, its trimmed start URL and quit flag, and rules that match exactly what the
      authority test allows for the start host and the listed domains. */
  lemma PayloadIsExam(lib: Library, publicUrl: Option<string>, exam: FleetModel.Exam, url: string)
    requires ExamBuild.BuildPayload(lib, publicUrl, exam).Ok?
    ensures
      var p := ExamBuild.BuildPayload(lib, publicUrl, exam).value;
      && p.id == exam.id && p.name == exam.name
      && p.config.startUrl == Trim(exam.spec.startUrl) && p.config.allowQuit == exam.spec.allowQuit
      && AllDomains(exam.spec).Ok?
      && (SomeTextMatches(p.config.rules, url) <==> AuthorityAllowed(AllDomains(exam.spec).value, Fold(url)))
  {
    ReplyParts(lib, publicUrl, exam);
    var config := ExamBuild.BuildConfig(exam.spec).value;
    ConfigParts(exam.spec, config);
    ConfigDecides(exam.spec, config, EffectiveDomains(exam.spec).value, url);
    EffectiveUrls(exam.spec, Fold(url));
  }
}
