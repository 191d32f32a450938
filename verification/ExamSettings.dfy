/** The SEB settings written for an exam, their Config Key, and what they let through. */
module ExamSettings {
  import opened Strings
  import opened Seb
  import opened UrlRule
  import opened Plist
  import opened KeyOrder
  import opened JsonText
  import opened SebJson
  import opened SebReader
  import opened SebCanon
  import opened Base64

  const ORIGINATOR := "riscv-exam-env_0.3.0"

  /** Functions of other libraries: Unicode lower-casing, and SHA-256 of a UTF-8 text as lowercase hex. */
  datatype Library = Library(lower: string -> string, sha256Hex: string -> string)

  datatype SebOptions = SebOptions(startUrlOverride: Option<string>, examKeySalt: seq<Byte>,
                                   quitPassword: Option<string>)

  function RuleDict(domain: string): Value {
    Dict([
      Entry("action", Int(1)),
      Entry("active", Bool(true)),
      Entry("expression", Str(DomainRule(domain))),
      Entry("regex", Bool(true))
    ])
  }

  function RuleDicts(domains: seq<string>): (r: seq<Value>)
    ensures |r| == |domains| && forall i | 0 <= i < |r| :: r[i] == RuleDict(domains[i])
  {
    seq(|domains|, i requires 0 <= i < |domains| => RuleDict(domains[i]))
  }

  /** The start URL that is written. */
  function StartUrl(spec: ExamSpec, opts: SebOptions): string {
    match opts.startUrlOverride
    case Some(u) => Trim(u)
    case None => Trim(spec.startUrl)
  }

  /** The domains rules are written for: the gate's host is added unless one covers it. */
  function RuleDomains(spec: ExamSpec, opts: SebOptions): Result<seq<string>, Error> {
    match EffectiveDomains(spec)
    case Err(e) => Err(e)
    case Ok(domains) =>
      match opts.startUrlOverride
      case None => Ok(domains)
      case Some(u) =>
        match UrlHost(u)
        case Err(e) => Err(e)
        case Ok(host) =>
          if Admits(domains, host) then Ok(domains)
          else
            match NormalizeDomain(host)
            case Err(e) => Err(e)
            case Ok(d) => Ok(domains + [d])
  }

  // ----- filling the dictionary ----------------------------------------------------------

  /** Inserting replaces the value of a key that is there and appends one that is not. */
  function Put(es: seq<Entry>, e: Entry): seq<Entry> {
    if HasKey(es, e.key) then es[IndexOf(es, e.key) := e] else es + [e]
  }

  function PutAll(inserts: seq<Entry>): seq<Entry> {
    if inserts == [] then []
    else Put(PutAll(inserts[..|inserts| - 1]), inserts[|inserts| - 1])
  }

  function Opening(): seq<Entry> {
    [Entry("originatorVersion", Str(ORIGINATOR)), Entry("sebConfigPurpose", Int(0))]
  }

  function Handshake(): seq<Entry> {
    [Entry("restartExamUseStartURL", Bool(true)), Entry("sendBrowserExamKey", Bool(true))]
  }

  function Salt(opts: SebOptions): seq<Entry> {
    if opts.examKeySalt == [] then [] else [Entry("examKeySalt", Data(opts.examKeySalt))]
  }

  function Filter(): seq<Entry> {
    [Entry("URLFilterEnable", Bool(true)), Entry("URLFilterEnableContentFilter", Bool(true))]
  }

  function QuitPassword(lib: Library, opts: SebOptions): seq<Entry> {
    match opts.quitPassword
    case Some(pw) => if pw == "" then [] else [Entry("hashedQuitPassword", Str(lib.sha256Hex(pw)))]
    case None => []
  }

  function Lockdown(): seq<Entry> {
    [ Entry("downloadAndOpenSebConfig", Bool(false)),
      Entry("allowDownUploads", Bool(false)),
      Entry("allowDownloads", Bool(false)),
      Entry("allowUploads", Bool(false)),
      Entry("allowSpellCheck", Bool(false)),
      Entry("allowDeveloperConsole", Bool(false)),
      Entry("examSessionClearCookiesOnStart", Bool(true)),
      Entry("examSessionClearCookiesOnEnd", Bool(true)) ]
  }

  function Window(): seq<Entry> {
    [ Entry("enableBrowserWindowToolbar", Bool(true)),
      Entry("browserWindowAllowAddressBar", Bool(false)),
      Entry("browserWindowAllowReload", Bool(true)),
      Entry("showReloadButton", Bool(true)) ]
  }

  /** The settings in the order they are inserted. */
  function Inserts(lib: Library, spec: ExamSpec, opts: SebOptions, domains: seq<string>): seq<Entry> {
    Opening() + ([Entry("startURL", Str(StartUrl(spec, opts)))] + AfterStartUrl(lib, spec, opts, domains))
  }

  function AfterStartUrl(lib: Library, spec: ExamSpec, opts: SebOptions, domains: seq<string>): seq<Entry> {
    Handshake() + (Salt(opts) + AfterSalt(lib, spec, opts, domains))
  }

  function AfterSalt(lib: Library, spec: ExamSpec, opts: SebOptions, domains: seq<string>): seq<Entry> {
    Filter() + ([Entry("URLFilterRules", Arr(RuleDicts(domains)))] + AfterRules(lib, spec, opts))
  }

  function AfterRules(lib: Library, spec: ExamSpec, opts: SebOptions): seq<Entry> {
    [Entry("allowQuit", Bool(spec.allowQuit))] + (QuitPassword(lib, opts) + (Lockdown() + Window()))
  }

  function Settings(lib: Library, spec: ExamSpec, opts: SebOptions): Result<seq<Entry>, Error> {
    match RuleDomains(spec, opts)
    case Err(e) => Err(e)
    case Ok(domains) => Ok(PutAll(Inserts(lib, spec, opts, domains)))
  }

  function ConfigKey(lib: Library, settings: seq<Entry>): string {
    lib.sha256Hex(SettingsJson(lib.lower, settings))
  }

  // ----- what the dictionary holds ----------------------------------------------------------

  predicate Holds(es: seq<Entry>, k: string, v: Value) {
    HasKey(es, k) && es[IndexOf(es, k)].value == v
  }

  lemma PutHolds(es: seq<Entry>, e: Entry, k: string)
    requires DistinctKeys(es)
    ensures DistinctKeys(Put(es, e))
    ensures HasKey(Put(es, e), k) <==> k == e.key || HasKey(es, k)
    ensures Holds(Put(es, e), e.key, e.value)
    ensures k != e.key && HasKey(es, k) ==> Holds(Put(es, e), k, es[IndexOf(es, k)].value)
  {
    var r := Put(es, e);
    var i := if HasKey(es, e.key) then IndexOf(es, e.key) else |es|;
    assert r[i] == e;
    assert DistinctKeys(r);
    IndexIsUnique(r, e.key, i);
    if k != e.key && HasKey(es, k) {
      var j := IndexOf(es, k);
      assert r[j] == es[j];
      IndexIsUnique(r, k, j);
    }
    if HasKey(r, k) && k != e.key {
      var j :| 0 <= j < |r| && r[j].key == k;
      assert es[j].key == k;
    }
  }

  lemma {:induction false} PutAllHolds(inserts: seq<Entry>, k: string)
    ensures DistinctKeys(PutAll(inserts))
    ensures HasKey(PutAll(inserts), k) <==> HasKey(inserts, k)
  {
    if inserts == [] {
    } else {
      var n := |inserts| - 1;
      PutAllHolds(inserts[..n], k);
      PutHolds(PutAll(inserts[..n]), inserts[n], k);
      if HasKey(inserts[..n], k) {
        var i :| 0 <= i < n && inserts[..n][i].key == k;
        assert inserts[i].key == k;
      }
      if HasKey(inserts, k) && k != inserts[n].key {
        var i :| 0 <= i < |inserts| && inserts[i].key == k;
        assert inserts[..n][i].key == k;
      }
    }
  }

  lemma HasKeyConcat(a: seq<Entry>, b: seq<Entry>, k: string)
    ensures HasKey(a + b, k) <==> HasKey(a, k) || HasKey(b, k)
  {
    if HasKey(a, k) {
      var i :| 0 <= i < |a| && a[i].key == k;
      assert (a + b)[i].key == k;
    }
    if HasKey(b, k) {
      var i :| 0 <= i < |b| && b[i].key == k;
      assert (a + b)[|a| + i].key == k;
    }
    if HasKey(a + b, k) {
      var i :| 0 <= i < |a + b| && (a + b)[i].key == k;
      assert i < |a| ==> a[i].key == k;
      assert i >= |a| ==> b[i - |a|].key == k;
    }
  }

  // ----- every key is inserted once ----------------------------------------------------------

  /** Where a key stands among the inserts, told by its length and its second character. */
  function RankOf(length: nat, second: char): nat {
    match length
    case 17 => 0
    case 16 => if second == 'e' then 1 else if second == 'l' then 12 else 22
    case 8 => 2
    case 22 => 3
    case 18 => if second == 'e' then 4 else 10
    case 11 => 5
    case 15 => if second == 'R' then 6 else 15
    case 28 => if second == 'R' then 7 else if second == 'x' then 18 else 20
    case 14 => if second == 'R' then 8 else 13
    case 9 => 9
    case 24 => if second == 'o' then 11 else 21
    case 12 => 14
    case 21 => 16
    case 30 => 17
    case 26 => 19
    case _ => 23
  }

  function Rank(key: string): nat {
    if |key| < 2 then 23 else RankOf(|key|, key[1])
  }

  /** Keys of rising rank, from lo up to but without hi. */
  predicate Ranked(es: seq<Entry>, lo: nat, hi: nat) {
    && (forall i | 0 <= i < |es| :: lo <= Rank(es[i].key) < hi)
    && (forall i, j | 0 <= i < j < |es| :: Rank(es[i].key) < Rank(es[j].key))
  }

  lemma RankedConcat(a: seq<Entry>, b: seq<Entry>, lo: nat, mid: nat, hi: nat)
    requires Ranked(a, lo, mid) && Ranked(b, mid, hi) && lo <= mid <= hi
    ensures Ranked(a + b, lo, hi)
  {
  }

  lemma RankedDistinct(es: seq<Entry>, lo: nat, hi: nat, k: string)
    requires Ranked(es, lo, hi)
    ensures DistinctKeys(es)
    ensures HasKey(es, k) ==> lo <= Rank(k) < hi
  {
  }

  lemma RankedList(es: seq<Entry>, lo: nat)
    requires forall i | 0 <= i < |es| :: Rank(es[i].key) == lo + i
    ensures Ranked(es, lo, lo + |es|)
  {
  }

  lemma HeaderRanks()
    ensures Rank("originatorVersion") == 0 && Rank("sebConfigPurpose") == 1 && Rank("startURL") == 2
    ensures Rank("restartExamUseStartURL") == 3 && Rank("sendBrowserExamKey") == 4 && Rank("examKeySalt") == 5
  {
  }

  lemma FilterRanks()
    ensures Rank("URLFilterEnable") == 6 && Rank("URLFilterEnableContentFilter") == 7
    ensures Rank("URLFilterRules") == 8 && Rank("allowQuit") == 9 && Rank("hashedQuitPassword") == 10
  {
  }

  lemma FirstSectionsRanked(opts: SebOptions, v: Value)
    ensures Ranked(Opening(), 0, 2) && Ranked([Entry("startURL", v)], 2, 3) && Ranked(Handshake(), 3, 5)
    ensures Ranked(Salt(opts), 5, 6)
  {
    HeaderRanks();
    RankedList(Opening(), 0);
    RankedList([Entry("startURL", v)], 2);
    RankedList(Handshake(), 3);
  }

  lemma MiddleSectionsRanked(lib: Library, opts: SebOptions, v: Value, w: Value)
    ensures Ranked(Filter(), 6, 8) && Ranked([Entry("URLFilterRules", v)], 8, 9)
    ensures Ranked([Entry("allowQuit", w)], 9, 10) && Ranked(QuitPassword(lib, opts), 10, 11)
  {
    FilterRanks();
    RankedList(Filter(), 6);
    RankedList([Entry("URLFilterRules", v)], 8);
    RankedList([Entry("allowQuit", w)], 9);
  }

  lemma LockdownRanked()
    ensures Ranked(Lockdown(), 11, 19)
  {
    TransferRanks();
    BrowserRanks();
    var es := Lockdown();
    RankedList(es, 11);
  }

  lemma TransferRanks()
    ensures Rank("downloadAndOpenSebConfig") == 11 && Rank("allowDownUploads") == 12
    ensures Rank("allowDownloads") == 13 && Rank("allowUploads") == 14
  {
  }

  lemma BrowserRanks()
    ensures Rank("allowSpellCheck") == 15 && Rank("allowDeveloperConsole") == 16
    ensures Rank("examSessionClearCookiesOnStart") == 17 && Rank("examSessionClearCookiesOnEnd") == 18
  {
  }

  lemma WindowRanks()
    ensures Rank("enableBrowserWindowToolbar") == 19 && Rank("browserWindowAllowAddressBar") == 20
    ensures Rank("browserWindowAllowReload") == 21 && Rank("showReloadButton") == 22
  {
  }

  lemma WindowRanked()
    ensures Ranked(Window(), 19, 23)
  {
    WindowRanks();
    RankedList(Window(), 19);
  }

  lemma AfterRulesRanked(lib: Library, spec: ExamSpec, opts: SebOptions)
    ensures Ranked(AfterRules(lib, spec, opts), 9, 23)
    ensures Ranked(Lockdown() + Window(), 11, 23)
  {
    LockdownRanked();
    WindowRanked();
    MiddleSectionsRanked(lib, opts, Bool(true), Bool(spec.allowQuit));
    RankedConcat(Lockdown(), Window(), 11, 19, 23);
    RankedConcat(QuitPassword(lib, opts), Lockdown() + Window(), 10, 11, 23);
    RankedConcat([Entry("allowQuit", Bool(spec.allowQuit))], QuitPassword(lib, opts) + (Lockdown() + Window()),
                 9, 10, 23);
  }

  lemma AfterSaltRanked(lib: Library, spec: ExamSpec, opts: SebOptions, domains: seq<string>)
    ensures Ranked(AfterSalt(lib, spec, opts, domains), 6, 23)
  {
    var rules := Arr(RuleDicts(domains));
    AfterRulesRanked(lib, spec, opts);
    MiddleSectionsRanked(lib, opts, rules, Bool(true));
    RankedConcat([Entry("URLFilterRules", rules)], AfterRules(lib, spec, opts), 8, 9, 23);
    RankedConcat(Filter(), [Entry("URLFilterRules", rules)] + AfterRules(lib, spec, opts), 6, 8, 23);
  }

  lemma InsertsRanked(lib: Library, spec: ExamSpec, opts: SebOptions, domains: seq<string>)
    ensures Ranked(Inserts(lib, spec, opts, domains), 0, 23)
  {
    var start := Str(StartUrl(spec, opts));
    AfterSaltRanked(lib, spec, opts, domains);
    FirstSectionsRanked(opts, start);
    RankedConcat(Salt(opts), AfterSalt(lib, spec, opts, domains), 5, 6, 23);
    RankedConcat(Handshake(), Salt(opts) + AfterSalt(lib, spec, opts, domains), 3, 5, 23);
    RankedConcat([Entry("startURL", start)], AfterStartUrl(lib, spec, opts, domains), 2, 3, 23);
    RankedConcat(Opening(), [Entry("startURL", start)] + AfterStartUrl(lib, spec, opts, domains), 0, 2, 23);
  }

  /** Inserting entries with different keys lists them. */
  lemma {:induction false} PutAllKeeps(es: seq<Entry>)
    requires DistinctKeys(es)
    ensures PutAll(es) == es
  {
    if es == [] {
    } else {
      var n := |es| - 1;
      PutAllKeeps(es[..n]);
      assert !HasKey(es[..n], es[n].key);
      assert es == es[..n] + [es[n]];
    }
  }

  lemma SettingsAreInserts(lib: Library, spec: ExamSpec, opts: SebOptions, domains: seq<string>)
    ensures PutAll(Inserts(lib, spec, opts, domains)) == Inserts(lib, spec, opts, domains)
    ensures DistinctKeys(Inserts(lib, spec, opts, domains))
  {
    InsertsRanked(lib, spec, opts, domains);
    RankedDistinct(Inserts(lib, spec, opts, domains), 0, 23, "");
    PutAllKeeps(Inserts(lib, spec, opts, domains));
  }

  // ----- what the settings hold ------------------------------------------------------------------

  predicate FirstSetting(spec: ExamSpec, opts: SebOptions, e: Entry) {
    e in Opening() || e == Entry("startURL", Str(StartUrl(spec, opts))) || e in Handshake() || e in Salt(opts)
  }

  predicate RuleSetting(domains: seq<string>, e: Entry) {
    e in Filter() || e == Entry("URLFilterRules", Arr(RuleDicts(domains)))
  }

  predicate LastSetting(lib: Library, spec: ExamSpec, opts: SebOptions, e: Entry) {
    || e == Entry("allowQuit", Bool(spec.allowQuit)) || e in QuitPassword(lib, opts)
    || e in Lockdown() || e in Window()
  }

  lemma InEither(a: seq<Entry>, b: seq<Entry>, e: Entry)
    ensures e in a + b <==> e in a || e in b
  {
  }

  lemma LastInserted(lib: Library, spec: ExamSpec, opts: SebOptions, e: Entry)
    requires LastSetting(lib, spec, opts, e)
    ensures e in AfterRules(lib, spec, opts)
  {
    InEither(Lockdown(), Window(), e);
    InEither(QuitPassword(lib, opts), Lockdown() + Window(), e);
    InEither([Entry("allowQuit", Bool(spec.allowQuit))], QuitPassword(lib, opts) + (Lockdown() + Window()), e);
  }

  lemma RuleInserted(lib: Library, spec: ExamSpec, opts: SebOptions, domains: seq<string>, e: Entry)
    requires RuleSetting(domains, e) || LastSetting(lib, spec, opts, e)
    ensures e in AfterSalt(lib, spec, opts, domains)
  {
    var rules := [Entry("URLFilterRules", Arr(RuleDicts(domains)))];
    if LastSetting(lib, spec, opts, e) {
      LastInserted(lib, spec, opts, e);
    }
    InEither(rules, AfterRules(lib, spec, opts), e);
    InEither(Filter(), rules + AfterRules(lib, spec, opts), e);
  }

  lemma Inserted(lib: Library, spec: ExamSpec, opts: SebOptions, domains: seq<string>, e: Entry)
    requires FirstSetting(spec, opts, e) || RuleSetting(domains, e) || LastSetting(lib, spec, opts, e)
    ensures e in Inserts(lib, spec, opts, domains)
  {
    var start := [Entry("startURL", Str(StartUrl(spec, opts)))];
    if !FirstSetting(spec, opts, e) {
      RuleInserted(lib, spec, opts, domains, e);
    }
    InEither(Salt(opts), AfterSalt(lib, spec, opts, domains), e);
    InEither(Handshake(), Salt(opts) + AfterSalt(lib, spec, opts, domains), e);
    InEither(start, AfterStartUrl(lib, spec, opts, domains), e);
    InEither(Opening(), start + AfterStartUrl(lib, spec, opts, domains), e);
  }

  /** Every setting that is inserted is held. */
  lemma SettingHeld(lib: Library, spec: ExamSpec, opts: SebOptions, domains: seq<string>, e: Entry)
    requires FirstSetting(spec, opts, e) || RuleSetting(domains, e) || LastSetting(lib, spec, opts, e)
    ensures Holds(PutAll(Inserts(lib, spec, opts, domains)), e.key, e.value)
  {
    Inserted(lib, spec, opts, domains, e);
    SettingsAreInserts(lib, spec, opts, domains);
    HeldOnce(Inserts(lib, spec, opts, domains), e);
  }

  lemma HeldOnce(es: seq<Entry>, e: Entry)
    requires DistinctKeys(es) && e in es
    ensures Holds(es, e.key, e.value)
  {
    var i :| 0 <= i < |es| && es[i] == e;
    IndexIsUnique(es, e.key, i);
  }

  /** Salt and quit password are held exactly when there are any. */
  lemma SaltKey(lib: Library, spec: ExamSpec, opts: SebOptions, domains: seq<string>)
    ensures HasKey(PutAll(Inserts(lib, spec, opts, domains)), "examKeySalt") <==> opts.examKeySalt != []
  {
    SettingsAreInserts(lib, spec, opts, domains);
    HeaderRanks();
    if opts.examKeySalt != [] {
      SettingHeld(lib, spec, opts, domains, Salt(opts)[0]);
    } else {
      NoSalt(lib, spec, opts, domains, "examKeySalt");
    }
  }

  lemma QuitKey(lib: Library, spec: ExamSpec, opts: SebOptions, domains: seq<string>)
    ensures HasKey(PutAll(Inserts(lib, spec, opts, domains)), "hashedQuitPassword") <==> QuitPassword(lib, opts) != []
  {
    SettingsAreInserts(lib, spec, opts, domains);
    FilterRanks();
    if QuitPassword(lib, opts) != [] {
      SettingHeld(lib, spec, opts, domains, QuitPassword(lib, opts)[0]);
    } else {
      NoQuit(lib, spec, opts, domains, "hashedQuitPassword");
    }
  }

  lemma NoSalt(lib: Library, spec: ExamSpec, opts: SebOptions, domains: seq<string>, k: string)
    requires opts.examKeySalt == [] && Rank(k) == 5
    ensures !HasKey(Inserts(lib, spec, opts, domains), k)
  {
    var start := [Entry("startURL", Str(StartUrl(spec, opts)))];
    FirstSectionsRanked(opts, start[0].value);
    AfterSaltRanked(lib, spec, opts, domains);
    RankedDistinct(Opening(), 0, 2, k);
    RankedDistinct(start, 2, 3, k);
    RankedDistinct(Handshake(), 3, 5, k);
    RankedDistinct(AfterSalt(lib, spec, opts, domains), 6, 23, k);
    HasKeyConcat(Salt(opts), AfterSalt(lib, spec, opts, domains), k);
    HasKeyConcat(Handshake(), Salt(opts) + AfterSalt(lib, spec, opts, domains), k);
    HasKeyConcat(start, AfterStartUrl(lib, spec, opts, domains), k);
    HasKeyConcat(Opening(), start + AfterStartUrl(lib, spec, opts, domains), k);
  }

  lemma NoQuit(lib: Library, spec: ExamSpec, opts: SebOptions, domains: seq<string>, k: string)
    requires QuitPassword(lib, opts) == [] && Rank(k) == 10
    ensures !HasKey(Inserts(lib, spec, opts, domains), k)
  {
    var start := [Entry("startURL", Str(StartUrl(spec, opts)))];
    FirstSectionsRanked(opts, start[0].value);
    RankedDistinct(Opening(), 0, 2, k);
    RankedDistinct(start, 2, 3, k);
    RankedDistinct(Handshake(), 3, 5, k);
    RankedDistinct(Salt(opts), 5, 6, k);
    NoQuitLate(lib, spec, opts, domains, k);
    HasKeyConcat(Salt(opts), AfterSalt(lib, spec, opts, domains), k);
    HasKeyConcat(Handshake(), Salt(opts) + AfterSalt(lib, spec, opts, domains), k);
    HasKeyConcat(start, AfterStartUrl(lib, spec, opts, domains), k);
    HasKeyConcat(Opening(), start + AfterStartUrl(lib, spec, opts, domains), k);
  }

  lemma NoQuitLate(lib: Library, spec: ExamSpec, opts: SebOptions, domains: seq<string>, k: string)
    requires QuitPassword(lib, opts) == [] && Rank(k) == 10
    ensures !HasKey(AfterSalt(lib, spec, opts, domains), k)
  {
    var late := Lockdown() + Window();
    var rules, quit := [Entry("URLFilterRules", Arr(RuleDicts(domains)))], [Entry("allowQuit", Bool(spec.allowQuit))];
    MiddleSectionsRanked(lib, opts, rules[0].value, quit[0].value);
    AfterRulesRanked(lib, spec, opts);
    RankedDistinct(Filter(), 6, 8, k);
    RankedDistinct(rules, 8, 9, k);
    RankedDistinct(quit, 9, 10, k);
    RankedDistinct(late, 11, 23, k);
    HasKeyConcat(QuitPassword(lib, opts), late, k);
    HasKeyConcat(quit, QuitPassword(lib, opts) + late, k);
    HasKeyConcat(rules, AfterRules(lib, spec, opts), k);
    HasKeyConcat(Filter(), rules + AfterRules(lib, spec, opts), k);
  }

  /** What the settings take from the exam and the options. */
  lemma SettingsHold(lib: Library, spec: ExamSpec, opts: SebOptions, domains: seq<string>)
    ensures var es := PutAll(Inserts(lib, spec, opts, domains));
            && DistinctKeys(es)
            && Holds(es, "startURL", Str(StartUrl(spec, opts)))
            && Holds(es, "URLFilterRules", Arr(RuleDicts(domains)))
            && Holds(es, "allowQuit", Bool(spec.allowQuit))
            && (opts.examKeySalt != [] ==> Holds(es, "examKeySalt", Data(opts.examKeySalt)))
            && (HasKey(es, "examKeySalt") ==> opts.examKeySalt != [])
  {
    SettingsAreInserts(lib, spec, opts, domains);
    SaltKey(lib, spec, opts, domains);
    SettingHeld(lib, spec, opts, domains, Entry("startURL", Str(StartUrl(spec, opts))));
    SettingHeld(lib, spec, opts, domains, Entry("URLFilterRules", Arr(RuleDicts(domains))));
    SettingHeld(lib, spec, opts, domains, Entry("allowQuit", Bool(spec.allowQuit)));
    if opts.examKeySalt != [] {
      SettingHeld(lib, spec, opts, domains, Salt(opts)[0]);
    }
  }

  /** What every exam's settings hold: the filter is on for pages and content, the hand-shake with the gate is on,
      nothing can be moved in or out, and the window has a reload button and no address bar. */
  lemma FixedSettings(lib: Library, spec: ExamSpec, opts: SebOptions, domains: seq<string>)
    ensures
      var es := PutAll(Inserts(lib, spec, opts, domains));
      && Holds(es, "URLFilterEnable", Bool(true)) && Holds(es, "URLFilterEnableContentFilter", Bool(true))
      && Holds(es, "sebConfigPurpose", Int(0)) && Holds(es, "originatorVersion", Str("riscv-exam-env_0.3.0"))
      && Holds(es, "restartExamUseStartURL", Bool(true)) && Holds(es, "sendBrowserExamKey", Bool(true))
    ensures
      var es := PutAll(Inserts(lib, spec, opts, domains));
      && Holds(es, "enableBrowserWindowToolbar", Bool(true)) && Holds(es, "browserWindowAllowAddressBar", Bool(false))
      && Holds(es, "browserWindowAllowReload", Bool(true)) && Holds(es, "showReloadButton", Bool(true))
  {
    SettingHeld(lib, spec, opts, domains, Opening()[0]);
    SettingHeld(lib, spec, opts, domains, Opening()[1]);
    SettingHeld(lib, spec, opts, domains, Handshake()[0]);
    SettingHeld(lib, spec, opts, domains, Handshake()[1]);
    SettingHeld(lib, spec, opts, domains, Filter()[0]);
    SettingHeld(lib, spec, opts, domains, Filter()[1]);
    SettingHeld(lib, spec, opts, domains, Window()[0]);
    SettingHeld(lib, spec, opts, domains, Window()[1]);
    SettingHeld(lib, spec, opts, domains, Window()[2]);
    SettingHeld(lib, spec, opts, domains, Window()[3]);
  }

  lemma LockdownSettings(lib: Library, spec: ExamSpec, opts: SebOptions, domains: seq<string>)
    ensures
      var es := PutAll(Inserts(lib, spec, opts, domains));
      && Holds(es, "downloadAndOpenSebConfig", Bool(false)) && Holds(es, "allowDownUploads", Bool(false))
      && Holds(es, "allowDownloads", Bool(false)) && Holds(es, "allowUploads", Bool(false))
      && Holds(es, "allowSpellCheck", Bool(false)) && Holds(es, "allowDeveloperConsole", Bool(false))
      && Holds(es, "examSessionClearCookiesOnStart", Bool(true))
      && Holds(es, "examSessionClearCookiesOnEnd", Bool(true))
  {
    SettingHeld(lib, spec, opts, domains, Lockdown()[0]);
    SettingHeld(lib, spec, opts, domains, Lockdown()[1]);
    SettingHeld(lib, spec, opts, domains, Lockdown()[2]);
    SettingHeld(lib, spec, opts, domains, Lockdown()[3]);
    SettingHeld(lib, spec, opts, domains, Lockdown()[4]);
    SettingHeld(lib, spec, opts, domains, Lockdown()[5]);
    SettingHeld(lib, spec, opts, domains, Lockdown()[6]);
    SettingHeld(lib, spec, opts, domains, Lockdown()[7]);
  }

  /** The quit password is written as its hash, if there is one; and nothing else is written. */
  lemma OtherSettings(lib: Library, spec: ExamSpec, opts: SebOptions, domains: seq<string>)
    ensures
      var es := PutAll(Inserts(lib, spec, opts, domains));
      var password := opts.quitPassword.UnwrapOr("");
      && (password != "" ==> Holds(es, "hashedQuitPassword", Str(lib.sha256Hex(password))))
      && (HasKey(es, "hashedQuitPassword") ==> password != "")
      && |es| == 21 + (if opts.examKeySalt != [] then 1 else 0) + (if password != "" then 1 else 0)
  {
    SettingsAreInserts(lib, spec, opts, domains);
    SaltKey(lib, spec, opts, domains);
    QuitKey(lib, spec, opts, domains);
    if opts.quitPassword.UnwrapOr("") != "" {
      SettingHeld(lib, spec, opts, domains, QuitPassword(lib, opts)[0]);
    }
  }

  // ----- keys and rules are read back as they are --------------------------------------------------

  predicate NoBackslash(s: string) {
    forall i | 0 <= i < |s| :: s[i] != '\\'
  }

  predicate PlainKeys(es: seq<Entry>) {
    forall i | 0 <= i < |es| :: NoBackslash(es[i].key)
  }

  lemma PlainKeysConcat(a: seq<Entry>, b: seq<Entry>)
    requires PlainKeys(a) && PlainKeys(b)
    ensures PlainKeys(a + b)
  {
  }

  lemma TransferNamesPlain()
    ensures NoBackslash("downloadAndOpenSebConfig") && NoBackslash("allowDownUploads")
    ensures NoBackslash("allowDownloads") && NoBackslash("allowUploads")
  {
  }

  lemma BrowserNamesPlain()
    ensures NoBackslash("allowSpellCheck") && NoBackslash("allowDeveloperConsole")
    ensures NoBackslash("examSessionClearCookiesOnStart") && NoBackslash("examSessionClearCookiesOnEnd")
  {
  }

  lemma LockdownPlain()
    ensures PlainKeys(Lockdown())
  {
    TransferNamesPlain();
    BrowserNamesPlain();
  }

  lemma SectionsPlain(lib: Library, opts: SebOptions)
    ensures PlainKeys(Opening()) && PlainKeys(Handshake()) && PlainKeys(Filter())
    ensures PlainKeys(Salt(opts)) && PlainKeys(QuitPassword(lib, opts))
  {
    HeaderNamesPlain();
    FilterNamesPlain();
  }

  lemma HeaderNamesPlain()
    ensures NoBackslash("originatorVersion") && NoBackslash("sebConfigPurpose")
    ensures NoBackslash("restartExamUseStartURL") && NoBackslash("sendBrowserExamKey")
  {
  }

  lemma FilterNamesPlain()
    ensures NoBackslash("URLFilterEnable") && NoBackslash("URLFilterEnableContentFilter")
    ensures NoBackslash("examKeySalt") && NoBackslash("hashedQuitPassword")
  {
  }

  lemma FieldsPlain(v: Value)
    ensures PlainKeys([Entry("startURL", v)]) && PlainKeys([Entry("URLFilterRules", v)])
        && PlainKeys([Entry("allowQuit", v)])
  {
    assert NoBackslash("startURL") && NoBackslash("URLFilterRules") && NoBackslash("allowQuit");
  }

  lemma WindowPlain()
    ensures PlainKeys(Window())
  {
    BarNamesPlain();
    ReloadNamesPlain();
  }

  lemma BarNamesPlain()
    ensures NoBackslash("enableBrowserWindowToolbar") && NoBackslash("browserWindowAllowAddressBar")
  {
  }

  lemma ReloadNamesPlain()
    ensures NoBackslash("browserWindowAllowReload") && NoBackslash("showReloadButton")
  {
  }

  lemma InsertsPlain(lib: Library, spec: ExamSpec, opts: SebOptions, domains: seq<string>)
    ensures PlainKeys(Inserts(lib, spec, opts, domains))
  {
    SectionsPlain(lib, opts);
    LockdownPlain();
    WindowPlain();
    var start := [Entry("startURL", Str(StartUrl(spec, opts)))];
    var rules := [Entry("URLFilterRules", Arr(RuleDicts(domains)))];
    var quit := [Entry("allowQuit", Bool(spec.allowQuit))];
    FieldsPlain(start[0].value);
    FieldsPlain(rules[0].value);
    FieldsPlain(quit[0].value);
    PlainKeysConcat(Lockdown(), Window());
    PlainKeysConcat(QuitPassword(lib, opts), Lockdown() + Window());
    PlainKeysConcat(quit, QuitPassword(lib, opts) + (Lockdown() + Window()));
    PlainKeysConcat(rules, AfterRules(lib, spec, opts));
    PlainKeysConcat(Filter(), rules + AfterRules(lib, spec, opts));
    PlainKeysConcat(Salt(opts), AfterSalt(lib, spec, opts, domains));
    PlainKeysConcat(Handshake(), Salt(opts) + AfterSalt(lib, spec, opts, domains));
    PlainKeysConcat(start, AfterStartUrl(lib, spec, opts, domains));
    PlainKeysConcat(Opening(), start + AfterStartUrl(lib, spec, opts, domains));
  }

  lemma {:induction false} PutAllPlain(inserts: seq<Entry>)
    requires PlainKeys(inserts)
    ensures PlainKeys(PutAll(inserts))
  {
    if inserts == [] {
    } else {
      PutAllPlain(inserts[..|inserts| - 1]);
    }
  }

  lemma PlainIsClear(s: string)
    requires NoBackslash(s)
    ensures IsClear(s) && Unescape(s) == s
  {
    assert forall i | 0 <= i < |s| :: s[i..][0] == s[i];
    ClearIffKept(s);
  }

  lemma PlainKeysAreClear(es: seq<Entry>)
    requires PlainKeys(es)
    ensures ClearKeys(es)
  {
    forall i | 0 <= i < |es| ensures IsClear(es[i].key) {
      PlainIsClear(es[i].key);
    }
  }

  /** Every backslash of a rule escapes a dot. */
  predicate OnlyDotsEscaped(s: string) {
    forall i | 0 <= i < |s| && s[i] == '\\' :: i + 1 < |s| && s[i + 1] == '.'
  }

  lemma OnlyDotsIsClear(s: string)
    requires OnlyDotsEscaped(s)
    ensures IsClear(s) && Unescape(s) == s
  {
    forall i | 0 <= i < |s| ensures HeadEscape(s[i..]).None? {
      assert s[i..][0] == s[i];
      assert |s[i..]| > 1 ==> s[i..][1] == s[i + 1];
    }
    ClearIffKept(s);
  }

  lemma OnlyDotsConcat(a: string, b: string)
    requires OnlyDotsEscaped(a) && OnlyDotsEscaped(b)
    ensures OnlyDotsEscaped(a + b)
  {
    var s := a + b;
    forall i | 0 <= i < |s| && s[i] == '\\' ensures i + 1 < |s| && s[i + 1] == '.' {
      if i < |a| {
        assert a[i] == '\\';
      } else {
        assert b[i - |a|] == '\\';
      }
    }
  }

  lemma {:induction false} EscapeDotsClear(d: string)
    requires NoBackslash(d)
    ensures OnlyDotsEscaped(EscapeDots(d))
  {
    if d == "" {
    } else {
      EscapeDotsClear(d[1..]);
      OnlyDotsConcat(if d[0] == '.' then "\\." else [d[0]], EscapeDots(d[1..]));
    }
  }

  lemma RuleIsClear(d: string)
    requires NoBackslash(d)
    ensures Unescape(DomainRule(d)) == DomainRule(d)
  {
    EscapeDotsClear(d);
    RuleStartClear();
    assert OnlyDotsEscaped("(:[0-9]+)?([/?#].*)?$");
    OnlyDotsConcat("^(https?|wss?)://([^/?#@]*\\.)?", EscapeDots(d));
    OnlyDotsConcat("^(https?|wss?)://([^/?#@]*\\.)?" + EscapeDots(d), "(:[0-9]+)?([/?#].*)?$");
    OnlyDotsIsClear(DomainRule(d));
  }

  lemma RuleStartClear()
    ensures OnlyDotsEscaped("^(https?|wss?)://([^/?#@]*\\.)?")
  {
  }

  lemma {:induction false} EscapeDotsInjective(a: string, b: string)
    requires NoBackslash(a) && NoBackslash(b) && EscapeDots(a) == EscapeDots(b)
    ensures a == b
  {
    if a == "" {
      assert EscapeDots(b) == "";
    } else {
      assert b != "";
      assert EscapeDots(a)[0] == EscapeDots(b)[0];
      assert a[0] == b[0];
      var n := if a[0] == '.' then 2 else 1;
      assert EscapeDots(a)[n..] == EscapeDots(a[1..]);
      assert EscapeDots(b)[n..] == EscapeDots(b[1..]);
      EscapeDotsInjective(a[1..], b[1..]);
      assert a == [a[0]] + a[1..] && b == [b[0]] + b[1..];
    }
  }

  lemma RuleInjective(a: string, b: string)
    requires NoBackslash(a) && NoBackslash(b) && DomainRule(a) == DomainRule(b)
    ensures a == b
  {
    var start, end := "^(https?|wss?)://([^/?#@]*\\.)?", "(:[0-9]+)?([/?#].*)?$";
    MiddleSame(start, EscapeDots(a), EscapeDots(b), end);
    EscapeDotsInjective(a, b);
  }

  lemma MiddleSame(start: string, x: string, y: string, end: string)
    requires start + x + end == start + y + end
    ensures x == y
  {
    assert |x| == |y|;
    CutConcat(start, x + end);
    CutConcat(start, y + end);
    ConcatThree(start, x, end);
    ConcatThree(start, y, end);
    CutConcat(x, end);
    CutConcat(y, end);
  }

  lemma DomainIsPlain(d: string)
    requires IsDomain(d)
    ensures NoBackslash(d)
  {
    DomainChars(d);
  }

  // ----- domains of a successful exam -----------------------------------------------------------------

  /** The URL a board opens, as the instructor or the gate gives it. */
  function RawStartUrl(spec: ExamSpec, opts: SebOptions): string {
    match opts.startUrlOverride
    case Some(u) => u
    case None => spec.startUrl
  }

  /** Rules are written for domains, and one of them covers the host of the start URL. */
  lemma RuleDomainsCoverStart(spec: ExamSpec, opts: SebOptions)
    requires RuleDomains(spec, opts).Ok?
    ensures var domains := RuleDomains(spec, opts).value;
            && (forall d | d in domains :: IsDomain(d))
            && UrlHost(RawStartUrl(spec, opts)).Ok?
            && Admits(domains, UrlHost(RawStartUrl(spec, opts)).value)
  {
    EffectiveDomainsAreDomains(spec);
    match opts.startUrlOverride
    case None =>
    case Some(u) =>
      UrlHostIsDomain(u);
      NormalizeKeepsDomain(UrlHost(u).value);
      WithHost(EffectiveDomains(spec).value, UrlHost(u).value);
  }

  lemma WithHost(domains: seq<string>, host: string)
    requires IsDomain(host) && forall d | d in domains :: IsDomain(d)
    ensures forall d | d in domains + [host] :: IsDomain(d)
    ensures Admits(domains + [host], host)
  {
    assert (domains + [host])[|domains|] == host;
    assert Covered(host, host);
  }

  // ----- equal SEB-JSON means equal exams ----------------------------------------------------------------

  lemma RemoveShape(es: seq<Entry>, x: string)
    requires DistinctKeys(es)
    ensures DistinctKeys(Remove(es, x)) && !HasKey(Remove(es, x), x)
    ensures PlainKeys(es) ==> PlainKeys(Remove(es, x))
  {
    if HasKey(es, x) {
      CutOut(es, IndexOf(es, x));
      CutOutKeys(es, IndexOf(es, x));
    }
  }

  lemma CutOut(es: seq<Entry>, i: nat)
    requires i < |es|
    ensures
      var r := es[..i] + es[i + 1..];
      |r| == |es| - 1 && forall j | 0 <= j < |r| :: r[j] == if j < i then es[j] else es[j + 1]
  {
  }

  lemma CutOutKeys(es: seq<Entry>, i: nat)
    requires i < |es| && DistinctKeys(es)
    ensures DistinctKeys(es[..i] + es[i + 1..]) && !HasKey(es[..i] + es[i + 1..], es[i].key)
    ensures PlainKeys(es) ==> PlainKeys(es[..i] + es[i + 1..])
  {
    CutOut(es, i);
  }

  lemma RemoveKeeps(es: seq<Entry>, x: string, k: string)
    requires DistinctKeys(es) && k != x
    ensures HasKey(Remove(es, x), k) <==> HasKey(es, k)
    ensures HasKey(es, k) ==> Holds(Remove(es, x), k, es[IndexOf(es, k)].value)
  {
    if HasKey(es, x) {
      var i, r := IndexOf(es, x), Remove(es, x);
      RemoveShape(es, x);
      CutOut(es, i);
      if HasKey(es, k) {
        var j := IndexOf(es, k);
        var j' := if j < i then j else j - 1;
        assert r[j'] == es[j];
        IndexIsUnique(r, k, j');
      } else {
        assert forall j | 0 <= j < |r| :: r[j].key != k;
      }
    }
  }

  /** Everything an exam's settings say about the exam. */
  predicate SameExam(spec: ExamSpec, opts: SebOptions, spec': ExamSpec, opts': SebOptions) {
    && Unescape(StartUrl(spec, opts)) == Unescape(StartUrl(spec', opts'))
    && RuleDomains(spec, opts) == RuleDomains(spec', opts')
    && spec.allowQuit == spec'.allowQuit
    && opts.examKeySalt == opts'.examKeySalt
  }

  /** Exams with the same SEB-JSON have the same rules, quit flag and salt, and start URLs that
      read alike: equal ones, when no raw backslash in them starts a look-alike escape. */
  lemma EqualJsonEqualExam(lib: Library, spec: ExamSpec, opts: SebOptions, spec': ExamSpec, opts': SebOptions)
    requires Settings(lib, spec, opts).Ok? && Settings(lib, spec', opts').Ok?
    requires SettingsJson(lib.lower, Settings(lib, spec, opts).value)
        == SettingsJson(lib.lower, Settings(lib, spec', opts').value)
    ensures SameExam(spec, opts, spec', opts')
    ensures IsClear(StartUrl(spec, opts)) && IsClear(StartUrl(spec', opts'))
        ==> StartUrl(spec, opts) == StartUrl(spec', opts')
  {
    var domains, domains' := RuleDomains(spec, opts).value, RuleDomains(spec', opts').value;
    var es := PrintedEntries(lib, spec, opts, domains);
    var fs := PrintedEntries(lib, spec', opts', domains');
    EqualStarts(lib.lower, es, fs, StartUrl(spec, opts), StartUrl(spec', opts'));
    EqualFlags(lib.lower, es, fs, spec.allowQuit, spec'.allowQuit);
    RuleDomainsCoverStart(spec, opts);
    RuleDomainsCoverStart(spec', opts');
    EqualRuleLists(lib.lower, es, fs, domains, domains');
    EqualSalts(lib.lower, es, fs, opts.examKeySalt, opts'.examKeySalt);
    ClearIffKept(StartUrl(spec, opts));
    ClearIffKept(StartUrl(spec', opts'));
  }

  predicate BothPrintAlike(lower: Lowercase, es: seq<Entry>, fs: seq<Entry>) {
    && DistinctKeys(es) && DistinctKeys(fs) && ClearKeys(es) && ClearKeys(fs)
    && Json(lower, Dict(es)) == Json(lower, Dict(fs))
  }

  lemma EqualStarts(lower: Lowercase, es: seq<Entry>, fs: seq<Entry>, u: string, u': string)
    requires BothPrintAlike(lower, es, fs)
    requires Holds(es, "startURL", Str(u)) && Holds(fs, "startURL", Str(u'))
    ensures Unescape(u) == Unescape(u')
  {
    EqualJsonHoldsEqual(lower, es, fs, "startURL");
  }

  lemma EqualFlags(lower: Lowercase, es: seq<Entry>, fs: seq<Entry>, b: bool, b': bool)
    requires BothPrintAlike(lower, es, fs)
    requires Holds(es, "allowQuit", Bool(b)) && Holds(fs, "allowQuit", Bool(b'))
    ensures b == b'
  {
    EqualJsonHoldsEqual(lower, es, fs, "allowQuit");
  }

  lemma EqualRuleLists(lower: Lowercase, es: seq<Entry>, fs: seq<Entry>, domains: seq<string>, domains': seq<string>)
    requires BothPrintAlike(lower, es, fs)
    requires Holds(es, "URLFilterRules", Arr(RuleDicts(domains)))
        && Holds(fs, "URLFilterRules", Arr(RuleDicts(domains')))
    requires (forall d | d in domains :: IsDomain(d)) && (forall d | d in domains' :: IsDomain(d))
    ensures domains == domains'
  {
    EqualJsonHoldsEqual(lower, es, fs, "URLFilterRules");
    EqualRules(lower, domains, domains');
  }

  /** The entries that reach the printer. */
  lemma PrintedEntries(lib: Library, spec: ExamSpec, opts: SebOptions, domains: seq<string>) returns (es: seq<Entry>)
    ensures es == Remove(PutAll(Inserts(lib, spec, opts, domains)), "originatorVersion")
    ensures DistinctKeys(es) && ClearKeys(es)
    ensures Holds(es, "startURL", Str(StartUrl(spec, opts)))
    ensures Holds(es, "URLFilterRules", Arr(RuleDicts(domains)))
    ensures Holds(es, "allowQuit", Bool(spec.allowQuit))
    ensures opts.examKeySalt != [] ==> Holds(es, "examKeySalt", Data(opts.examKeySalt))
    ensures HasKey(es, "examKeySalt") ==> opts.examKeySalt != []
  {
    var all := PutAll(Inserts(lib, spec, opts, domains));
    es := Remove(all, "originatorVersion");
    SettingsHold(lib, spec, opts, domains);
    InsertsPlain(lib, spec, opts, domains);
    PutAllPlain(Inserts(lib, spec, opts, domains));
    RemoveShape(all, "originatorVersion");
    RemoveKeeps(all, "originatorVersion", "startURL");
    RemoveKeeps(all, "originatorVersion", "URLFilterRules");
    RemoveKeeps(all, "originatorVersion", "allowQuit");
    RemoveKeeps(all, "originatorVersion", "examKeySalt");
    PlainKeysAreClear(es);
  }

  lemma EqualSalts(lower: Lowercase, es: seq<Entry>, fs: seq<Entry>, salt: seq<Byte>, salt': seq<Byte>)
    requires BothPrintAlike(lower, es, fs)
    requires salt != [] ==> Holds(es, "examKeySalt", Data(salt))
    requires salt' != [] ==> Holds(fs, "examKeySalt", Data(salt'))
    requires HasKey(es, "examKeySalt") ==> salt != []
    requires HasKey(fs, "examKeySalt") ==> salt' != []
    ensures salt == salt'
  {
    if salt != [] {
      EqualJsonHoldsEqual(lower, es, fs, "examKeySalt");
      PlainIsClear(Base64.Encode(salt));
      PlainIsClear(Base64.Encode(salt'));
      EncodeInjective(salt, salt');
    } else if salt' != [] {
      EqualJsonHoldsEqual(lower, fs, es, "examKeySalt");
    }
  }

  /** Without empty dictionaries an array keeps all its items. */
  lemma {:induction false} NothingPruned(lower: Lowercase, items: seq<Value>, m: nat)
    requires m <= |items| && forall j | 0 <= j < |items| :: !IsEmptyDict(items[j])
    ensures |PrunedItems(lower, items[..m])| == m
  {
    if m == 0 {
    } else {
      NothingPruned(lower, items, m - 1);
      LastIsPruned(lower, items, m - 1);
    }
  }

  lemma {:induction false} EachPruned(lower: Lowercase, items: seq<Value>, m: nat, i: nat)
    requires i < m <= |items| && forall j | 0 <= j < |items| :: !IsEmptyDict(items[j])
    ensures |PrunedItems(lower, items[..m])| == m
    ensures PrunedItems(lower, items[..m])[i] == Pruned(lower, items[i])
  {
    NothingPruned(lower, items, m - 1);
    LastIsPruned(lower, items, m - 1);
    if i == m - 1 {
    } else {
      EachPruned(lower, items, m - 1, i);
    }
  }

  lemma LastIsPruned(lower: Lowercase, items: seq<Value>, n: nat)
    requires n < |items| && !IsEmptyDict(items[n])
    ensures PrunedItems(lower, items[..n + 1]) == PrunedItems(lower, items[..n]) + [Pruned(lower, items[n])]
  {
    assert items[..n + 1][..n] == items[..n];
  }

  lemma RulesNormal(lower: Lowercase, domains: seq<string>)
    ensures var ns := CleanItems(PrunedItems(lower, RuleDicts(domains)));
            |ns| == |domains| && forall i | 0 <= i < |ns| :: ns[i] == Normal(lower, RuleDict(domains[i]))
  {
    var items := RuleDicts(domains);
    assert items[..|items|] == items;
    NothingPruned(lower, items, |items|);
    forall i | 0 <= i < |items|
      ensures CleanItems(PrunedItems(lower, items))[i] == Normal(lower, items[i])
    {
      EachPruned(lower, items, |items|, i);
    }
  }

  lemma EqualRules(lower: Lowercase, domains: seq<string>, domains': seq<string>)
    requires Normal(lower, Arr(RuleDicts(domains))) == Normal(lower, Arr(RuleDicts(domains')))
    requires (forall d | d in domains :: IsDomain(d)) && (forall d | d in domains' :: IsDomain(d))
    ensures domains == domains'
  {
    RulesNormal(lower, domains);
    RulesNormal(lower, domains');
    forall i | 0 <= i < |domains| ensures domains[i] == domains'[i] {
      assert domains[i] in domains && domains'[i] in domains';
      EqualRule(lower, domains[i], domains'[i]);
    }
  }

  lemma EqualRule(lower: Lowercase, d: string, d': string)
    requires IsDomain(d) && IsDomain(d') && Normal(lower, RuleDict(d)) == Normal(lower, RuleDict(d'))
    ensures d == d'
  {
    RuleInNormal(lower, d);
    RuleInNormal(lower, d');
    DomainIsPlain(d);
    DomainIsPlain(d');
    RuleInjective(d, d');
  }

  /** The normal form of a rule still holds its expression. */
  lemma RuleInNormal(lower: Lowercase, d: string)
    requires IsDomain(d)
    ensures
      var ns := Normal(lower, RuleDict(d)).entries;
      HasKey(ns, "expression") && ns[IndexOf(ns, "expression")].value == Str(DomainRule(d))
  {
    DomainIsPlain(d);
    RuleDictHolds(d);
    NormalHolds(lower, RuleDict(d).entries, "expression");
    RuleIsClear(d);
  }

  lemma RuleDictHolds(d: string)
    ensures DistinctKeys(RuleDict(d).entries) && ClearKeys(RuleDict(d).entries)
    ensures Holds(RuleDict(d).entries, "expression", Str(DomainRule(d)))
  {
    var es := RuleDict(d).entries;
    assert PlainKeys(es);
    PlainKeysAreClear(es);
    assert es[2].key == "expression";
    IndexIsUnique(es, "expression", 2);
  }
}
