/** Exactly which exams share their SEB-JSON, and so their Config Key. */
module ExamAlike {
  import opened Strings
  import opened Seb
  import opened Plist
  import opened KeyOrder
  import opened JsonText
  import opened SebJson
  import opened SebReader
  import opened SebCanon
  import opened ExamSettings

  // ----- alike dictionaries -----------------------------------------------------------------

  /** Equal, or strings that read alike. */
  predicate AlikeValues(v: Value, w: Value) {
    v == w || (v.Str? && w.Str? && Unescape(v.s) == Unescape(w.s))
  }

  /** The same keys in the same order, with alike values. */
  predicate AlikeEntries(es: seq<Entry>, fs: seq<Entry>) {
    && |es| == |fs|
    && forall i | 0 <= i < |es| :: es[i].key == fs[i].key && AlikeValues(es[i].value, fs[i].value)
  }

  lemma HasKeyAlike(es: seq<Entry>, fs: seq<Entry>, k: string)
    requires AlikeEntries(es, fs)
    ensures HasKey(es, k) <==> HasKey(fs, k)
  {
    if HasKey(es, k) {
      var i :| 0 <= i < |es| && es[i].key == k;
      assert fs[i].key == k;
    }
    if HasKey(fs, k) {
      var i :| 0 <= i < |fs| && fs[i].key == k;
      assert es[i].key == k;
    }
  }

  lemma HasKeyTail(es: seq<Entry>, k: string)
    requires HasKey(es, k) && es[0].key != k
    ensures HasKey(es[1..], k) && IndexOf(es, k) == 1 + IndexOf(es[1..], k)
  {
    var i :| 0 <= i < |es| && es[i].key == k;
    assert es[1..][i - 1].key == k;
  }

  lemma {:induction false} SameIndex(es: seq<Entry>, fs: seq<Entry>, k: string)
    requires AlikeEntries(es, fs) && HasKey(es, k)
    ensures HasKey(fs, k) && IndexOf(fs, k) == IndexOf(es, k)
  {
    HasKeyAlike(es, fs, k);
    if es[0].key == k {
      assert fs[0].key == k;
    } else {
      HasKeyTail(es, k);
      HasKeyTail(fs, k);
      SameIndex(es[1..], fs[1..], k);
    }
  }

  lemma AlikeConcat(a: seq<Entry>, b: seq<Entry>, c: seq<Entry>, d: seq<Entry>)
    requires AlikeEntries(a, c) && AlikeEntries(b, d)
    ensures AlikeEntries(a + b, c + d)
  {
  }

  lemma PutAlike(es: seq<Entry>, fs: seq<Entry>, e: Entry, f: Entry)
    requires AlikeEntries(es, fs) && AlikeEntries([e], [f])
    ensures AlikeEntries(Put(es, e), Put(fs, f))
  {
    assert [e][0].key == [f][0].key && AlikeValues([e][0].value, [f][0].value);
    HasKeyAlike(es, fs, e.key);
    if HasKey(es, e.key) {
      SameIndex(es, fs, e.key);
    }
  }

  lemma {:induction false} PutAllAlike(es: seq<Entry>, fs: seq<Entry>)
    requires AlikeEntries(es, fs)
    ensures AlikeEntries(PutAll(es), PutAll(fs))
  {
    if es == [] {
    } else {
      var n := |es| - 1;
      PutAllAlike(es[..n], fs[..n]);
      PutAlike(PutAll(es[..n]), PutAll(fs[..n]), es[n], fs[n]);
    }
  }

  lemma RemoveAlike(es: seq<Entry>, fs: seq<Entry>, k: string)
    requires AlikeEntries(es, fs)
    ensures AlikeEntries(Remove(es, k), Remove(fs, k))
  {
    HasKeyAlike(es, fs, k);
    if HasKey(es, k) {
      SameIndex(es, fs, k);
      CutAlike(es, fs, IndexOf(es, k));
    }
  }

  lemma CutAlike(es: seq<Entry>, fs: seq<Entry>, i: nat)
    requires AlikeEntries(es, fs) && i < |es|
    ensures AlikeEntries(es[..i] + es[i + 1..], fs[..i] + fs[i + 1..])
  {
    AlikeConcat(es[..i], es[i + 1..], fs[..i], fs[i + 1..]);
  }

  // ----- and what is printed for them ---------------------------------------------------------

  lemma {:induction false} SameShown(es: seq<Entry>, fs: seq<Entry>)
    requires AlikeEntries(es, fs)
    ensures ShownKeys(es) == ShownKeys(fs)
  {
    if es == [] {
    } else {
      var n := |es| - 1;
      SameShown(es[..n], fs[..n]);
      assert AlikeValues(es[n].value, fs[n].value);
    }
  }

  lemma AlikeNormal(lower: Lowercase, v: Value, w: Value)
    requires AlikeValues(v, w)
    ensures Normal(lower, v) == Normal(lower, w)
  {
  }

  lemma PrunedAlike(lower: Lowercase, es: seq<Entry>, fs: seq<Entry>, keys: seq<string>)
    requires AlikeEntries(es, fs)
    requires forall k | k in keys :: HasKey(es, k) && HasKey(fs, k)
    ensures CleanEntries(PrunedEntries(lower, es, keys)) == CleanEntries(PrunedEntries(lower, fs, keys))
  {
    var ps, qs := PrunedEntries(lower, es, keys), PrunedEntries(lower, fs, keys);
    forall i | 0 <= i < |keys| ensures CleanEntries(ps)[i] == CleanEntries(qs)[i] {
      PrunedEntryAt(lower, es, keys, i);
      PrunedEntryAt(lower, fs, keys, i);
      SameIndex(es, fs, keys[i]);
      AlikeNormal(lower, es[IndexOf(es, keys[i])].value, fs[IndexOf(fs, keys[i])].value);
    }
  }

  /** Alike dictionaries have the same SEB-JSON. */
  lemma AlikePrintAlike(lower: Lowercase, es: seq<Entry>, fs: seq<Entry>)
    requires AlikeEntries(es, fs)
    ensures Json(lower, Dict(es)) == Json(lower, Dict(fs))
  {
    SameShown(es, fs);
    PrunedAlike(lower, es, fs, Sort(lower, ShownKeys(es)));
    JsonCollision(lower, Dict(es), Dict(fs));
  }

  // ----- exams ---------------------------------------------------------------------------------

  /** The hash of the quit password as it reads, if one is written. */
  function QuitHash(lib: Library, opts: SebOptions): Option<string> {
    match opts.quitPassword
    case Some(pw) => if pw == "" then None else Some(Unescape(lib.sha256Hex(pw)))
    case None => None
  }

  lemma AlikeInserts(lib: Library, spec: ExamSpec, opts: SebOptions, spec': ExamSpec, opts': SebOptions,
                     domains: seq<string>)
    requires Unescape(StartUrl(spec, opts)) == Unescape(StartUrl(spec', opts'))
    requires spec.allowQuit == spec'.allowQuit && opts.examKeySalt == opts'.examKeySalt
    requires QuitHash(lib, opts) == QuitHash(lib, opts')
    ensures AlikeEntries(Inserts(lib, spec, opts, domains), Inserts(lib, spec', opts', domains))
  {
    var start := [Entry("startURL", Str(StartUrl(spec, opts)))];
    var start' := [Entry("startURL", Str(StartUrl(spec', opts')))];
    var late := Lockdown() + Window();
    var quit := [Entry("allowQuit", Bool(spec.allowQuit))];
    var rules := [Entry("URLFilterRules", Arr(RuleDicts(domains)))];
    AlikeConcat(QuitPassword(lib, opts), late, QuitPassword(lib, opts'), late);
    AlikeConcat(quit, QuitPassword(lib, opts) + late, quit, QuitPassword(lib, opts') + late);
    AlikeConcat(rules, AfterRules(lib, spec, opts), rules, AfterRules(lib, spec', opts'));
    AlikeConcat(Filter(), rules + AfterRules(lib, spec, opts), Filter(), rules + AfterRules(lib, spec', opts'));
    AlikeConcat(Salt(opts), AfterSalt(lib, spec, opts, domains), Salt(opts'), AfterSalt(lib, spec', opts', domains));
    AlikeConcat(Handshake(), Salt(opts) + AfterSalt(lib, spec, opts, domains),
                Handshake(), Salt(opts') + AfterSalt(lib, spec', opts', domains));
    AlikeConcat(start, AfterStartUrl(lib, spec, opts, domains), start', AfterStartUrl(lib, spec', opts', domains));
    AlikeConcat(Opening(), start + AfterStartUrl(lib, spec, opts, domains),
                Opening(), start' + AfterStartUrl(lib, spec', opts', domains));
  }

  /** The same exam with the same quit password gives the same SEB-JSON. */
  lemma EqualExamEqualJson(lib: Library, spec: ExamSpec, opts: SebOptions, spec': ExamSpec, opts': SebOptions)
    requires Settings(lib, spec, opts).Ok? && Settings(lib, spec', opts').Ok?
    requires SameExam(spec, opts, spec', opts') && QuitHash(lib, opts) == QuitHash(lib, opts')
    ensures SettingsJson(lib.lower, Settings(lib, spec, opts).value)
         == SettingsJson(lib.lower, Settings(lib, spec', opts').value)
  {
    var domains := RuleDomains(spec, opts).value;
    var es, fs := Inserts(lib, spec, opts, domains), Inserts(lib, spec', opts', domains);
    AlikeInserts(lib, spec, opts, spec', opts', domains);
    PutAllAlike(es, fs);
    RemoveAlike(PutAll(es), PutAll(fs), "originatorVersion");
    AlikePrintAlike(lib.lower, Remove(PutAll(es), "originatorVersion"), Remove(PutAll(fs), "originatorVersion"));
  }

  // ----- the quit password ------------------------------------------------------------------------

  lemma PrintedQuit(lib: Library, spec: ExamSpec, opts: SebOptions, domains: seq<string>)
    ensures
      var es := Remove(PutAll(Inserts(lib, spec, opts, domains)), "originatorVersion");
      && (HasKey(es, "hashedQuitPassword") <==> QuitPassword(lib, opts) != [])
      && (QuitPassword(lib, opts) != [] ==> Holds(es, "hashedQuitPassword", QuitPassword(lib, opts)[0].value))
  {
    var all := PutAll(Inserts(lib, spec, opts, domains));
    QuitKey(lib, spec, opts, domains);
    PutAllHolds(Inserts(lib, spec, opts, domains), "hashedQuitPassword");
    RemoveKeeps(all, "originatorVersion", "hashedQuitPassword");
    if QuitPassword(lib, opts) != [] {
      SettingHeld(lib, spec, opts, domains, QuitPassword(lib, opts)[0]);
    }
  }

  lemma EqualJsonEqualQuit(lib: Library, spec: ExamSpec, opts: SebOptions, spec': ExamSpec, opts': SebOptions)
    requires Settings(lib, spec, opts).Ok? && Settings(lib, spec', opts').Ok?
    requires SettingsJson(lib.lower, Settings(lib, spec, opts).value)
        == SettingsJson(lib.lower, Settings(lib, spec', opts').value)
    ensures QuitHash(lib, opts) == QuitHash(lib, opts')
  {
    var domains, domains' := RuleDomains(spec, opts).value, RuleDomains(spec', opts').value;
    var es := PrintedEntries(lib, spec, opts, domains);
    var fs := PrintedEntries(lib, spec', opts', domains');
    PrintedQuit(lib, spec, opts, domains);
    PrintedQuit(lib, spec', opts', domains');
    QuitIsText(lib, opts);
    QuitIsText(lib, opts');
    EqualQuits(lib.lower, es, fs, QuitPassword(lib, opts), QuitPassword(lib, opts'));
  }

  lemma QuitIsText(lib: Library, opts: SebOptions)
    ensures QuitPassword(lib, opts) != [] ==> QuitPassword(lib, opts)[0].value.Str?
    ensures QuitHash(lib, opts)
         == if QuitPassword(lib, opts) == [] then None else Some(Unescape(QuitPassword(lib, opts)[0].value.s))
  {
  }

  lemma EqualQuits(lower: Lowercase, es: seq<Entry>, fs: seq<Entry>, q: seq<Entry>, q': seq<Entry>)
    requires BothPrintAlike(lower, es, fs)
    requires HasKey(es, "hashedQuitPassword") <==> q != []
    requires HasKey(fs, "hashedQuitPassword") <==> q' != []
    requires q != [] ==> q[0].value.Str? && Holds(es, "hashedQuitPassword", q[0].value)
    requires q' != [] ==> q'[0].value.Str? && Holds(fs, "hashedQuitPassword", q'[0].value)
    ensures q == [] <==> q' == []
    ensures q != [] ==> Unescape(q[0].value.s) == Unescape(q'[0].value.s)
  {
    if q != [] {
      EqualJsonHoldsEqual(lower, es, fs, "hashedQuitPassword");
    } else if q' != [] {
      EqualJsonHoldsEqual(lower, fs, es, "hashedQuitPassword");
    }
  }

  /** Two exams have the same SEB-JSON exactly when their start URLs read alike and they have the same rules,
      quit flag, salt and quit password hash. */
  lemma ExamsPrintAlike(lib: Library, spec: ExamSpec, opts: SebOptions, spec': ExamSpec, opts': SebOptions)
    requires Settings(lib, spec, opts).Ok? && Settings(lib, spec', opts').Ok?
    ensures
      SettingsJson(lib.lower, Settings(lib, spec, opts).value)
          == SettingsJson(lib.lower, Settings(lib, spec', opts').value)
      <==> SameExam(spec, opts, spec', opts') && QuitHash(lib, opts) == QuitHash(lib, opts')
  {
    if SettingsJson(lib.lower, Settings(lib, spec, opts).value)
       == SettingsJson(lib.lower, Settings(lib, spec', opts').value) {
      EqualJsonEqualExam(lib, spec, opts, spec', opts');
      EqualJsonEqualQuit(lib, spec, opts, spec', opts');
    } else if SameExam(spec, opts, spec', opts') && QuitHash(lib, opts) == QuitHash(lib, opts') {
      EqualExamEqualJson(lib, spec, opts, spec', opts');
    }
  }
}
