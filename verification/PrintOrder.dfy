/** The order in which keys are printed, told without the sorting. */
module PrintOrder {
  import opened Strings
  import opened Plist
  import opened KeyOrder
  import opened JsonText
  import opened SebJson
  import opened SebCanon
  import opened Seb
  import opened ExamSettings
  import Lex

  // ----- the order ---------------------------------------------------------------------------

  /** By lower-cased key; among keys that are equal but for case, the greater one, lower case, first. */
  predicate Before(lower: Lowercase, k: string, m: string) {
    Lex.Less(lower(k), lower(m)) || (lower(k) == lower(m) && Lex.Less(m, k))
  }

  lemma BeforeIsKeyLess(lower: Lowercase, k: string, m: string)
    ensures Before(lower, k, m) <==> KeyLess(lower, k, m)
  {
  }

  predicate InOrder(lower: Lowercase, es: seq<Entry>) {
    forall i, j | 0 <= i < j < |es| :: Before(lower, es[i].key, es[j].key)
  }

  /** Every dictionary at any depth has its keys in order. */
  predicate OrderedTree(lower: Lowercase, v: Value) {
    match v
    case Dict(es) => InOrder(lower, es) && forall i | 0 <= i < |es| :: OrderedTree(lower, es[i].value)
    case Arr(items) => forall i | 0 <= i < |items| :: OrderedTree(lower, items[i])
    case _ => true
  }

  lemma SortedInOrder(lower: Lowercase, es: seq<Entry>, keys: seq<string>)
    requires Sorted(lower, keys) && |es| == |keys| && forall i | 0 <= i < |es| :: es[i].key == keys[i]
    ensures InOrder(lower, es)
  {
    forall i, j | 0 <= i < j < |es| ensures Before(lower, es[i].key, es[j].key) {
      BeforeIsKeyLess(lower, keys[i], keys[j]);
    }
  }

  /** What is printed of a plist is in order. */
  lemma {:induction false} PrunedInOrder(lower: Lowercase, v: Value)
    requires IsPlist(v)
    ensures OrderedTree(lower, Pruned(lower, v))
    decreases v
  {
    match v
    case Dict(es) =>
      var keys := Sort(lower, ShownKeys(es));
      ShownInOrder(lower, es);
      forall i | 0 <= i < |keys| ensures OrderedTree(lower, PrunedEntries(lower, es, keys)[i].value) {
        PrunedEntryValue(lower, es, keys, i);
        PrunedInOrder(lower, es[IndexOf(es, keys[i])].value);
      }
    case Arr(items) =>
      ItemsInOrder(lower, items, |items|);
      assert items[..|items|] == items;
      assert Pruned(lower, v) == Arr(PrunedItems(lower, items));
      ArrayInOrder(lower, PrunedItems(lower, items));
    case _ =>
  }

  lemma ArrayInOrder(lower: Lowercase, items: seq<Value>)
    requires forall i | 0 <= i < |items| :: OrderedTree(lower, items[i])
    ensures OrderedTree(lower, Arr(items))
  {
  }

  lemma ShownInOrder(lower: Lowercase, es: seq<Entry>)
    requires DistinctKeys(es)
    ensures InOrder(lower, PrunedEntries(lower, es, Sort(lower, ShownKeys(es))))
  {
    var keys := Sort(lower, ShownKeys(es));
    ShownKeysMembers(es);
    SortSorts(lower, ShownKeys(es));
    SortedInOrder(lower, PrunedEntries(lower, es, keys), keys);
  }

  lemma {:induction false} PrunedEntryValue(lower: Lowercase, es: seq<Entry>, keys: seq<string>, i: nat)
    requires (forall k | k in keys :: HasKey(es, k)) && i < |keys|
    ensures HasKey(es, keys[i])
    ensures PrunedEntries(lower, es, keys)[i] == Entry(keys[i], Pruned(lower, es[IndexOf(es, keys[i])].value))
    decreases |keys|
  {
    assert keys[i] in keys;
    if i == |keys| - 1 {
    } else {
      PrunedEntryValue(lower, es, keys[..|keys| - 1], i);
    }
  }

  lemma {:induction false} ItemsInOrder(lower: Lowercase, items: seq<Value>, m: nat)
    requires m <= |items| && forall i | 0 <= i < |items| :: IsPlist(items[i])
    ensures
      var pruned := PrunedItems(lower, items[..m]);
      forall i | 0 <= i < |pruned| :: OrderedTree(lower, pruned[i])
    decreases items, 0, m
  {
    if m == 0 {
    } else {
      ItemsInOrder(lower, items, m - 1);
      PrunedInOrder(lower, items[m - 1]);
      LastItem(lower, items, m);
    }
  }

  lemma LastItem(lower: Lowercase, items: seq<Value>, m: nat)
    requires 0 < m <= |items|
    ensures PrunedItems(lower, items[..m])
         == PrunedItems(lower, items[..m - 1])
            + (if IsEmptyDict(items[m - 1]) then [] else [Pruned(lower, items[m - 1])])
  {
    assert items[..m][..m - 1] == items[..m - 1];
  }

  // ----- and the text --------------------------------------------------------------------------------

  /** How an entry of a dictionary begins in the text. */
  function KeyText(k: string): string {
    Quoted(k) + ":"
  }

  /** Where an entry starts and ends in the text of a dictionary. */
  lemma {:induction false} EntryInText(es: seq<Entry>, i: nat) returns (a: string, c: string)
    requires i < |es|
    ensures PrintEntries(es) == a + PrintEntry(es[i]) + c
    ensures i == |es| - 1 ==> c == ""
    decreases |es|
  {
    var n := |es| - 1;
    if i == n {
      c := "";
      if n == 0 {
        a := "";
        assert PrintEntries(es) == "" + PrintEntry(es[0]) + "";
      } else {
        a := PrintEntries(es[..n]) + ",";
        assert PrintEntries(es) == a + PrintEntry(es[n]) + "";
      }
    } else {
      var d;
      a, d := EntryInText(es[..n], i);
      c := d + ("," + PrintEntry(es[n]));
      Extend(a, PrintEntry(es[i]), d, "," + PrintEntry(es[n]));
      LastEntryText(es);
    }
  }

  lemma LastEntryText(es: seq<Entry>)
    requires |es| > 1
    ensures PrintEntries(es) == PrintEntries(es[..|es| - 1]) + ("," + PrintEntry(es[|es| - 1]))
  {
    ConcatThree(PrintEntries(es[..|es| - 1]), ",", PrintEntry(es[|es| - 1]));
  }

  lemma Extend(a: string, b: string, c: string, d: string)
    ensures a + b + c + d == a + b + (c + d)
  {
    ConcatThree(a + b, c, d);
  }

  /** Of two entries, the earlier stands earlier in the text. */
  lemma {:induction false} TwoEntries(es: seq<Entry>, i: nat, j: nat) returns (a: string, b: string, c: string)
    requires i < j < |es|
    ensures PrintEntries(es) == a + PrintEntry(es[i]) + b + PrintEntry(es[j]) + c
    decreases |es|
  {
    var n := |es| - 1;
    LastEntryText(es);
    if j == n {
      var d;
      a, d := EntryInText(es[..n], i);
      b, c := d + ",", "";
      JoinLast(a, PrintEntry(es[i]), d, PrintEntry(es[n]));
    } else {
      var d;
      a, b, d := TwoEntries(es[..n], i, j);
      c := d + ("," + PrintEntry(es[n]));
      Extend(a + PrintEntry(es[i]) + b, PrintEntry(es[j]), d, "," + PrintEntry(es[n]));
    }
  }

  lemma JoinLast(a: string, e: string, d: string, f: string)
    ensures a + e + d + ("," + f) == a + e + (d + ",") + f + ""
  {
    ConcatThree(a + e, d, ",");
    ConcatThree(a + e + d, ",", f);
    assert a + e + (d + ",") + f + "" == a + e + (d + ",") + f;
  }

  /** In the text of a dictionary, a shown key that comes before another in the order stands before it. */
  lemma KeysPrintedInOrder(lower: Lowercase, es: seq<Entry>, k: string, m: string)
      returns (a: string, b: string, c: string)
    requires DistinctKeys(es) && HasKey(es, k) && HasKey(es, m) && Before(lower, k, m)
    requires !IsEmptyDict(es[IndexOf(es, k)].value) && !IsEmptyDict(es[IndexOf(es, m)].value)
    ensures Json(lower, Dict(es)) == a + KeyText(k) + b + KeyText(m) + c
  {
    var keys := Sort(lower, ShownKeys(es));
    var ps := PrunedEntries(lower, es, keys);
    ShownInOrder(lower, es);
    ShownKeyIff(es, k);
    ShownKeyIff(es, m);
    var i :| 0 <= i < |keys| && keys[i] == k;
    var j :| 0 <= j < |keys| && keys[j] == m;
    OrderDecides(lower, ps, i, j);
    var x, y, z := TwoEntries(ps, i, j);
    a, b, c := "{" + x, Print(ps[i].value) + y, Print(ps[j].value) + z + "}";
    Spread(x, KeyText(k), Print(ps[i].value), y, KeyText(m), Print(ps[j].value), z);
  }

  lemma OrderDecides(lower: Lowercase, es: seq<Entry>, i: nat, j: nat)
    requires InOrder(lower, es) && i < |es| && j < |es| && Before(lower, es[i].key, es[j].key)
    ensures i < j
  {
    BeforeIsKeyLess(lower, es[i].key, es[j].key);
    BeforeIsKeyLess(lower, es[j].key, es[i].key);
    KeyLessIsStrictTotal(lower, es[i].key, es[j].key, es[i].key);
  }

  lemma Spread(x: string, k: string, v: string, y: string, m: string, w: string, z: string)
    ensures "{" + (x + (k + v) + y + (m + w) + z) + "}" == ("{" + x) + k + (v + y) + m + (w + z + "}")
  {
    ConcatThree(x, k, v);
    ConcatThree(x + k, v, y);
    ConcatThree(x + k + (v + y), m, w);
    ConcatThree(x + k + (v + y) + m, w, z);
    BracesOut(x, k, v + y, m, w + z);
    ConcatThree(w, z, "}");
  }

  lemma BracesOut(x: string, k: string, u: string, m: string, w: string)
    ensures "{" + (x + k + u + m + w) + "}" == ("{" + x) + k + u + m + (w + "}")
  {
    ConcatThree("{", x + k + u + m, w);
    ConcatThree("{", x + k + u, m);
    ConcatThree("{", x + k, u);
    ConcatThree("{", x, k);
    ConcatThree(("{" + x) + k + u + m, w, "}");
  }

  // ----- in an exam's text ---------------------------------------------------------------------------------

  /** With a lower-casing that does what it should to two of the keys, every exam's text has "allowQuit" before
      "URLFilterEnable". */
  lemma ExamKeysInOrder(lib: Library, spec: ExamSpec, opts: SebOptions) returns (a: string, b: string, c: string)
    requires Settings(lib, spec, opts).Ok?
    requires lib.lower("allowQuit") == "allowquit" && lib.lower("URLFilterEnable") == "urlfilterenable"
    ensures SettingsJson(lib.lower, Settings(lib, spec, opts).value)
         == a + KeyText("allowQuit") + b + KeyText("URLFilterEnable") + c
  {
    var domains := RuleDomains(spec, opts).value;
    var all := PutAll(Inserts(lib, spec, opts, domains));
    SettingsHold(lib, spec, opts, domains);
    FixedSettings(lib, spec, opts, domains);
    RemoveShape(all, "originatorVersion");
    RemoveKeeps(all, "originatorVersion", "allowQuit");
    RemoveKeeps(all, "originatorVersion", "URLFilterEnable");
    assert Before(lib.lower, "allowQuit", "URLFilterEnable") by {
      assert "allowquit"[0] < "urlfilterenable"[0];
    }
    a, b, c := KeysPrintedInOrder(lib.lower, Remove(all, "originatorVersion"), "allowQuit", "URLFilterEnable");
  }
}
