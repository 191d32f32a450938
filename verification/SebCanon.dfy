/** SEB-JSON does not depend on the order of dictionary entries, and keeps what they hold. */
module SebCanon {
  import opened Strings
  import opened Plist
  import opened KeyOrder
  import opened JsonText
  import opened SebJson
  import opened SebReader

  /** Equal but for the order of the entries of dictionaries at any depth. */
  predicate SameUpToOrder(v: Value, w: Value)
    decreases v
  {
    match v
    case Dict(es) =>
      && w.Dict?
      && (forall j | 0 <= j < |w.entries| :: HasKey(es, w.entries[j].key))
      && (forall i | 0 <= i < |es| ::
            && HasKey(w.entries, es[i].key)
            && SameUpToOrder(es[i].value, w.entries[IndexOf(w.entries, es[i].key)].value))
    case Arr(items) =>
      && w.Arr?
      && |w.items| == |items|
      && (forall i | 0 <= i < |items| :: SameUpToOrder(items[i], w.items[i]))
    case _ => w == v
  }

  lemma {:induction false} ShownKeysMembers(es: seq<Entry>)
    requires DistinctKeys(es)
    ensures NoneTwice(ShownKeys(es))
    ensures forall i | 0 <= i < |es| :: es[i].key in ShownKeys(es) <==> !IsEmptyDict(es[i].value)
  {
    if es == [] {
    } else {
      var n := |es| - 1;
      ShownKeysMembers(es[..n]);
      assert !HasKey(es[..n], es[n].key);
      forall i | 0 <= i < n ensures es[i].key in ShownKeys(es) <==> !IsEmptyDict(es[i].value) {
        assert es[..n][i] == es[i];
      }
    }
  }

  lemma ShownKeyIff(es: seq<Entry>, k: string)
    requires DistinctKeys(es)
    ensures k in ShownKeys(es) <==> HasKey(es, k) && !IsEmptyDict(es[IndexOf(es, k)].value)
  {
    ShownKeysMembers(es);
    if HasKey(es, k) {
      var i := IndexOf(es, k);
      assert es[i].key in ShownKeys(es) <==> !IsEmptyDict(es[i].value);
    }
  }

  lemma SameEmptiness(v: Value, w: Value)
    requires SameUpToOrder(v, w)
    ensures IsEmptyDict(v) <==> IsEmptyDict(w)
  {
    if v.Dict? {
      if w.entries != [] {
        assert HasKey(v.entries, w.entries[0].key);
      }
      if v.entries != [] {
        assert HasKey(w.entries, v.entries[0].key);
      }
    }
  }

  lemma SameShownKeys(es: seq<Entry>, fs: seq<Entry>, k: string)
    requires DistinctKeys(es) && DistinctKeys(fs) && SameUpToOrder(Dict(es), Dict(fs))
    ensures k in ShownKeys(es) <==> k in ShownKeys(fs)
  {
    ShownKeyIff(es, k);
    ShownKeyIff(fs, k);
    if HasKey(fs, k) {
      var j := IndexOf(fs, k);
      assert HasKey(es, fs[j].key);
    }
    if HasKey(es, k) {
      var i := IndexOf(es, k);
      SameEmptiness(es[i].value, fs[IndexOf(fs, es[i].key)].value);
    }
  }

  lemma {:induction false} PrunedForgetsOrder(lower: Lowercase, v: Value, w: Value)
    requires IsPlist(v) && IsPlist(w) && SameUpToOrder(v, w)
    ensures Pruned(lower, v) == Pruned(lower, w)
    decreases v
  {
    match v
    case Dict(es) =>
      var fs := w.entries;
      ShownKeysMembers(es);
      ShownKeysMembers(fs);
      forall k ensures k in ShownKeys(es) <==> k in ShownKeys(fs) {
        SameShownKeys(es, fs, k);
      }
      SortForgetsOrder(lower, ShownKeys(es), ShownKeys(fs));
      EntriesForgetOrder(lower, es, fs, Sort(lower, ShownKeys(es)));
    case Arr(items) =>
      ItemsForgetOrder(lower, items, w.items);
    case _ =>
  }

  lemma {:induction false} EntriesForgetOrder(lower: Lowercase, es: seq<Entry>, fs: seq<Entry>, keys: seq<string>)
    requires IsPlist(Dict(es)) && IsPlist(Dict(fs)) && SameUpToOrder(Dict(es), Dict(fs))
    requires forall k | k in keys :: HasKey(es, k) && HasKey(fs, k)
    ensures PrunedEntries(lower, es, keys) == PrunedEntries(lower, fs, keys)
    decreases es, |keys|
  {
    if keys == [] {
    } else {
      var n := |keys| - 1;
      EntriesForgetOrder(lower, es, fs, keys[..n]);
      var i := IndexOf(es, keys[n]);
      PrunedForgetsOrder(lower, es[i].value, fs[IndexOf(fs, es[i].key)].value);
    }
  }

  lemma {:induction false} ItemsForgetOrder(lower: Lowercase, items: seq<Value>, others: seq<Value>)
    requires |items| == |others|
    requires forall i | 0 <= i < |items| ::
        IsPlist(items[i]) && IsPlist(others[i]) && SameUpToOrder(items[i], others[i])
    ensures PrunedItems(lower, items) == PrunedItems(lower, others)
    decreases items
  {
    if items == [] {
    } else {
      var n := |items| - 1;
      ItemsForgetOrder(lower, items[..n], others[..n]);
      SameEmptiness(items[n], others[n]);
      PrunedForgetsOrder(lower, items[n], others[n]);
    }
  }

  /** Permuting the entries of any dictionaries in a tree does not change its SEB-JSON. */
  lemma JsonIsCanonical(lower: Lowercase, v: Value, w: Value)
    requires IsPlist(v) && IsPlist(w) && SameUpToOrder(v, w)
    ensures Json(lower, v) == Json(lower, w)
  {
    PrunedForgetsOrder(lower, v, w);
  }

  // ----- what a key holds in the normal form -----------------------------------------------

  predicate ClearKeys(es: seq<Entry>) {
    forall i | 0 <= i < |es| :: IsClear(es[i].key)
  }

  /** The normal form holds under a key what the settings hold, unless that is an empty dictionary. */
  lemma NormalHolds(lower: Lowercase, es: seq<Entry>, k: string)
    requires DistinctKeys(es) && ClearKeys(es)
    ensures var ns := Normal(lower, Dict(es)).entries;
            && DistinctKeys(ns)
            && (HasKey(ns, k) <==> HasKey(es, k) && !IsEmptyDict(es[IndexOf(es, k)].value))
            && (HasKey(ns, k) ==> ns[IndexOf(ns, k)].value == Normal(lower, es[IndexOf(es, k)].value))
  {
    var keys := Sort(lower, ShownKeys(es));
    ShownKeysMembers(es);
    ShownKeyIff(es, k);
    SortSorts(lower, ShownKeys(es));
    SortedDistinct(lower, keys);
    NormalEntries(lower, es, keys);
    EntriesOfKeys(CleanEntries(PrunedEntries(lower, es, keys)), keys, k);
  }

  lemma NormalEntries(lower: Lowercase, es: seq<Entry>, keys: seq<string>)
    requires ClearKeys(es) && forall k | k in keys :: HasKey(es, k)
    ensures
      var ns := CleanEntries(PrunedEntries(lower, es, keys));
      && |ns| == |keys|
      && forall i | 0 <= i < |ns| ::
           ns[i].key == keys[i] && ns[i].value == Normal(lower, es[IndexOf(es, keys[i])].value)
  {
    var ns := CleanEntries(PrunedEntries(lower, es, keys));
    forall i | 0 <= i < |ns|
      ensures ns[i].key == keys[i] && ns[i].value == Normal(lower, es[IndexOf(es, keys[i])].value)
    {
      assert keys[i] in keys;
      ClearIffKept(keys[i]);
      assert es[IndexOf(es, keys[i])].key == keys[i];
      PrunedEntryAt(lower, es, keys, i);
    }
  }

  lemma EntriesOfKeys(ns: seq<Entry>, keys: seq<string>, k: string)
    requires |ns| == |keys| && forall i | 0 <= i < |ns| :: ns[i].key == keys[i]
    requires forall i, j | 0 <= i < j < |keys| :: keys[i] != keys[j]
    ensures DistinctKeys(ns) && (HasKey(ns, k) <==> k in keys)
    ensures HasKey(ns, k) ==> keys[IndexOf(ns, k)] == k
  {
    if k in keys {
      var i :| 0 <= i < |keys| && keys[i] == k;
      IndexIsUnique(ns, k, i);
    }
  }

  lemma {:induction false} PrunedEntryAt(lower: Lowercase, es: seq<Entry>, keys: seq<string>, i: nat)
    requires i < |keys| && forall k | k in keys :: HasKey(es, k)
    ensures PrunedEntries(lower, es, keys)[i].value == Pruned(lower, es[IndexOf(es, keys[i])].value)
    decreases |keys|
  {
    if i >= |keys| - 1 {
    } else {
      PrunedEntryAt(lower, es, keys[..|keys| - 1], i);
    }
  }

  /** Settings with equal SEB-JSON hold values with equal normal forms under every key. */
  lemma EqualJsonHoldsEqual(lower: Lowercase, es: seq<Entry>, fs: seq<Entry>, k: string)
    requires DistinctKeys(es) && DistinctKeys(fs) && ClearKeys(es) && ClearKeys(fs)
    requires Json(lower, Dict(es)) == Json(lower, Dict(fs))
    requires HasKey(es, k) && !IsEmptyDict(es[IndexOf(es, k)].value)
    ensures HasKey(fs, k) && Normal(lower, es[IndexOf(es, k)].value) == Normal(lower, fs[IndexOf(fs, k)].value)
  {
    JsonCollision(lower, Dict(es), Dict(fs));
    NormalHolds(lower, es, k);
    NormalHolds(lower, fs, k);
  }
}
