/** Which entries and items of a settings tree are printed. */
module PrintLaws {
  import opened Strings
  import opened Plist
  import opened KeyOrder
  import opened SebJson
  import opened SebCanon
  import opened ExamSettings

  /** A dictionary prints the keys that hold anything but an empty dictionary, each with what it holds, printed in the
      same way. */
  lemma PrintedKeys(lower: Lowercase, es: seq<Entry>, k: string)
    requires DistinctKeys(es)
    ensures
      var ps := Pruned(lower, Dict(es)).entries;
      && DistinctKeys(ps)
      && (HasKey(ps, k) <==> HasKey(es, k) && !Holds(es, k, Dict([])))
      && (HasKey(ps, k) ==> Holds(ps, k, Pruned(lower, es[IndexOf(es, k)].value)))
  {
    var keys := Sort(lower, ShownKeys(es));
    ShownKeysMembers(es);
    ShownKeyIff(es, k);
    SortSorts(lower, ShownKeys(es));
    SortedDistinct(lower, keys);
    var ps := PrunedEntries(lower, es, keys);
    EntriesOfKeys(ps, keys, k);
    if HasKey(ps, k) {
      PrunedEntryAt(lower, es, keys, IndexOf(ps, k));
    }
  }

  function Printing(lower: Lowercase): Value -> Value {
    v => Pruned(lower, v)
  }

  /** The printed items are those at these places, each as f prints it, in order, and the others are empty
      dictionaries. */
  predicate ItemsAt(f: Value -> Value, items: seq<Value>, printed: seq<Value>, places: seq<nat>) {
    && |places| == |printed|
    && (forall i | 0 <= i < |places| :: places[i] < |items| && printed[i] == f(items[places[i]]))
    && (forall i, j | 0 <= i < j < |places| :: places[i] < places[j])
    && (forall i | 0 <= i < |items| :: i in places <==> items[i] != Dict([]))
  }

  /** An array prints its items in order, without those that are empty dictionaries. */
  lemma {:induction false} PrintedItems(lower: Lowercase, items: seq<Value>) returns (places: seq<nat>)
    ensures Pruned(lower, Arr(items)).Arr?
    ensures ItemsAt(Printing(lower), items, Pruned(lower, Arr(items)).items, places)
    decreases |items|
  {
    if items == [] {
      places := [];
    } else {
      var n := |items| - 1;
      places := PrintedItems(lower, items[..n]);
      places := OneMoreItem(Printing(lower), items, PrunedItems(lower, items[..n]), places);
    }
  }

  lemma OneMoreItem(f: Value -> Value, items: seq<Value>, before: seq<Value>, earlier: seq<nat>)
    returns (places: seq<nat>)
    requires items != [] && ItemsAt(f, items[..|items| - 1], before, earlier)
    ensures
      var last := items[|items| - 1];
      ItemsAt(f, items, before + (if last == Dict([]) then [] else [f(last)]), places)
  {
    FirstAndLast(items);
    if items[|items| - 1] == Dict([]) {
      places := earlier;
      ItemPassed(f, items[..|items| - 1], before, earlier, items[|items| - 1]);
      assert before + [] == before;
    } else {
      places := earlier + [|items| - 1];
      ItemShown(f, items[..|items| - 1], before, earlier, items[|items| - 1]);
    }
  }

  lemma FirstAndLast(items: seq<Value>)
    requires items != []
    ensures items[..|items| - 1] + [items[|items| - 1]] == items
  {
  }

  lemma ItemPassed(f: Value -> Value, items: seq<Value>, printed: seq<Value>, places: seq<nat>, last: Value)
    requires ItemsAt(f, items, printed, places) && last == Dict([])
    ensures ItemsAt(f, items + [last], printed, places)
  {
  }

  lemma ItemShown(f: Value -> Value, items: seq<Value>, printed: seq<Value>, places: seq<nat>, last: Value)
    requires ItemsAt(f, items, printed, places) && last != Dict([])
    ensures ItemsAt(f, items + [last], printed + [f(last)], places + [|items|])
  {
  }

  /** The version of the program that wrote the settings does not show in the text. */
  lemma OriginatorIgnored(lower: Lowercase, es: seq<Entry>, version: Value)
    requires DistinctKeys(es)
    ensures SettingsJson(lower, Put(es, Entry("originatorVersion", version))) == SettingsJson(lower, es)
  {
    PutRemoved(es, Entry("originatorVersion", version));
  }

  lemma PutRemoved(es: seq<Entry>, e: Entry)
    requires DistinctKeys(es)
    ensures Remove(Put(es, e), e.key) == Remove(es, e.key)
  {
    var put := Put(es, e);
    if HasKey(es, e.key) {
      var i := IndexOf(es, e.key);
      IndexIsUnique(put, e.key, i);
      assert put[..i] == es[..i] && put[i + 1..] == es[i + 1..];
    } else {
      IndexIsUnique(put, e.key, |es|);
      assert put[..|es|] == es && put[|es| + 1..] == [];
    }
  }
}
