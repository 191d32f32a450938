/** SEB-JSON: what a settings tree is printed as, and reading it back. */
module SebJson {
  import opened Strings
  import opened Plist
  import opened KeyOrder
  import opened JsonText
  import opened Numerals
  import Base64

  // ----- what is printed -------------------------------------------------------------

  /** The keys of the entries that are printed: those whose value is not an empty dictionary. */
  function ShownKeys(es: seq<Entry>): (r: seq<string>)
    ensures forall k | k in r :: HasKey(es, k)
  {
    if es == [] then []
    else
      var n := |es| - 1;
      var before := ShownKeys(es[..n]);
      assert forall k | k in before :: HasKey(es, k) by {
        forall k | k in before ensures HasKey(es, k) {
          var i :| 0 <= i < n && es[..n][i].key == k;
          assert es[i].key == k;
        }
      }
      assert es[n].key == es[n].key && HasKey(es, es[n].key);
      if IsEmptyDict(es[n].value) then before else before + [es[n].key]
  }

  /** A settings tree as it is printed: entries in key order, empty dictionaries
      dropped one level deep, data as base64 text. */
  function Pruned(lower: Lowercase, v: Value): Value
    decreases v
  {
    match v
    case Dict(es) => Dict(PrunedEntries(lower, es, Sort(lower, ShownKeys(es))))
    case Arr(items) => Arr(PrunedItems(lower, items))
    case Data(bytes) => Str(Base64.Encode(bytes))
    case _ => v
  }

  function PrunedEntries(lower: Lowercase, es: seq<Entry>, keys: seq<string>): (r: seq<Entry>)
    requires forall k | k in keys :: HasKey(es, k)
    ensures |r| == |keys| && forall i | 0 <= i < |r| :: r[i].key == keys[i]
    decreases es, |keys|
  {
    if keys == [] then []
    else
      var n := |keys| - 1;
      PrunedEntries(lower, es, keys[..n]) + [Entry(keys[n], Pruned(lower, es[IndexOf(es, keys[n])].value))]
  }

  function PrunedItems(lower: Lowercase, items: seq<Value>): seq<Value>
    decreases items
  {
    if items == [] then []
    else
      var n := |items| - 1;
      PrunedItems(lower, items[..n])
      + (if IsEmptyDict(items[n]) then [] else [Pruned(lower, items[n])])
  }

  // ----- how it is printed --------------------------------------------------------------

  function Print(v: Value): string
    decreases v
  {
    match v
    case Dict(es) => "{" + PrintEntries(es) + "}"
    case Arr(items) => "[" + PrintItems(items) + "]"
    case Bool(b) => if b then "true" else "false"
    case Int(n) => ShowInt(n)
    case Str(s) => Quoted(s)
    case Data(bytes) => Quoted(Base64.Encode(bytes))
    case Real(shown) => shown
    case Date(text) => Quoted(text)
    case Uid(n) => ShowInt(n)
  }

  function PrintEntry(e: Entry): string
    decreases e
  {
    Quoted(e.key) + ":" + Print(e.value)
  }

  function PrintEntries(es: seq<Entry>): string
    decreases es
  {
    if es == [] then ""
    else
      var n := |es| - 1;
      if n == 0 then PrintEntry(es[0]) else PrintEntries(es[..n]) + "," + PrintEntry(es[n])
  }

  function PrintItems(items: seq<Value>): string
    decreases items
  {
    if items == [] then ""
    else
      var n := |items| - 1;
      if n == 0 then Print(items[0]) else PrintItems(items[..n]) + "," + Print(items[n])
  }

  function Json(lower: Lowercase, v: Value): string {
    Print(Pruned(lower, v))
  }

  /** The text the Config Key is computed from. */
  function SettingsJson(lower: Lowercase, settings: seq<Entry>): string {
    Json(lower, Dict(Remove(settings, "originatorVersion")))
  }

  // ----- the printer ----------------------------------------------------------------------

  method CollectKeys(es: seq<Entry>) returns (keys: seq<string>)
    ensures keys == ShownKeys(es)
  {
    keys := [];
    for i := 0 to |es|
      invariant keys == ShownKeys(es[..i])
    {
      assert es[..i + 1][..i] == es[..i];
      if !IsEmptyDict(es[i].value) {
        keys := keys + [es[i].key];
      }
    }
    assert es[..|es|] == es;
  }

  method WriteDict(lower: Lowercase, es: seq<Entry>, out: string) returns (out': string)
    ensures out' == out + Json(lower, Dict(es))
    decreases es
  {
    var shown := CollectKeys(es);
    var keys := Sort(lower, shown);
    out' := out + "{";
    for i := 0 to |keys|
      invariant out' == out + "{" + PrintEntries(PrunedEntries(lower, es, keys[..i]))
    {
      var k := keys[i];
      assert k in keys;
      ghost var done := PrunedEntries(lower, es, keys[..i]);
      ghost var entry := Entry(k, Pruned(lower, es[IndexOf(es, k)].value));
      PrunedEntriesGrow(lower, es, keys, i);
      PrintEntriesGrow(done, entry);
      ghost var start := out';
      if i > 0 {
        out' := out' + ",";
      }
      ghost var sep := out';
      out' := WriteStr(k, out');
      out' := out' + ":";
      out' := WriteValue(lower, es[IndexOf(es, k)].value, out');
      EntryText(sep, Quoted(k), Print(entry.value));
      TextGrows(out + "{", PrintEntries(done), if i > 0 then "," else "", PrintEntry(entry));
    }
    assert keys[..|keys|] == keys;
    out' := out' + "}";
    DictText(out, PrintEntries(PrunedEntries(lower, es, keys)));
  }

  method WriteValue(lower: Lowercase, v: Value, out: string) returns (out': string)
    ensures out' == out + Json(lower, v)
    decreases v
  {
    match v
    case Dict(es) =>
      out' := WriteDict(lower, es, out);
    case Arr(items) =>
      out' := WriteItems(lower, items, out + "[");
      out' := out' + "]";
      ArrText(out, PrintItems(PrunedItems(lower, items)));
    case Bool(b) =>
      out' := out + (if b then "true" else "false");
    case Int(n) =>
      out' := out + ShowInt(n);
    case Str(s) =>
      out' := WriteStr(s, out);
    case Data(bytes) =>
      out' := WriteStr(Base64.Encode(bytes), out);
    case Real(shown) =>
      out' := out + shown;
    case Date(text) =>
      out' := WriteStr(text, out);
    case Uid(n) =>
      out' := out + ShowInt(n);
  }

  method WriteItems(lower: Lowercase, items: seq<Value>, out: string) returns (out': string)
    ensures out' == out + PrintItems(PrunedItems(lower, items))
    decreases items
  {
    out' := out;
    var first := true;
    for i := 0 to |items|
      invariant first <==> PrunedItems(lower, items[..i]) == []
      invariant out' == out + PrintItems(PrunedItems(lower, items[..i]))
    {
      PrunedItemsGrow(lower, items, i);
      if IsEmptyDict(items[i]) {
        continue;
      }
      ghost var done := PrunedItems(lower, items[..i]);
      PrintItemsGrow(done, Pruned(lower, items[i]));
      if !first {
        out' := out' + ",";
      }
      first := false;
      out' := WriteValue(lower, items[i], out');
      TextGrows(out, PrintItems(done), if done == [] then "" else ",", Json(lower, items[i]));
    }
    assert items[..|items|] == items;
  }

  lemma PrunedEntriesGrow(lower: Lowercase, es: seq<Entry>, keys: seq<string>, i: nat)
    requires i < |keys| && forall k | k in keys :: HasKey(es, k)
    ensures PrunedEntries(lower, es, keys[..i + 1])
         == PrunedEntries(lower, es, keys[..i]) + [Entry(keys[i], Pruned(lower, es[IndexOf(es, keys[i])].value))]
  {
    assert keys[..i + 1][..i] == keys[..i];
  }

  lemma PrunedItemsGrow(lower: Lowercase, items: seq<Value>, i: nat)
    requires i < |items|
    ensures PrunedItems(lower, items[..i + 1])
         == if IsEmptyDict(items[i]) then PrunedItems(lower, items[..i])
            else PrunedItems(lower, items[..i]) + [Pruned(lower, items[i])]
  {
    assert items[..i + 1][..i] == items[..i];
  }

  lemma PrintEntriesGrow(es: seq<Entry>, e: Entry)
    ensures PrintEntries(es + [e]) == PrintEntries(es) + (if es == [] then "" else ",") + PrintEntry(e)
  {
    assert (es + [e])[..|es|] == es;
  }

  lemma PrintItemsGrow(items: seq<Value>, v: Value)
    ensures PrintItems(items + [v]) == PrintItems(items) + (if items == [] then "" else ",") + Print(v)
  {
    assert (items + [v])[..|items|] == items;
  }

  lemma TextGrows(out: string, done: string, sep: string, more: string)
    ensures out + done + sep + more == out + (done + sep + more)
  {
  }

  lemma EntryText(sep: string, key: string, value: string)
    ensures sep + key + ":" + value == sep + (key + ":" + value)
  {
  }

  lemma DictText(out: string, body: string)
    ensures out + "{" + body + "}" == out + ("{" + body + "}")
  {
  }

  lemma ArrText(out: string, body: string)
    ensures out + "[" + body + "]" == out + ("[" + body + "]")
  {
  }
}
