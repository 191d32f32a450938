/** Property list values and dictionaries, which keep their entries in insertion order. Real numbers and
    dates are the texts that the standard library shows them as. */
module Plist {
  import opened Base64
  import opened Strings

  datatype Value =
    | Dict(entries: seq<Entry>)
    | Arr(items: seq<Value>)
    | Bool(b: bool)
    | Int(n: int)
    | Str(s: string)
    | Data(bytes: seq<Byte>)
    | Real(shown: NumberText)
    | Date(text: string)
    | Uid(number: nat)

  /** How a floating-point number is shown: digits, perhaps with a sign and a point. */
  type NumberText = s: string | IsNumberText(s) witness "0"

  predicate IsNumberText(s: string) {
    s != "" && (forall i | 0 <= i < |s| :: NumberChar(s[i])) && IsDigit(s[|s| - 1])
  }

  predicate NumberChar(c: char) {
    IsDigit(c) || c == '-' || c == '.'
  }

  datatype Entry = Entry(key: string, value: Value)

  predicate HasKey(es: seq<Entry>, key: string) {
    exists i | 0 <= i < |es| :: es[i].key == key
  }

  predicate DistinctKeys(es: seq<Entry>) {
    forall i, j | 0 <= i < j < |es| :: es[i].key != es[j].key
  }

  /** What every plist value satisfies: no dictionary at any depth has a key twice. */
  predicate IsPlist(v: Value) {
    match v
    case Dict(es) => DistinctKeys(es) && forall i | 0 <= i < |es| :: IsPlist(es[i].value)
    case Arr(items) => forall i | 0 <= i < |items| :: IsPlist(items[i])
    case _ => true
  }

  function IndexOf(es: seq<Entry>, key: string): (i: nat)
    requires HasKey(es, key)
    ensures i < |es| && es[i].key == key
  {
    if es[0].key == key then 0
    else
      assert HasKey(es[1..], key) by {
        var j :| 0 <= j < |es| && es[j].key == key;
        assert es[1..][j - 1] == es[j];
      }
      1 + IndexOf(es[1..], key)
  }

  function Remove(es: seq<Entry>, key: string): seq<Entry> {
    if HasKey(es, key) then es[..IndexOf(es, key)] + es[IndexOf(es, key) + 1..] else es
  }

  predicate IsEmptyDict(v: Value) {
    v.Dict? && v.entries == []
  }

  lemma IndexIsUnique(es: seq<Entry>, key: string, i: nat)
    requires DistinctKeys(es) && i < |es| && es[i].key == key
    ensures HasKey(es, key) && IndexOf(es, key) == i
  {
  }
}
