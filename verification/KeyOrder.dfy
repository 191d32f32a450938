/** The order of keys in SEB-JSON: case-insensitive, lowercase first among keys equal but for case. */
module KeyOrder {
  import opened Strings
  import Lex

  type Lowercase = string -> string

  predicate KeyLess(lower: Lowercase, a: string, b: string) {
    Lex.Less(lower(a), lower(b)) || (lower(a) == lower(b) && Lex.Less(b, a))
  }

  /** A strict total order, whatever lower-casing does. */
  lemma KeyLessIsStrictTotal(lower: Lowercase, a: string, b: string, c: string)
    ensures !KeyLess(lower, a, a)
    ensures KeyLess(lower, a, b) && KeyLess(lower, b, c) ==> KeyLess(lower, a, c)
    ensures a != b ==> KeyLess(lower, a, b) || KeyLess(lower, b, a)
  {
    Lex.LessIrreflexive(a);
    Lex.LessIrreflexive(lower(a));
    Lex.LessTotal(a, b);
    Lex.LessTotal(lower(a), lower(b));
    if Lex.Less(lower(a), lower(b)) && Lex.Less(lower(b), lower(c)) {
      Lex.LessTransitive(lower(a), lower(b), lower(c));
    }
    if Lex.Less(c, b) && Lex.Less(b, a) {
      Lex.LessTransitive(c, b, a);
    }
  }

  predicate Sorted(lower: Lowercase, keys: seq<string>) {
    forall i, j | 0 <= i < j < |keys| :: KeyLess(lower, keys[i], keys[j])
  }

  function Insert(lower: Lowercase, key: string, keys: seq<string>): (r: seq<string>)
    ensures multiset(r) == multiset(keys) + multiset{key}
    ensures forall k :: k in r <==> k == key || k in keys
  {
    if keys == [] then [key]
    else if KeyLess(lower, key, keys[0]) then [key] + keys
    else
      assert keys == [keys[0]] + keys[1..];
      [keys[0]] + Insert(lower, key, keys[1..])
  }

  /** The keys in order: the sorting the standard library does. */
  function Sort(lower: Lowercase, keys: seq<string>): (r: seq<string>)
    ensures multiset(r) == multiset(keys)
    ensures forall k :: k in r <==> k in keys
  {
    if keys == [] then []
    else
      assert keys == [keys[0]] + keys[1..];
      Insert(lower, keys[0], Sort(lower, keys[1..]))
  }

  lemma {:induction false} InsertSorted(lower: Lowercase, key: string, keys: seq<string>)
    requires Sorted(lower, keys) && key !in keys
    ensures Sorted(lower, Insert(lower, key, keys))
  {
    if keys == [] {
    } else {
      var r := Insert(lower, key, keys);
      if KeyLess(lower, key, keys[0]) {
        forall j | 0 < j < |r| ensures KeyLess(lower, key, r[j]) {
          if j > 1 {
            KeyLessIsStrictTotal(lower, key, keys[0], keys[j - 1]);
          }
        }
      } else {
        var rest := Insert(lower, key, keys[1..]);
        assert Sorted(lower, keys[1..]);
        InsertSorted(lower, key, keys[1..]);
        KeyLessIsStrictTotal(lower, key, keys[0], key);
        forall j | 0 <= j < |rest| ensures KeyLess(lower, keys[0], rest[j]) {
          assert rest[j] in rest;
          assert rest[j] == key || rest[j] in keys[1..];
        }
        assert r == [keys[0]] + rest;
      }
    }
  }

  lemma {:induction false} SortSorts(lower: Lowercase, keys: seq<string>)
    requires NoneTwice(keys)
    ensures Sorted(lower, Sort(lower, keys))
  {
    if keys == [] {
    } else {
      SortSorts(lower, keys[1..]);
      assert keys[0] !in keys[1..];
      InsertSorted(lower, keys[0], Sort(lower, keys[1..]));
    }
  }

  lemma SortedDistinct(lower: Lowercase, keys: seq<string>)
    requires Sorted(lower, keys)
    ensures NoneTwice(keys)
  {
    forall i, j | 0 <= i < j < |keys| ensures keys[i] != keys[j] {
      KeyLessIsStrictTotal(lower, keys[i], keys[i], keys[i]);
    }
  }

  /** There is one way to put a set of keys in order. */
  lemma {:induction false} SortedUnique(lower: Lowercase, a: seq<string>, b: seq<string>)
    requires Sorted(lower, a) && Sorted(lower, b)
    requires forall k :: k in a <==> k in b
    ensures a == b
  {
    if a == [] {
      assert forall i | 0 <= i < |b| :: b[i] in b;
    } else {
      assert a[0] in a;
      assert b != [];
      assert b[0] in b;
      FirstIsLeast(lower, a, b[0]);
      FirstIsLeast(lower, b, a[0]);
      KeyLessIsStrictTotal(lower, a[0], b[0], a[0]);
      SortedDistinct(lower, a);
      SortedDistinct(lower, b);
      RestSame(a, b);
      SortedUnique(lower, a[1..], b[1..]);
      assert a == [a[0]] + a[1..] && b == [b[0]] + b[1..];
    }
  }

  lemma FirstIsLeast(lower: Lowercase, keys: seq<string>, k: string)
    requires Sorted(lower, keys) && k in keys
    ensures k == keys[0] || KeyLess(lower, keys[0], k)
  {
  }

  lemma RestSame(a: seq<string>, b: seq<string>)
    requires a != [] && b != [] && a[0] == b[0] && NoneTwice(a) && NoneTwice(b)
    requires forall k :: k in a <==> k in b
    ensures forall k :: k in a[1..] <==> k in b[1..]
  {
    assert a == [a[0]] + a[1..] && b == [b[0]] + b[1..];
    assert a[0] !in a[1..] && b[0] !in b[1..];
    forall k ensures k in a[1..] <==> k in b[1..] {
      if k != a[0] {
        assert k in a[1..] <==> k in a;
        assert k in b[1..] <==> k in b;
      }
    }
  }

  /** Sorting forgets the order the keys came in. */
  lemma SortForgetsOrder(lower: Lowercase, a: seq<string>, b: seq<string>)
    requires NoneTwice(a) && NoneTwice(b)
    requires forall k :: k in a <==> k in b
    ensures Sort(lower, a) == Sort(lower, b)
  {
    SortSorts(lower, a);
    SortSorts(lower, b);
    SortedUnique(lower, Sort(lower, a), Sort(lower, b));
  }
}
