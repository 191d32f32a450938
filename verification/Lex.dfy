/** Strings compared the way Rust compares them: by code point, then by length. */
module Lex {

  predicate Less(a: string, b: string) {
    |b| > 0 && (|a| == 0 || a[0] < b[0] || (a[0] == b[0] && Less(a[1..], b[1..])))
  }

  predicate Leq(a: string, b: string) {
    a == b || Less(a, b)
  }

  lemma {:induction false} LessIrreflexive(a: string)
    ensures !Less(a, a)
  {
    if |a| == 0 {
    } else {
      LessIrreflexive(a[1..]);
    }
  }

  lemma {:induction false} LessTransitive(a: string, b: string, c: string)
    requires Less(a, b) && Less(b, c)
    ensures Less(a, c)
  {
    if |a| == 0 || a[0] != b[0] || b[0] != c[0] {
    } else {
      LessTransitive(a[1..], b[1..], c[1..]);
    }
  }

  lemma {:induction false} LessTotal(a: string, b: string)
    ensures Less(a, b) || a == b || Less(b, a)
  {
    if |a| == 0 || |b| == 0 || a[0] != b[0] {
    } else {
      LessTotal(a[1..], b[1..]);
      assert a == [a[0]] + a[1..] && b == [b[0]] + b[1..];
    }
  }

  lemma LessAsymmetric(a: string, b: string)
    requires Less(a, b)
    ensures !Less(b, a) && a != b
  {
    LessIrreflexive(a);
    if Less(b, a) {
      LessTransitive(a, b, a);
    }
  }

  /** The first difference decides: a smaller code point, or the end of the string. */
  predicate FirstDifference(a: string, b: string, i: nat) {
    && i <= |a| && i < |b| && a[..i] == b[..i]
    && (i == |a| || a[i] < b[i])
  }

  lemma SameStart(a: string, b: string, i: nat)
    ensures FirstDifference(a, b, i) && i > 0 ==> a[0] == b[0]
  {
    if FirstDifference(a, b, i) && i > 0 {
      assert a[..i][0] == b[..i][0];
    }
  }

  lemma {:induction false} LessAtDifference(a: string, b: string)
    ensures Less(a, b) <==> exists i: nat :: FirstDifference(a, b, i)
  {
    if a == "" || b == "" || a[0] != b[0] {
      if Less(a, b) {
        assert FirstDifference(a, b, 0);
      }
      if i: nat :| FirstDifference(a, b, i) {
        SameStart(a, b, i);
      }
    } else {
      LessAtDifference(a[1..], b[1..]);
      if Less(a, b) {
        var i: nat :| FirstDifference(a[1..], b[1..], i);
        assert a[..i + 1] == [a[0]] + a[1..][..i] && b[..i + 1] == [b[0]] + b[1..][..i];
        assert FirstDifference(a, b, i + 1);
      }
      if i: nat :| FirstDifference(a, b, i) {
        assert i > 0;
        assert a[1..][..i - 1] == a[..i][1..] && b[1..][..i - 1] == b[..i][1..];
        assert FirstDifference(a[1..], b[1..], i - 1);
      }
    }
  }

  /** Comparing strings that start with parts of equal length compares the parts first. */
  lemma {:induction false} LessConcat(a: string, b: string, c: string, d: string)
    requires |a| == |c|
    ensures Less(a + b, c + d) <==> Less(a, c) || (a == c && Less(b, d))
  {
    if |a| == 0 {
      assert a + b == b && c + d == d;
    } else {
      LessConcat(a[1..], b, c[1..], d);
      assert (a + b)[1..] == a[1..] + b && (c + d)[1..] == c[1..] + d;
      assert a == [a[0]] + a[1..] && c == [c[0]] + c[1..];
      if a[0] == c[0] && a[1..] == c[1..] {
        LessIrreflexive(a[1..]);
      }
    }
  }

  // ----- sets of strings in order ----------------------------------------------------------

  predicate IsLeast(k: string, keys: set<string>) {
    k in keys && forall x | x in keys :: Leq(k, x)
  }

  lemma {:induction false} LeastExists(keys: set<string>) returns (least: string)
    requires keys != {}
    ensures IsLeast(least, keys)
    decreases |keys|
  {
    var k :| k in keys;
    var rest := keys - {k};
    assert forall x | x in keys :: x == k || x in rest;
    if rest == {} {
      least := k;
    } else {
      least := LeastExists(rest);
      LessTotal(k, least);
      if Less(k, least) {
        forall x | x in keys ensures Leq(k, x) {
          if x != k {
            assert Leq(least, x);
            if least != x {
              LessTransitive(k, least, x);
            }
          }
        }
        least := k;
      }
    }
  }

  lemma LeastIsUnique(a: string, b: string, keys: set<string>)
    requires IsLeast(a, keys) && IsLeast(b, keys)
    ensures a == b
  {
    if a != b {
      LessAsymmetric(a, b);
    }
  }

  function Least(keys: set<string>): (k: string)
    requires keys != {}
    ensures IsLeast(k, keys)
  {
    assert exists k :: IsLeast(k, keys) by {
      var k := LeastExists(keys);
    }
    assert forall a, b | IsLeast(a, keys) && IsLeast(b, keys) :: a == b by {
      forall a, b | IsLeast(a, keys) && IsLeast(b, keys) ensures a == b {
        LeastIsUnique(a, b, keys);
      }
    }
    var k :| IsLeast(k, keys);
    k
  }

  /** The keys of an ordered map, in order. */
  function Ordered(keys: set<string>): (r: seq<string>)
    ensures forall k :: k in r <==> k in keys
    ensures forall i, j | 0 <= i < j < |r| :: r[i] != r[j]
    decreases |keys|
  {
    if keys == {} then []
    else
      var k := Least(keys);
      [k] + Ordered(keys - {k})
  }
}
