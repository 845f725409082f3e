/**
  Python's ordering of `str` values (code point by code point, a proper
  prefix first) and `sorted()` applied to a set of file names, which both
  the archiver and the loader use to fix the order in which they handle
  the files of a directory.
*/
module Ordering {

  /** `a <= b` on Python strings. */
  predicate Leq(a: string, b: string)
    decreases |a|
  {
    |a| == 0 || (|b| > 0 && (a[0] < b[0] || (a[0] == b[0] && Leq(a[1..], b[1..]))))
  }

  lemma {:induction false} LeqTotal(a: string, b: string)
    ensures Leq(a, b) || Leq(b, a)
    decreases |a|
  {
    if |a| > 0 && |b| > 0 && a[0] == b[0] {
      LeqTotal(a[1..], b[1..]);
    }
  }

  lemma {:induction false} LeqAntisymmetric(a: string, b: string)
    requires Leq(a, b) && Leq(b, a)
    ensures a == b
    decreases |a|
  {
    if |a| > 0 {
      LeqAntisymmetric(a[1..], b[1..]);
      assert a == [a[0]] + a[1..];
      assert b == [b[0]] + b[1..];
    }
  }

  lemma {:induction false} LeqTransitive(a: string, b: string, c: string)
    requires Leq(a, b) && Leq(b, c)
    ensures Leq(a, c)
    decreases |a|
  {
    if |a| > 0 && a[0] == b[0] && b[0] == c[0] {
      LeqTransitive(a[1..], b[1..], c[1..]);
    }
  }

  /** Strictly increasing, hence free of duplicates. */
  predicate StrictlySorted(s: seq<string>) {
    forall i, j :: 0 <= i < j < |s| ==> Leq(s[i], s[j]) && s[i] != s[j]
  }

  lemma {:induction false} LeqReflexive(a: string)
    ensures Leq(a, a)
    decreases |a|
  {
    if |a| > 0 {
      LeqReflexive(a[1..]);
    }
  }

  /** Every finite non-empty set of strings has a least element. */
  lemma {:induction false} LeastExists(s: set<string>)
    requires s != {}
    ensures exists m :: m in s && forall y :: y in s ==> Leq(m, y)
    decreases |s|
  {
    var x :| x in s;
    var rest := s - {x};
    if rest == {} {
      LeqReflexive(x);
      forall y | y in s ensures y == x {
        assert y !in rest;
      }
    } else {
      LeastExists(rest);
      var m :| m in rest && forall y :: y in rest ==> Leq(m, y);
      LeqTotal(x, m);
      if Leq(x, m) {
        forall y | y in s ensures Leq(x, y) {
          if y == x {
            LeqReflexive(x);
          } else {
            LeqTransitive(x, m, y);
          }
        }
        assert x in s;
      } else {
        forall y | y in s ensures Leq(m, y) {
          if y != x {
            assert y in rest;
          }
        }
        assert m in s;
      }
    }
  }

  /** The least element of a non-empty set of strings. */
  function Least(s: set<string>): (m: string)
    requires s != {}
    ensures m in s
    ensures forall y :: y in s ==> Leq(m, y)
  {
    LeastExists(s);
    assert forall a, b :: a in s && b in s && Leq(a, b) && Leq(b, a) ==> a == b by {
      forall a, b | a in s && b in s && Leq(a, b) && Leq(b, a) ensures a == b {
        LeqAntisymmetric(a, b);
      }
    }
    var m :| m in s && forall y :: y in s ==> Leq(m, y);
    m
  }

  /** `sorted(names)`: the elements of the set, each once, in increasing order. */
  function SortedList(names: set<string>): (r: seq<string>)
    ensures |r| == |names|
    ensures forall x :: x in r <==> x in names
    ensures StrictlySorted(r)
    decreases |names|
  {
    if names == {} then []
    else
      var m := Least(names);
      var rest := SortedList(names - {m});
      var r := [m] + rest;
      forall i, j | 0 <= i < j < |r| ensures Leq(r[i], r[j]) && r[i] != r[j] {
        assert r[j] == rest[j - 1] && rest[j - 1] in names - {m};
        if i > 0 {
          assert r[i] == rest[i - 1];
        }
      }
      r
  }

  /** A set has exactly one strictly sorted listing, so any two agree. */
  lemma {:induction false} SortedListUnique(a: seq<string>, b: seq<string>)
    requires StrictlySorted(a) && StrictlySorted(b)
    requires forall x :: x in a <==> x in b
    ensures a == b
    decreases |a|
  {
    if a != [] && b != [] {
      assert a[0] == b[0] by {
        assert a[0] in b && b[0] in a;
        if a[0] != b[0] {
          var i :| 0 <= i < |a| && a[i] == b[0];
          var j :| 0 <= j < |b| && b[j] == a[0];
          assert Leq(b[0], a[0]);
          assert Leq(a[0], b[0]);
          LeqAntisymmetric(a[0], b[0]);
        }
      }
      forall x ensures x in a[1..] <==> x in b[1..] {
        if x in a[1..] {
          var i :| 1 <= i < |a| && a[i] == x;
          assert x != a[0] && x in a;
          var j :| 0 <= j < |b| && b[j] == x;
          assert b[1..][j - 1] == x;
        }
        if x in b[1..] {
          var j :| 1 <= j < |b| && b[j] == x;
          assert x != b[0] && x in b;
          var i :| 0 <= i < |a| && a[i] == x;
          assert a[1..][i - 1] == x;
        }
      }
      SortedListUnique(a[1..], b[1..]);
      assert a == [a[0]] + a[1..];
      assert b == [b[0]] + b[1..];
    } else {
      HeadIsElement(a);
      HeadIsElement(b);
    }
  }

  lemma HeadIsElement(s: seq<string>)
    ensures s != [] ==> s[0] in s
  {
  }

  /** A name `glob("*.parquet")` matches: anything ending in `.parquet`. */
  predicate IsParquetName(n: string) {
    |n| >= 8 && n[|n| - 8..] == ".parquet"
  }

  /** `sorted(directory.glob("*.parquet"))`, given the names in the directory. */
  function ParquetListing(names: set<string>): (r: seq<string>)
    ensures StrictlySorted(r)
    ensures forall n :: n in r <==> n in names && IsParquetName(n)
  {
    SortedList(set n | n in names && IsParquetName(n))
  }
}
