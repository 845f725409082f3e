/** Sequence helpers shared by the models: element-wise mapping and flattening. */
module Seqs {

  /** `[f(x) for x in s]` */
  function Map<A, B>(f: A -> B, s: seq<A>): (r: seq<B>)
    ensures |r| == |s|
    ensures forall i :: 0 <= i < |s| ==> r[i] == f(s[i])
  {
    if s == [] then [] else [f(s[0])] + Map(f, s[1..])
  }

  lemma MapConcat<A, B>(f: A -> B, x: seq<A>, y: seq<A>)
    ensures Map(f, x + y) == Map(f, x) + Map(f, y)
  {
    assert forall i :: 0 <= i < |y| ==> (x + y)[|x| + i] == y[i];
  }

  /** Concatenation regroups freely. */
  lemma Regroup<T>(a: seq<T>, b: seq<T>, c: seq<T>)
    ensures a + (b + c) == (a + b) + c
  {
  }

  /** A common prefix cancels. */
  lemma PrefixCancel<T>(p: seq<T>, a: seq<T>, b: seq<T>)
    requires p + a == p + b
    ensures a == b
  {
    assert a == (p + a)[|p|..];
    assert b == (p + b)[|p|..];
  }

  /** A common prefix and a common suffix cancel. */
  lemma InfixCancel<T>(p: seq<T>, a: seq<T>, b: seq<T>, s: seq<T>)
    requires p + a + s == p + b + s
    ensures a == b
  {
    assert |a| == |b|;
    assert a == (p + a + s)[|p|..|p| + |a|];
    assert b == (p + b + s)[|p|..|p| + |b|];
  }

  /** The sequences of `parts`, one after the other. */
  function Flatten<T>(parts: seq<seq<T>>): seq<T> {
    if parts == [] then [] else parts[0] + Flatten(parts[1..])
  }

  lemma {:induction false} FlattenConcat<T>(a: seq<seq<T>>, b: seq<seq<T>>)
    ensures Flatten(a + b) == Flatten(a) + Flatten(b)
    decreases |a|
  {
    if a == [] {
      assert a + b == b;
    } else {
      assert (a + b)[1..] == a[1..] + b;
      FlattenConcat(a[1..], b);
    }
  }
}
