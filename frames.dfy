/**
  The part of a pandas `DataFrame` the loader relies on: named columns of
  equal height, looked up by name, replaced or appended by `df[c] = ...`,
  and selected and reordered by `df[cols]`. Columns are stored one
  sequence of cells per column, as pandas stores them.
*/
module Frames {

  /** The ways a cell can be missing: `None`, `NaN`, `NaT` and `pd.NA`. */
  datatype Missing = NoneValue | FloatNaN | NotATime | PandasNA

  /** One value of a column. */
  datatype Cell =
    | Null(missing: Missing)
      /** a numpy (or nullable `Int64`) integer */
    | Int(i: int)
      /** a numpy float that is not `NaN` */
    | Num(x: real)
    | Str(s: string)
      /** a `pd.Timestamp`, as nanoseconds since the epoch */
    | Time(ticks: int)
      /** a value of any other type, by its representation */
    | Raw(repr: string)

  datatype Table = Table(names: seq<string>, columns: seq<seq<Cell>>, height: nat)

  /** No element occurs twice. */
  predicate Distinct<T(==)>(s: seq<T>) {
    forall i, j :: 0 <= i < j < |s| ==> s[i] != s[j]
  }

  /** One column per name, every column `height` cells long, no name twice. */
  predicate WellFormed(t: Table) {
    |t.names| == |t.columns|
    && (forall j :: 0 <= j < |t.columns| ==> |t.columns[j]| == t.height)
    && Distinct(t.names)
  }

  /** The position of an element in a list without duplicates. */
  function IndexOf<T(==)>(names: seq<T>, c: T): (j: nat)
    requires c in names
    ensures j < |names| && names[j] == c
    ensures Distinct(names) ==> forall k :: 0 <= k < |names| && names[k] == c ==> k == j
  {
    if names[0] == c then 0 else 1 + IndexOf(names[1..], c)
  }

  /** `df[c]` */
  function Get(t: Table, c: string): (col: seq<Cell>)
    requires WellFormed(t) && c in t.names
    ensures |col| == t.height
  {
    t.columns[IndexOf(t.names, c)]
  }

  /** A column of `height` copies of one cell: the broadcast of `df[c] = value`. */
  function Fill(height: nat, v: Cell): (col: seq<Cell>)
    ensures |col| == height && forall i :: 0 <= i < height ==> col[i] == v
  {
    seq(height, _ => v)
  }

  /**
    `df[c] = col`: an existing column is replaced where it stands, a new
    one is appended at the end; every other column is unchanged.
  */
  function WithColumn(t: Table, c: string, col: seq<Cell>): (r: Table)
    requires WellFormed(t) && |col| == t.height
    ensures WellFormed(r) && r.height == t.height
    ensures r.names == if c in t.names then t.names else t.names + [c]
    ensures Get(r, c) == col
    ensures forall d :: d in t.names && d != c ==> Get(r, d) == Get(t, d)
  {
    if c in t.names then
      var j := IndexOf(t.names, c);
      var r := t.(columns := t.columns[j := col]);
      assert forall d :: d in t.names ==> IndexOf(r.names, d) == IndexOf(t.names, d);
      r
    else
      var r := Table(t.names + [c], t.columns + [col], t.height);
      assert forall d :: d in t.names ==> IndexOf(r.names, d) == IndexOf(t.names, d) by {
        forall d | d in t.names ensures IndexOf(r.names, d) == IndexOf(t.names, d) {
          var k := IndexOf(t.names, d);
          assert r.names[k] == d;
        }
      }
      assert r.names[|t.names|] == c;
      r
  }

  /** `df[cols]`: exactly the named columns, in the order named. */
  function Project(t: Table, cols: seq<string>): (r: Table)
    requires WellFormed(t) && Distinct(cols)
    requires forall c :: c in cols ==> c in t.names
    ensures WellFormed(r) && r.names == cols && r.height == t.height
    ensures forall j :: 0 <= j < |cols| ==> r.columns[j] == Get(t, cols[j])
    ensures forall c :: c in cols ==> Get(r, c) == Get(t, c)
  {
    var r := Table(cols, seq(|cols|, j requires 0 <= j < |cols| => Get(t, cols[j])), t.height);
    assert forall c :: c in cols ==> Get(r, c) == Get(t, c) by {
      forall c | c in cols ensures Get(r, c) == Get(t, c) {
        var j := IndexOf(cols, c);
        assert r.columns[j] == Get(t, cols[j]);
      }
    }
    r
  }

  /** `if c not in df.columns: df[c] = None` */
  function AddColumn(t: Table, c: string): (r: Table)
    requires WellFormed(t)
    ensures WellFormed(r) && r.height == t.height
    ensures r.names == if c in t.names then t.names else t.names + [c]
    ensures forall d :: d in t.names ==> Get(r, d) == Get(t, d)
    ensures c !in t.names ==> Get(r, c) == Fill(t.height, Null(NoneValue))
  {
    if c in t.names then t else WithColumn(t, c, Fill(t.height, Null(NoneValue)))
  }

  /** The frame `df` becomes in the caller: the listed columns it lacks are appended. */
  function AddMissing(t: Table, cs: seq<string>): (r: Table)
    requires WellFormed(t)
    ensures WellFormed(r) && r.height == t.height
    ensures |r.names| >= |t.names| && r.names[..|t.names|] == t.names
    ensures forall c :: c in r.names <==> c in t.names || c in cs
    decreases |cs|
  {
    if cs == [] then t
    else
      var t1 := AddColumn(t, cs[0]);
      var r := AddMissing(t1, cs[1..]);
      assert forall c :: c in cs <==> c == cs[0] || c in cs[1..];
      assert r.names[..|t.names|] == r.names[..|t1.names|][..|t.names|];
      r
  }

  /** The columns the frame had are left as they were, and the ones added are filled with `None`. */
  lemma {:induction false} AddMissingKeeps(t: Table, cs: seq<string>)
    requires WellFormed(t)
    ensures var r := AddMissing(t, cs);
      (forall c :: c in t.names ==> Get(r, c) == Get(t, c))
      && forall c :: c in cs && c !in t.names ==> Get(r, c) == Fill(t.height, Null(NoneValue))
    decreases |cs|
  {
    if cs != [] {
      var t1 := AddColumn(t, cs[0]);
      AddMissingKeeps(t1, cs[1..]);
      var r := AddMissing(t, cs);
      forall c | c in cs && c !in t.names ensures Get(r, c) == Fill(t.height, Null(NoneValue)) {
        if c != cs[0] {
          assert c in cs[1..];
        }
      }
    }
  }

  /** A data frame the loader changes in place. */
  class Frame {
    var names: seq<string>
    var columns: seq<seq<Cell>>
    var height: nat

    function Value(): Table
      reads this
    {
      Table(names, columns, height)
    }

    predicate Valid()
      reads this
    {
      WellFormed(Value())
    }

    constructor (t: Table)
      requires WellFormed(t)
      ensures Value() == t && Valid()
    {
      names := t.names;
      columns := t.columns;
      height := t.height;
    }

    /** `c in df.columns` */
    predicate Has(c: string)
      reads this
    {
      c in names
    }

    /** `df[c]` */
    function Column(c: string): (col: seq<Cell>)
      reads this
      requires Valid() && Has(c)
      ensures |col| == height
    {
      Get(Value(), c)
    }

    /** `df[c] = col` */
    method Assign(c: string, col: seq<Cell>)
      requires Valid() && |col| == height
      modifies this
      ensures Value() == WithColumn(old(Value()), c, col) && Valid()
    {
      var t := WithColumn(Value(), c, col);
      names, columns := t.names, t.columns;
    }

    /** `df[cols].copy()`: a new frame; this one is left as it is. */
    method Select(cols: seq<string>) returns (f: Frame)
      requires Valid() && Distinct(cols)
      requires forall c :: c in cols ==> c in names
      ensures fresh(f) && f.Value() == Project(Value(), cols) && f.Valid()
    {
      f := new Frame(Project(Value(), cols));
    }
  }
}
