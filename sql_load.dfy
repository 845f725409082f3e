/**
  The writing half of the loader (`load_parquet_to_sqlserver.py`): the
  values pyodbc is handed for each cell (`to_py`), the batched `INSERT`
  (`insert_df`), the target table (`ensure_table`) and the loop of `main`
  that loads the `.parquet` files one by one and commits after each. The
  database is a table of committed rows plus the rows of the open
  transaction.
*/
module SqlLoad {
  import opened Wrappers
  import opened Seqs
  import opened Ordering
  import opened Frames
  import opened Loader

  // ---------------------------------------------------------------------
  // to_py
  // ---------------------------------------------------------------------

  /** The Python values pyodbc receives. */
  datatype PyValue =
    | PyNone
    | PyInt(i: int)
    | PyFloat(x: real)
    | PyStr(s: string)
      /** a `datetime.datetime`, as microseconds since the epoch */
    | PyDateTime(ticks: int)
      /** any other object, passed through unchanged */
    | PyObject(repr: string)

  /**
    `to_py(x)`: every missing value (`None`, `NaN`, `NaT`, `pd.NA`) becomes
    `None`, numpy integers and floats become `int` and `float`, a
    `Timestamp` becomes a `datetime`, and anything else is passed as it is.
  */
  function ToPy(c: Cell): (v: PyValue)
    ensures v == PyNone <==> c.Null?
  {
    match c
    case Null(_) => PyNone
    case Int(i) => PyInt(i)
    case Num(x) => PyFloat(x)
    case Time(t) => PyDateTime(t / 1000)
    case Str(s) => PyStr(s)
    case Raw(r) => PyObject(r)
  }

  /**
    `to_py` loses only the kind of a missing value and the nanoseconds of a
    timestamp (`to_pydatetime` keeps whole microseconds, rounding down).
  */
  lemma ToPyKeepsValues(a: Cell, b: Cell)
    ensures ToPy(a) == ToPy(b) <==>
      a == b || (a.Null? && b.Null?) || (a.Time? && b.Time? && a.ticks / 1000 == b.ticks / 1000)
  {
  }

  /** Two timestamps in the same microsecond reach the database as the same value. */
  lemma ToPyDropsNanoseconds()
    ensures ToPy(Time(1_000)) == ToPy(Time(1_999)) && ToPy(Time(-1)) == ToPy(Time(-1_000))
  {
  }

  /** Whether a value suits a column of the given SQL type; every column allows `NULL`. */
  predicate Fits(v: PyValue, ty: SqlType) {
    match v
    case PyNone => true
    case PyInt(_) => ty == SqlInt || ty == SqlFloat
    case PyFloat(_) => ty == SqlFloat
    case PyDateTime(_) => ty == SqlDateTime2
    case PyStr(_) => ty.SqlVarChar?
    case PyObject(_) => false
  }

  /** Whatever a column's conversion produces suits the type the table gives that column. */
  lemma ConvertedCellFits(p: Parsers, c: Col, x: Cell, ints: bool)
    requires ints ==> x.Int?
    ensures Fits(ToPy(ConvertCell(p, c, x, ints)), SqlTypeOf(c))
  {
  }

  type Row = seq<PyValue>

  /** `tuple(to_py(v) for v in row)` for row `i` of `df.itertuples(index=False)`. */
  function RowAt(t: Table, i: nat): Row
    requires WellFormed(t) && i < t.height
  {
    seq(|t.columns|, j requires 0 <= j < |t.columns| => ToPy(t.columns[j][i]))
  }

  /** `rows` in `insert_df`: one row per row of the frame, one value per column. */
  function Rows(t: Table): (rows: seq<Row>)
    requires WellFormed(t)
    ensures |rows| == t.height
    ensures forall i :: 0 <= i < t.height ==>
      (|rows[i]| == |t.names| && forall j :: 0 <= j < |t.names| ==> rows[i][j] == ToPy(t.columns[j][i]))
  {
    seq(t.height, i requires 0 <= i < t.height => RowAt(t, i))
  }

  /** Each kept column of a prepared frame holds values of the type the table gives it. */
  lemma PreparedColumnFits(t: Table, file: string, p: Parsers, c: Col, i: nat)
    requires WellFormed(t) && i < t.height
    ensures var r := PrepSpec(t, file, p);
      r.Success? ==> Name(c) in r.value.names && Fits(ToPy(Get(r.value, Name(c))[i]), SqlTypeOf(c))
  {
    PrepCells(t, file, p, c, i);
    assert Input(t, c)[i] == if Name(c) in t.names then Get(t, Name(c))[i] else Null(NoneValue);
    ConvertedCellFits(p, c, if Name(c) in t.names then Get(t, Name(c))[i] else Null(NoneValue), IntegerColumn(Input(t, c)));
  }

  /** Value `j` of a prepared row suits the type of column `j` of the schema. */
  lemma PreparedValuesFit(t: Table, file: string, p: Parsers, i: nat)
    requires WellFormed(t) && i < t.height
    ensures var r := PrepSpec(t, file, p);
      r.Success? ==>
        |Rows(r.value)| == t.height && |Rows(r.value)[i]| == |Columns| + 1
        && forall j :: 0 <= j < |Columns| ==> Fits(Rows(r.value)[i][j], SqlTypeOf(Columns[j]))
  {
    var r := PrepSpec(t, file, p);
    if r.Success? {
      var u := r.value;
      PrepSchema(t, file, p);
      forall j | 0 <= j < |Columns| ensures Fits(Rows(u)[i][j], SqlTypeOf(Columns[j])) {
        PreparedColumnFits(t, file, p, Columns[j], i);
        ColumnAtIndex(u, j);
      }
    }
  }

  /** The last value of a prepared row is the name of the file it came from. */
  lemma PreparedRowSource(t: Table, file: string, p: Parsers, i: nat)
    requires WellFormed(t) && i < t.height
    ensures var r := PrepSpec(t, file, p);
      r.Success? ==>
        |Rows(r.value)| == t.height && |Rows(r.value)[i]| == |Columns| + 1
        && Rows(r.value)[i][|Columns|] == PyStr(file)
  {
    var r := PrepSpec(t, file, p);
    if r.Success? {
      PrepSchema(t, file, p);
      PrepSourceFile(t, file, p);
      ColumnAtIndex(r.value, |Columns|);
    }
  }

  /**
    A row of a prepared frame has one value for each column of the table,
    in the table's order, each of the column's type, and ends with the
    name of the file it came from.
  */
  lemma PreparedRow(t: Table, file: string, p: Parsers, i: nat)
    requires WellFormed(t) && i < t.height
    ensures var r := PrepSpec(t, file, p);
      r.Success? ==>
        |Rows(r.value)| == t.height && |Rows(r.value)[i]| == |TableDef|
        && Rows(r.value)[i][|Columns|] == PyStr(file)
        && forall j :: 0 <= j < |TableDef| ==> Fits(Rows(r.value)[i][j], TableDef[j].1)
  {
    var r := PrepSpec(t, file, p);
    if r.Success? {
      PreparedValuesFit(t, file, p, i);
      PreparedRowSource(t, file, p, i);
      TableMatchesInsert();
      var row := Rows(r.value)[i];
      forall j | 0 <= j < |TableDef| ensures Fits(row[j], TableDef[j].1) {
        if j < |Columns| {
          assert TableDef[j].1 == SqlTypeOf(Columns[j]);
        }
      }
    }
  }

  /** In a frame without repeated names, the column named at position `j` is column `j`. */
  lemma ColumnAtIndex(t: Table, j: nat)
    requires WellFormed(t) && j < |t.names|
    ensures Get(t, t.names[j]) == t.columns[j]
  {
  }

  // ---------------------------------------------------------------------
  // insert_df
  // ---------------------------------------------------------------------

  /** The number of rows `main` passes to one `executemany`. */
  const BatchSize: nat := 5000

  /** `[s[i:i + n] for i in range(0, len(s), n)]` */
  function Batches<T>(s: seq<T>, n: nat): (b: seq<seq<T>>)
    requires n > 0
    ensures b == [] <==> s == []
    ensures |b| <= |s|
    decreases |s|
  {
    if s == [] then [] else var m := if |s| < n then |s| else n; [s[..m]] + Batches(s[m..], n)
  }

  /** The batches, one after the other, are the rows. */
  lemma {:induction false} BatchesFlatten<T>(s: seq<T>, n: nat)
    requires n > 0
    ensures Flatten(Batches(s, n)) == s
    decreases |s|
  {
    if s != [] {
      var m := if |s| < n then |s| else n;
      BatchesFlatten(s[m..], n);
      assert s == s[..m] + s[m..];
    }
  }

  /** There are `ceil(len(s) / n)` batches. */
  lemma BatchesCount<T>(s: seq<T>, n: nat)
    requires n > 0
    ensures |Batches(s, n)| == (|s| + n - 1) / n
  {
    BatchesBounds(s, n);
    CeilingDivision(|Batches(s, n)|, |s|, n);
  }

  /** `n` rows to a batch, with fewer only in the last. */
  lemma {:induction false} BatchesBounds<T>(s: seq<T>, n: nat)
    requires n > 0
    ensures (|Batches(s, n)| - 1) * n < |s| <= |Batches(s, n)| * n
    ensures s == [] <==> Batches(s, n) == []
    decreases |s|
  {
    if s != [] {
      var m := if |s| < n then |s| else n;
      var k := |Batches(s[m..], n)|;
      BatchesBounds(s[m..], n);
      assert (k + 1) * n == k * n + n;
      assert k * n == (k - 1) * n + n;
    }
  }

  /** `k` is `ceil(a / n)` when `(k - 1) * n < a <= k * n`. */
  lemma CeilingDivision(k: int, a: int, n: int)
    requires n > 0 && (k - 1) * n < a <= k * n
    ensures k == (a + n - 1) / n
  {
    var q := (a + n - 1) / n;
    assert q * n <= a + n - 1 < (q + 1) * n;
    assert k * n == (k - 1) * n + n;
    assert (q + 1) * n == q * n + n;
    ProductOrder(k, q + 1, n);
    ProductOrder(q, k + 1, n);
  }

  lemma ProductOrder(x: int, y: int, n: int)
    requires n > 0 && x * n < y * n
    ensures x < y
  {
    assert (y - x) * n == y * n - x * n;
  }

  /** Every batch holds between 1 and `n` rows, and all but the last exactly `n`. */
  lemma {:induction false} BatchesSizes<T>(s: seq<T>, n: nat)
    requires n > 0
    ensures forall k :: 0 <= k < |Batches(s, n)| ==>
      0 < |Batches(s, n)[k]| <= n && (k < |Batches(s, n)| - 1 ==> |Batches(s, n)[k]| == n)
    decreases |s|
  {
    if s != [] {
      var m := if |s| < n then |s| else n;
      var rest := Batches(s[m..], n);
      BatchesSizes(s[m..], n);
      var b := Batches(s, n);
      assert b == [s[..m]] + rest;
      forall k | 1 <= k < |b| ensures b[k] == rest[k - 1] {
      }
    }
  }

  datatype InsertError =
      /** `range(0, len(rows), 0)` raises `ValueError` */
    | ZeroStep
      /** the server refused a row of the batch and `executemany` raised */
    | Refused

  /** The batches sent, the rows they added to the transaction, and how it ended. */
  datatype InsertRun = InsertRun(sent: seq<seq<Row>>, inserted: seq<Row>, err: Option<InsertError>)

  /** Whether the server takes a batch: the table exists and it accepts every row. */
  predicate Accepted(present: bool, accepts: Row -> bool, batch: seq<Row>) {
    present && forall r :: r in batch ==> accepts(r)
  }

  /** The batches of `n > 0` rows, sent in order until one is refused. */
  function Run(rows: seq<Row>, n: nat, present: bool, accepts: Row -> bool): (r: InsertRun)
    requires n > 0
    ensures r.err.None? || r.err == Some(Refused)
    ensures r.err.None? ==> r.inserted == rows
    ensures r.err.Some? ==> |r.inserted| < |rows|
    decreases |rows|
  {
    if rows == [] then InsertRun([], [], None)
    else
      var m := if |rows| < n then |rows| else n;
      if !Accepted(present, accepts, rows[..m]) then InsertRun([rows[..m]], [], Some(Refused))
      else
        var rest := Run(rows[m..], n, present, accepts);
        InsertRun([rows[..m]] + rest.sent, rows[..m] + rest.inserted, rest.err)
  }

  /** `insert_df(cursor, df, size)` over the rows of `df`. */
  function InsertSpec(rows: seq<Row>, size: int, present: bool, accepts: Row -> bool): (r: InsertRun)
    ensures r.err == Some(ZeroStep) <==> size == 0
    ensures size < 0 ==> r == InsertRun([], [], None)
    ensures size > 0 && r.err.None? ==> r.inserted == rows
  {
    if size == 0 then InsertRun([], [], Some(ZeroStep))
    else if size < 0 then InsertRun([], [], None)
    else Run(rows, size, present, accepts)
  }

  /**
    The run completes exactly when every row is accepted, or there is
    none: the batches stop at the first refused one.
  */
  lemma {:induction false} RunCompletes(rows: seq<Row>, n: nat, present: bool, accepts: Row -> bool)
    requires n > 0
    ensures Run(rows, n, present, accepts).err.None? <==> rows == [] || (present && forall x :: x in rows ==> accepts(x))
    decreases |rows|
  {
    if rows != [] {
      var m := if |rows| < n then |rows| else n;
      var b := rows[..m];
      assert rows == b + rows[m..];
      RunCompletes(rows[m..], n, present, accepts);
      if present {
        if !Accepted(present, accepts, b) {
          var x :| x in b && !accepts(x);
          assert x in rows;
        } else if Run(rows[m..], n, present, accepts).err.Some? {
          var x :| x in rows[m..] && !accepts(x);
          assert x in rows;
        }
      }
    }
  }

  /** The batches sent are the first of `Batches(rows, n)`, and all of them with every row inserted when the run completes. */
  lemma {:induction false} RunSendsBatches(rows: seq<Row>, n: nat, present: bool, accepts: Row -> bool)
    requires n > 0
    ensures var r := Run(rows, n, present, accepts);
      r.sent <= Batches(rows, n)
      && (r.err.None? ==> r.sent == Batches(rows, n) && r.inserted == rows)
    decreases |rows|
  {
    if rows != [] {
      var m := if |rows| < n then |rows| else n;
      assert rows == rows[..m] + rows[m..];
      RunSendsBatches(rows[m..], n, present, accepts);
    }
  }

  /**
    A run that fails was refused on the last batch it sent, and the
    transaction holds exactly the batches before that one.
  */
  lemma {:induction false} RunStopsAtRefusal(rows: seq<Row>, n: nat, present: bool, accepts: Row -> bool)
    requires n > 0
    ensures var r := Run(rows, n, present, accepts);
      r.err.Some? ==>
        r.err == Some(Refused) && |r.sent| > 0 && !Accepted(present, accepts, r.sent[|r.sent| - 1])
        && r.inserted == Flatten(r.sent[..|r.sent| - 1])
    decreases |rows|
  {
    if rows != [] {
      var m := if |rows| < n then |rows| else n;
      var b := rows[..m];
      RunStopsAtRefusal(rows[m..], n, present, accepts);
      var r, rest := Run(rows, n, present, accepts), Run(rows[m..], n, present, accepts);
      if Accepted(present, accepts, b) && rest.err.Some? {
        assert r.sent[..|r.sent| - 1] == [b] + rest.sent[..|rest.sent| - 1];
        assert (r.sent[..|r.sent| - 1])[1..] == rest.sent[..|rest.sent| - 1];
      } else if !Accepted(present, accepts, b) {
        assert r.sent[..0] == [];
      }
    }
  }

  /** One step of `insert_df`'s loop: the batch `rows[i..end]`, then the run from `end`. */
  lemma RunStep(rows: seq<Row>, i: nat, end: nat, n: nat, present: bool, accepts: Row -> bool)
    requires n > 0 && i < |rows| && end == (if i + n <= |rows| then i + n else |rows|)
    ensures var r, rest := Run(rows[i..], n, present, accepts), Run(rows[end..], n, present, accepts);
      r == if !Accepted(present, accepts, rows[i..end]) then InsertRun([rows[i..end]], [], Some(Refused))
        else InsertRun([rows[i..end]] + rest.sent, rows[i..end] + rest.inserted, rest.err)
  {
    assert rows[i..][..end - i] == rows[i..end];
    assert rows[i..][end - i..] == rows[end..];
  }

  /** The connection to SQL Server, with `autocommit = False`. */
  class Database {
    /** whether `raw.yellow_trips` exists */
    var present: bool
    /** the rows of the table that are committed */
    var committed: seq<Row>
    /** the rows inserted by the open transaction */
    var pending: seq<Row>
    /** the batches handed to `executemany`, in order */
    var calls: seq<seq<Row>>
    /** which rows the server accepts (their types and sizes suit the table) */
    const accepts: Row -> bool

    /** A table that does not exist holds no rows. */
    predicate Valid()
      reads this
    {
      present || (committed == [] && pending == [])
    }

    constructor (present: bool, committed: seq<Row>, accepts: Row -> bool)
      requires present || committed == []
      ensures Valid() && this.present == present && this.committed == committed && this.accepts == accepts
      ensures pending == [] && calls == []
    {
      this.present := present;
      this.committed := committed;
      this.pending := [];
      this.calls := [];
      this.accepts := accepts;
    }

    /** `ensure_table`: `CREATE TABLE` only if the table is absent; an existing table is left as it is. */
    method EnsureTable()
      requires Valid()
      modifies this
      ensures Valid() && present
      ensures committed == old(committed) && pending == old(pending) && calls == old(calls)
    {
      if !present {
        present := true;
      }
    }

    /** `cursor.executemany(sql, batch)`: all of the batch is inserted, or it raises and none is. */
    method ExecuteMany(batch: seq<Row>) returns (ok: bool)
      requires Valid()
      modifies this
      ensures Valid() && ok == Accepted(present, accepts, batch)
      ensures calls == old(calls) + [batch]
      ensures pending == if ok then old(pending) + batch else old(pending)
      ensures present == old(present) && committed == old(committed)
    {
      calls := calls + [batch];
      ok := Accepted(present, accepts, batch);
      if ok {
        pending := pending + batch;
      }
    }

    /** `conn.commit()` */
    method Commit()
      requires Valid()
      modifies this
      ensures Valid() && committed == old(committed) + old(pending) && pending == []
      ensures present == old(present) && calls == old(calls)
    {
      committed := committed + pending;
      pending := [];
    }
  }

  /** The loop of `insert_df`: the rows in batches of `n`, sent in order until one is refused. */
  method InsertRows(db: Database, rows: seq<Row>, n: nat) returns (err: Option<InsertError>)
    requires db.Valid() && n > 0
    modifies db
    ensures db.Valid() && db.present == old(db.present) && db.committed == old(db.committed)
    ensures var run := Run(rows, n, db.present, db.accepts);
      err == run.err && db.calls == old(db.calls) + run.sent && db.pending == old(db.pending) + run.inserted
  {
    ghost var present, accepts := db.present, db.accepts;
    ghost var run := Run(rows, n, present, accepts);
    ghost var calls0, pending0 := db.calls, db.pending;
    var i := 0;
    while i < |rows|
      invariant i <= |rows|
      invariant db.Valid() && db.present == present && db.committed == old(db.committed)
      invariant calls0 + run.sent == db.calls + Run(rows[i..], n, present, accepts).sent
      invariant pending0 + run.inserted == db.pending + Run(rows[i..], n, present, accepts).inserted
      invariant run.err == Run(rows[i..], n, present, accepts).err
    {
      // `range(0, len(rows), n)` steps by `n`; the last batch may be shorter
      var end := if i + n <= |rows| then i + n else |rows|;
      RunStep(rows, i, end, n, present, accepts);
      ghost var rest := Run(rows[end..], n, present, accepts);
      ghost var calls1, pending1 := db.calls, db.pending;
      var ok := db.ExecuteMany(rows[i..end]);
      if !ok {
        return Some(Refused);
      }
      Regroup(calls1, [rows[i..end]], rest.sent);
      Regroup(pending1, rows[i..end], rest.inserted);
      i := end;
    }
    return None;
  }

  /** `insert_df(cursor, df, batch_size)` */
  method InsertDf(db: Database, df: Frame, batchSize: int) returns (err: Option<InsertError>)
    requires db.Valid() && df.Valid()
    modifies db
    ensures db.Valid() && db.present == old(db.present) && db.committed == old(db.committed)
    ensures var run := InsertSpec(Rows(df.Value()), batchSize, db.present, db.accepts);
      err == run.err && db.calls == old(db.calls) + run.sent && db.pending == old(db.pending) + run.inserted
  {
    var rows := Rows(df.Value());
    if batchSize == 0 {
      return Some(ZeroStep);
    }
    if batchSize < 0 {
      // `range` with a negative step from 0 up to `len(rows)` is empty
      return None;
    }
    err := InsertRows(db, rows, batchSize);
  }

  // ---------------------------------------------------------------------
  // main
  // ---------------------------------------------------------------------

  /** Why `main` stopped at a file. */
  datatype LoadFailure =
      /** `pd.read_parquet` raised */
    | Unreadable(file: string)
      /** the `Int64` cast of a column raised in `prep_df` */
    | CastRaised(file: string, column: Col)
      /** `executemany` raised in `insert_df` */
    | InsertRefused(file: string)

  datatype LoadOutcome =
      /** `FileNotFoundError`: the directory holds no `.parquet` file */
    | NoParquetFiles
    | Loaded(files: nat)
    | Aborted(failure: LoadFailure)

  /** `pd.read_parquet` never produces a malformed frame. */
  ghost predicate ReaderSound(read: string -> Option<Table>) {
    forall f :: read(f).Some? ==> WellFormed(read(f).value)
  }

  /** What one file does to the open transaction: read, prepare, insert. */
  datatype FileRun = FileRun(sent: seq<seq<Row>>, inserted: seq<Row>, failure: Option<LoadFailure>)

  /** `pd.read_parquet` then `prep_df`: the prepared frame of a file, or the exception that stops `main`. */
  function PrepareFile(f: string, read: string -> Option<Table>, p: Parsers): Result<Table, LoadFailure>
    requires ReaderSound(read)
  {
    match read(f)
    case None => Failure(Unreadable(f))
    case Some(t) =>
      match PrepSpec(t, f, p)
      case Failure(c) => Failure(CastRaised(f, c))
      case Success(u) => Success(u)
  }

  function LoadFile(f: string, read: string -> Option<Table>, p: Parsers, accepts: Row -> bool): (r: FileRun)
    requires ReaderSound(read)
    ensures read(f).None? ==> r == FileRun([], [], Some(Unreadable(f)))
    ensures r.failure.Some? ==> r.failure.value.file == f
    ensures r.failure.None? ==> PrepareFile(f, read, p).Success? && r.inserted == Rows(PrepareFile(f, read, p).value)
  {
    match PrepareFile(f, read, p)
    case Failure(e) => FileRun([], [], Some(e))
    case Success(u) =>
      var run := InsertSpec(Rows(u), BatchSize, true, accepts);
      FileRun(run.sent, run.inserted, if run.err.Some? then Some(InsertRefused(f)) else None)
  }

  /** `LoadFile` as a function of the file name alone. */
  ghost function FileRuns(read: string -> Option<Table>, p: Parsers, accepts: Row -> bool): (load: string -> FileRun)
    requires ReaderSound(read)
    ensures forall f :: load(f) == LoadFile(f, read, p, accepts)
  {
    f => LoadFile(f, read, p, accepts)
  }

  /** The rows committed, the batches sent, the rows left uncommitted and the failure, if any. */
  datatype LoadRun = LoadRun(committed: seq<Row>, sent: seq<seq<Row>>, pending: seq<Row>, failure: Option<LoadFailure>)

  /** The loop of `main` over the files: each is committed after it loads, and the first failure ends the run. */
  function LoadFiles(files: seq<string>, load: string -> FileRun): (r: LoadRun)
    ensures r.failure.None? ==> r.pending == [] && forall f :: f in files ==> load(f).failure.None?
    ensures r.failure.Some? ==> exists f :: f in files && load(f).failure == r.failure
  {
    if files == [] then LoadRun([], [], [], None)
    else
      var r := load(files[0]);
      if r.failure.Some? then LoadRun([], r.sent, r.inserted, r.failure)
      else
        var rest := LoadFiles(files[1..], load);
        LoadRun(r.inserted + rest.committed, r.sent + rest.sent, rest.pending, rest.failure)
  }

  /** `LoadFiles` from file `k` on: file `k`, then the files after it. */
  lemma LoadFilesStep(files: seq<string>, k: nat, load: string -> FileRun)
    requires k < |files|
    ensures var r, rest := load(files[k]), LoadFiles(files[k + 1..], load);
      LoadFiles(files[k..], load) ==
        if r.failure.Some? then LoadRun([], r.sent, r.inserted, r.failure)
        else LoadRun(r.inserted + rest.committed, r.sent + rest.sent, rest.pending, rest.failure)
  {
    assert files[k..][0] == files[k] && files[k..][1..] == files[k + 1..];
  }

  /** The number of files, from the first, that load without failure. */
  function Completed(files: seq<string>, load: string -> FileRun): (k: nat)
    ensures k <= |files|
    ensures forall j :: 0 <= j < k ==> load(files[j]).failure.None?
    ensures k < |files| ==> load(files[k]).failure.Some?
  {
    if files == [] || load(files[0]).failure.Some? then 0
    else 1 + Completed(files[1..], load)
  }

  /**
    A failure on file `k` leaves exactly the files before it committed,
    each with all its rows, and the rows the failing file inserted
    uncommitted.
  */
  lemma {:induction false} LoadCommitsWholeFiles(files: seq<string>, load: string -> FileRun)
    ensures var run, k := LoadFiles(files, load), Completed(files, load);
      run.committed == Flatten(seq(k, j requires 0 <= j < k => load(files[j]).inserted))
      && (k == |files| ==> run.failure.None? && run.pending == [])
      && (k < |files| ==> run.failure == load(files[k]).failure && run.pending == load(files[k]).inserted)
  {
    if files != [] && load(files[0]).failure.None? {
      LoadCommitsWholeFiles(files[1..], load);
      var k := Completed(files, load);
      var parts := seq(k, j requires 0 <= j < k => load(files[j]).inserted);
      assert parts[1..] == seq(k - 1, j requires 0 <= j < k - 1 => load(files[1..][j]).inserted);
    }
  }

  /** A file that loads commits every row of its prepared frame. */
  lemma LoadedFileRows(f: string, read: string -> Option<Table>, p: Parsers, accepts: Row -> bool)
    requires ReaderSound(read) && LoadFile(f, read, p, accepts).failure.None?
    ensures read(f).Some? && PrepSpec(read(f).value, f, p).Success?
    ensures LoadFile(f, read, p, accepts).inserted == Rows(PrepSpec(read(f).value, f, p).value)
  {
    RunSendsBatches(Rows(PrepSpec(read(f).value, f, p).value), BatchSize, true, accepts);
  }

  /** The first two steps of `main`'s loop for one file: read it and prepare it. */
  method ReadAndPrepare(f: string, read: string -> Option<Table>, p: Parsers) returns (r: Result<Frame, LoadFailure>)
    requires ReaderSound(read)
    ensures match PrepareFile(f, read, p)
      case Failure(e) => r == Failure(e)
      case Success(u) => r.Success? && fresh(r.value) && r.value.Valid() && r.value.Value() == u
  {
    var t := read(f);
    if t.None? {
      return Failure(Unreadable(f));
    }
    var df := new Frame(t.value);
    var prepared := PrepDf(df, f, p);
    if prepared.Failure? {
      return Failure(CastRaised(f, prepared.error));
    }
    return Success(prepared.value);
  }

  /** The body of `main`'s loop for one file, up to the commit: read it, prepare it, insert it. */
  method LoadOne(db: Database, f: string, read: string -> Option<Table>, p: Parsers) returns (failure: Option<LoadFailure>)
    requires db.Valid() && db.present && ReaderSound(read)
    modifies db
    ensures db.Valid() && db.present && db.committed == old(db.committed)
    ensures var r := LoadFile(f, read, p, db.accepts);
      failure == r.failure && db.calls == old(db.calls) + r.sent && db.pending == old(db.pending) + r.inserted
  {
    var r := ReadAndPrepare(f, read, p);
    if r.Failure? {
      return Some(r.error);
    }
    var err := InsertDf(db, r.value, BatchSize);
    if err.Some? {
      return Some(InsertRefused(f));
    }
    return None;
  }

  /**
    `main`: makes sure the table exists and commits, lists the directory's
    `.parquet` files in sorted order (raising if there is none), then for
    each file reads it, prepares it, inserts it in batches of 5000 rows and
    commits. The first exception ends the run.
  */
  method LoadDirectory(db: Database, names: set<string>, read: string -> Option<Table>, p: Parsers)
    returns (outcome: LoadOutcome)
    requires db.Valid() && ReaderSound(read)
    modifies db
    ensures db.Valid() && db.present
    ensures var files := ParquetListing(names);
      if files == [] then
        outcome == NoParquetFiles && db.calls == old(db.calls)
        && db.committed == old(db.committed) + old(db.pending) && db.pending == []
      else
        var run := LoadFiles(files, FileRuns(read, p, db.accepts));
        db.committed == old(db.committed) + old(db.pending) + run.committed
        && db.pending == run.pending && db.calls == old(db.calls) + run.sent
        && outcome == if run.failure.None? then Loaded(|files|) else Aborted(run.failure.value)
  {
    db.EnsureTable();
    db.Commit();
    var files := ParquetListing(names);
    if files == [] {
      return NoParquetFiles;
    }
    ghost var load := FileRuns(read, p, db.accepts);
    ghost var run := LoadFiles(files, load);
    ghost var committed0, calls0 := db.committed, db.calls;
    for k := 0 to |files|
      invariant db.Valid() && db.present && db.pending == [] && load == FileRuns(read, p, db.accepts)
      invariant committed0 + run.committed == db.committed + LoadFiles(files[k..], load).committed
      invariant calls0 + run.sent == db.calls + LoadFiles(files[k..], load).sent
      invariant run.pending == LoadFiles(files[k..], load).pending
      invariant run.failure == LoadFiles(files[k..], load).failure
    {
      var f := files[k];
      LoadFilesStep(files, k, load);
      ghost var r, rest := load(f), LoadFiles(files[k + 1..], load);
      ghost var committed1, calls1 := db.committed, db.calls;
      assert r == LoadFile(f, read, p, db.accepts);
      var failure := LoadOne(db, f, read, p);
      if failure.Some? {
        return Aborted(failure.value);
      }
      assert db.pending == r.inserted && db.calls == calls1 + r.sent;
      db.Commit();
      assert db.committed == committed1 + r.inserted;
      Regroup(committed1, r.inserted, rest.committed);
      Regroup(calls1, r.sent, rest.sent);
    }
    return Loaded(|files|);
  }
}
