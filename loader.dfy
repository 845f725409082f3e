/**
  The loader (`load_parquet_to_sqlserver.py`): makes sure the target table
  exists, then takes the `.parquet` files of a directory in sorted order
  and, for each, normalises its rows to the table's 21 columns, inserts
  them in batches and commits. The first error (an unreadable file, a
  refused integer cast, a rejected insert) ends the run; what earlier files
  committed stays.
*/
module Loader {
  import opened Wrappers
  import opened Seqs
  import opened Ordering
  import opened Frames

  // ---------------------------------------------------------------------
  // Schema
  // ---------------------------------------------------------------------

  const TargetTable: string := "raw.yellow_trips"

  /** The columns of a trip record that `prep_df` keeps. */
  datatype Col =
    | VendorID | PickupDatetime | DropoffDatetime | PassengerCount | TripDistance
    | RatecodeID | StoreAndFwdFlag | PULocationID | DOLocationID | PaymentType | FareAmount
    | Extra | MtaTax | TipAmount | TollsAmount | ImprovementSurcharge | TotalAmount
    | CongestionSurcharge | AirportFee | CbdCongestionFee

  /** The name of a kept column in the file and in the table. */
  /** The names of the kept columns, in the order of `Col`. */
  const NameList: seq<string> := [
    "VendorID", "tpep_pickup_datetime", "tpep_dropoff_datetime", "passenger_count", "trip_distance",
    "RatecodeID", "store_and_fwd_flag", "PULocationID", "DOLocationID", "payment_type", "fare_amount",
    "extra", "mta_tax", "tip_amount", "tolls_amount", "improvement_surcharge", "total_amount",
    "congestion_surcharge", "Airport_fee", "cbd_congestion_fee"]

  /** The position of a kept column in `cols`. */
  function Ordinal(c: Col): (r: nat)
    ensures r < |NameList|
  {
    match c
    case VendorID => 0
    case PickupDatetime => 1
    case DropoffDatetime => 2
    case PassengerCount => 3
    case TripDistance => 4
    case RatecodeID => 5
    case StoreAndFwdFlag => 6
    case PULocationID => 7
    case DOLocationID => 8
    case PaymentType => 9
    case FareAmount => 10
    case Extra => 11
    case MtaTax => 12
    case TipAmount => 13
    case TollsAmount => 14
    case ImprovementSurcharge => 15
    case TotalAmount => 16
    case CongestionSurcharge => 17
    case AirportFee => 18
    case CbdCongestionFee => 19
  }

  /** The name of a kept column in the file and in the table. */
  function Name(c: Col): string {
    NameList[Ordinal(c)]
  }

  /** `cols` in `prep_df`: the kept columns, in this order. */
  const Columns: seq<Col> := [
    VendorID, PickupDatetime, DropoffDatetime, PassengerCount, TripDistance,
    RatecodeID, StoreAndFwdFlag, PULocationID, DOLocationID, PaymentType, FareAmount,
    Extra, MtaTax, TipAmount, TollsAmount, ImprovementSurcharge, TotalAmount,
    CongestionSurcharge, AirportFee, CbdCongestionFee]

  /** The column naming the file each row came from, appended after the others. */
  const SourceColumn: string := "source_file"

  const DateColumns: seq<Col> := [PickupDatetime, DropoffDatetime]
  const IntColumns: seq<Col> := [VendorID, PULocationID, DOLocationID]
  const FlagColumn: Col := StoreAndFwdFlag

  /** The frame's column names for a list of kept columns. */
  function Names(cols: seq<Col>): (r: seq<string>)
    ensures |r| == |cols| && forall j :: 0 <= j < |cols| ==> r[j] == Name(cols[j])
  {
    seq(|cols|, j requires 0 <= j < |cols| => Name(cols[j]))
  }

  /** No two kept columns share a name. */
  lemma NameInjective(a: Col, b: Col)
    ensures Name(a) == Name(b) ==> a == b
  {
    if Name(a) == Name(b) {
      assert |Name(a)| == |Name(b)| && Name(a)[0] == Name(b)[0] && Name(a)[2] == Name(b)[2];
    }
  }

  /** `source_file` is not the name of a kept column. */
  lemma SourceIsNew(c: Col)
    ensures Name(c) != SourceColumn
  {
  }

  lemma NamesDistinct(cols: seq<Col>)
    ensures Distinct(cols) ==> Distinct(Names(cols))
  {
    forall i, j | 0 <= i < j < |cols| ensures cols[i] != cols[j] ==> Names(cols)[i] != Names(cols)[j] {
      NameInjective(cols[i], cols[j]);
    }
  }

  lemma NamesMembers(cols: seq<Col>)
    ensures forall c :: Name(c) in Names(cols) <==> c in cols
    ensures SourceColumn !in Names(cols)
  {
    forall c | Name(c) in Names(cols) ensures c in cols {
      var j :| 0 <= j < |cols| && Names(cols)[j] == Name(c);
      NameInjective(c, cols[j]);
    }
    forall j | 0 <= j < |cols| ensures Names(cols)[j] != SourceColumn {
      SourceIsNew(cols[j]);
    }
  }

  /** `[c for c in cs if c not in drop]` */
  function Without(cs: seq<Col>, drop: seq<Col>): (r: seq<Col>)
    ensures forall c :: c in r <==> c in cs && c !in drop
    ensures Distinct(cs) ==> Distinct(r)
  {
    if cs == [] then []
    else
      var rest := Without(cs[1..], drop);
      assert Distinct(cs) ==> Distinct(cs[1..]) && cs[0] !in cs[1..];
      if cs[0] in drop then rest else [cs[0]] + rest
  }

  /** `float_cols`: every kept column that is not an integer, flag or date column. */
  const FloatColumns: seq<Col> := Without(Columns, IntColumns + [FlagColumn] + DateColumns)

  function Elems<T>(s: seq<T>): set<T> {
    set c | c in s
  }

  datatype Kind = DateKind | IntKind | FlagKind | FloatKind

  function KindOf(c: Col): Kind {
    if c in DateColumns then DateKind
    else if c in IntColumns then IntKind
    else if c == FlagColumn then FlagKind
    else FloatKind
  }

  datatype SqlType = SqlInt | SqlDateTime2 | SqlFloat | SqlVarChar(width: nat)

  /** The column list of `ensure_table`'s `CREATE TABLE`; every column allows `NULL`. */
  const TableDef: seq<(string, SqlType)> := [
    ("VendorID", SqlInt), ("tpep_pickup_datetime", SqlDateTime2), ("tpep_dropoff_datetime", SqlDateTime2),
    ("passenger_count", SqlFloat), ("trip_distance", SqlFloat), ("RatecodeID", SqlFloat),
    ("store_and_fwd_flag", SqlVarChar(5)), ("PULocationID", SqlInt), ("DOLocationID", SqlInt),
    ("payment_type", SqlFloat), ("fare_amount", SqlFloat), ("extra", SqlFloat), ("mta_tax", SqlFloat),
    ("tip_amount", SqlFloat), ("tolls_amount", SqlFloat), ("improvement_surcharge", SqlFloat),
    ("total_amount", SqlFloat), ("congestion_surcharge", SqlFloat), ("Airport_fee", SqlFloat),
    ("cbd_congestion_fee", SqlFloat), ("source_file", SqlVarChar(260))]

  /** The column list of `insert_df`'s `INSERT`. */
  const InsertColumns: seq<string> := [
    "VendorID", "tpep_pickup_datetime", "tpep_dropoff_datetime", "passenger_count", "trip_distance",
    "RatecodeID", "store_and_fwd_flag", "PULocationID", "DOLocationID", "payment_type", "fare_amount",
    "extra", "mta_tax", "tip_amount", "tolls_amount", "improvement_surcharge", "total_amount",
    "congestion_surcharge", "Airport_fee", "cbd_congestion_fee", "source_file"]

  /** The parameter markers of the `INSERT`'s `VALUES (?,?,...)` clause, in order. */
  const Placeholders: seq<string> := [
    "?", "?", "?", "?", "?", "?", "?", "?", "?", "?", "?", "?", "?", "?", "?", "?", "?", "?", "?", "?", "?"]

  /** The SQL type that fits what the conversion of column `c` produces. */
  function SqlTypeOf(c: Col): SqlType {
    match KindOf(c)
    case DateKind => SqlDateTime2
    case IntKind => SqlInt
    case FlagKind => SqlVarChar(5)
    case FloatKind => SqlFloat
  }

  /**
    The `INSERT` names the columns `prep_df` produces, in the same order,
    with one placeholder for each.
  */
  lemma InsertMatchesPrep()
    ensures InsertColumns == Names(Columns) + [SourceColumn]
    ensures |InsertColumns| == |Placeholders| == 21
  {
    ColumnsInOrder();
  }

  /** `Columns` lists the kept columns in the order of their names. */
  lemma ColumnsInOrder()
    ensures Names(Columns) == NameList
  {
    assert forall j :: 0 <= j < |Columns| ==> Ordinal(Columns[j]) == j;
  }

  /** The table is created with exactly the inserted columns, each typed after its conversion. */
  lemma TableMatchesInsert()
    ensures |TableDef| == |InsertColumns| == |Columns| + 1
    ensures forall j :: 0 <= j < |Columns| ==> TableDef[j] == (InsertColumns[j], SqlTypeOf(Columns[j]))
    ensures TableDef[|Columns|] == (SourceColumn, SqlVarChar(260))
  {
    TableNames();
    TableTypes();
  }

  lemma TableNames()
    ensures |TableDef| == |InsertColumns| && forall j :: 0 <= j < |TableDef| ==> TableDef[j].0 == InsertColumns[j]
  {
  }

  lemma TableTypes()
    ensures |TableDef| == |Columns| + 1 && forall j :: 0 <= j < |Columns| ==> TableDef[j].1 == SqlTypeOf(Columns[j])
  {
  }

  /** Every column of a trip record is kept, once. */
  lemma ColumnsDistinct()
    ensures Distinct(Columns) && forall c :: c in Columns
  {
    forall c ensures c in Columns {
      assert Columns[Ordinal(c)] == c;
    }
  }

  // ---------------------------------------------------------------------
  // Converting cells
  // ---------------------------------------------------------------------

  /**
    The parts of pandas' parsing the model does not spell out: the
    timestamp `to_datetime` reads from a cell, the number `to_numeric`
    reads from a cell that is not already a number, and `str()` of a cell.
  */
  datatype Parsers = Parsers(time: Cell -> Option<int>, number: Cell -> Option<real>, text: Cell -> string)

  /** `pd.to_datetime(..., errors="coerce")` of one cell. */
  function ToDatetime(p: Parsers, c: Cell): (r: Cell)
    ensures r.Time? || r == Null(NotATime)
  {
    match c
    case Null(_) => Null(NotATime)
    case Time(_) => c
    case _ => match p.time(c) {
      case Some(t) => Time(t)
      case None => Null(NotATime)
    }
  }

  /** The number `pd.to_numeric` reads from one cell. */
  function NumberOf(p: Parsers, c: Cell): Option<real> {
    match c
    case Null(_) => None
    case Int(i) => Some(i as real)
    case Num(x) => Some(x)
    case _ => p.number(c)
  }

  /** `pd.to_numeric(..., errors="coerce")` of one cell. */
  function ToNumeric(p: Parsers, c: Cell): (r: Cell)
    ensures r.Num? || r == Null(FloatNaN)
  {
    match NumberOf(p, c)
    case Some(x) => Num(x)
    case None => Null(FloatNaN)
  }

  predicate IsWhole(x: real) {
    x == x.Floor as real
  }

  /** `.astype("Int64")` of one numeric cell; `None` where pandas raises. */
  function ToInt64(c: Cell): (r: Option<Cell>)
    ensures r.Some? ==> r.value.Int? || r.value == Null(PandasNA) || r.value == c
  {
    match c
    case Null(_) => Some(Null(PandasNA))
    case Num(x) => if IsWhole(x) then Some(Int(x.Floor)) else None
    case _ => Some(c)
  }

  /** `.astype("string")` of one cell. */
  function AsString(p: Parsers, c: Cell): (r: Cell)
    ensures r.Str? || r == Null(PandasNA)
  {
    match c
    case Null(_) => Null(PandasNA)
    case Str(_) => c
    case _ => Str(p.text(c))
  }

  /** `.astype("Int64")` of a whole column: it raises if any cell cannot be cast. */
  function CastColumn(col: seq<Cell>): (r: Option<seq<Cell>>)
    ensures r.None? <==> exists i :: 0 <= i < |col| && ToInt64(col[i]).None?
    ensures r.Some? ==> |r.value| == |col| && forall i :: 0 <= i < |col| ==> ToInt64(col[i]) == Some(r.value[i])
  {
    if col == [] then Some([])
    else match (ToInt64(col[0]), CastColumn(col[1..]))
      case (Some(v), Some(rest)) =>
        assert forall i :: 1 <= i < |col| ==> col[i] == col[1..][i - 1];
        Some([v] + rest)
      case (None, _) => None
      case (_, None) =>
        var i :| 0 <= i < |col[1..]| && ToInt64(col[1..][i]).None?;
        assert col[i + 1] == col[1..][i];
        None
  }

  function DatetimeColumn(p: Parsers, col: seq<Cell>): seq<Cell> {
    Map(x => ToDatetime(p, x), col)
  }

  /** A column of numpy integers only, as `read_parquet` gives an int64 column without gaps. */
  predicate IntegerColumn(col: seq<Cell>) {
    forall i :: 0 <= i < |col| ==> col[i].Int?
  }

  /**
    `pd.to_numeric(..., errors="coerce")` of a whole column: an int64 column
    comes back as it is, any other column becomes float64 cell by cell.
  */
  function NumericColumn(p: Parsers, col: seq<Cell>): (r: seq<Cell>)
    ensures |r| == |col|
    ensures IntegerColumn(col) ==> r == col
    ensures !IntegerColumn(col) ==> forall i :: 0 <= i < |col| ==> r[i].Num? || r[i] == Null(FloatNaN)
  {
    if IntegerColumn(col) then col else Map(x => ToNumeric(p, x), col)
  }

  function StringColumn(p: Parsers, col: seq<Cell>): seq<Cell> {
    Map(x => AsString(p, x), col)
  }

  /** A column after the conversion `prep_df` applies to it; `None` where the integer cast raises. */
  function Convert(p: Parsers, c: Col, col: seq<Cell>): (r: Option<seq<Cell>>)
    ensures r.Some? ==> |r.value| == |col|
  {
    match KindOf(c)
    case DateKind => Some(DatetimeColumn(p, col))
    case IntKind => CastColumn(NumericColumn(p, col))
    case FloatKind => Some(NumericColumn(p, col))
    case FlagKind => Some(StringColumn(p, col))
  }

  // ---------------------------------------------------------------------
  // Normalising a frame: the specification
  // ---------------------------------------------------------------------

  /** The cells column `c` starts from: the file's own, or all `None` when the file lacks it. */
  function Input(t: Table, c: Col): (col: seq<Cell>)
    requires WellFormed(t)
    ensures |col| == t.height
  {
    if Name(c) in t.names then Get(t, Name(c)) else Fill(t.height, Null(NoneValue))
  }

  /** The first of the given integer columns whose cast raises, if any. */
  function CastFailure(t: Table, p: Parsers, cs: seq<Col>): (r: Option<Col>)
    requires WellFormed(t)
    ensures r.Some? ==> r.value in cs && Convert(p, r.value, Input(t, r.value)).None?
    ensures r.None? ==> forall c :: c in cs ==> Convert(p, c, Input(t, c)).Some?
  {
    if cs == [] then None
    else if Convert(p, cs[0], Input(t, cs[0])).None? then Some(cs[0])
    else CastFailure(t, p, cs[1..])
  }

  /**
    A column after its conversion. Where the integer cast raises no frame
    is produced, so what this gives for such a column is never observed;
    it is the column as read.
  */
  function Conversion(p: Parsers, c: Col, col: seq<Cell>): (r: seq<Cell>)
    ensures |r| == |col|
  {
    match Convert(p, c, col)
    case Some(v) => v
    case None => col
  }

  /** The columns `cols`, converted where named in `done` and as read otherwise. */
  function Stage(t: Table, p: Parsers, cols: seq<Col>, done: set<Col>): (r: Table)
    requires WellFormed(t)
    ensures r.names == Names(cols) && r.height == t.height && |r.columns| == |cols|
    ensures Distinct(cols) ==> WellFormed(r)
  {
    NamesDistinct(cols);
    Table(Names(cols), seq(|cols|, j requires 0 <= j < |cols| =>
      if cols[j] in done then Conversion(p, cols[j], Input(t, cols[j])) else Input(t, cols[j])), t.height)
  }

  /**
    What the steps of `prep_df` rely on in its schema: each converted
    column is kept, has the kind its conversion expects, and is converted
    by one step only.
  */
  predicate SchemaShape(cols: seq<Col>, pickup: Col, dropoff: Col, ints: seq<Col>, floats: seq<Col>, flag: Col) {
    Distinct(cols) && Distinct(ints) && Distinct(floats)
    && pickup in cols && KindOf(pickup) == DateKind && dropoff in cols && KindOf(dropoff) == DateKind && pickup != dropoff
    && (forall c :: c in ints ==> c in cols && KindOf(c) == IntKind && c != pickup && c != dropoff)
    && (forall c :: c in floats ==> c in cols && KindOf(c) == FloatKind && c !in ints && c != pickup && c != dropoff)
    && flag in cols && KindOf(flag) == FlagKind && flag !in floats && flag !in ints && flag != pickup && flag != dropoff
  }

  /** The columns the steps convert: the two dates, the integers, the floats and the flag. */
  function Converted(pickup: Col, dropoff: Col, ints: seq<Col>, floats: seq<Col>, flag: Col): set<Col> {
    {pickup, dropoff} + Elems(ints) + Elems(floats) + {flag}
  }

  /** The columns `cols` at the stage `done`, followed by `source_file` naming `file` in every row. */
  function Normalised(t: Table, p: Parsers, cols: seq<Col>, done: set<Col>, file: string): Table
    requires WellFormed(t) && Distinct(cols)
  {
    WithColumn(Stage(t, p, cols, done), SourceColumn, Fill(t.height, Str(file)))
  }

  /** The steps of `prep_df` over a schema of that shape: the normalised frame, or the integer column whose cast raises. */
  function NormaliseSpec(t: Table, p: Parsers, cols: seq<Col>, pickup: Col, dropoff: Col,
                         ints: seq<Col>, floats: seq<Col>, flag: Col, file: string): Result<Table, Col>
    requires WellFormed(t) && SchemaShape(cols, pickup, dropoff, ints, floats, flag)
  {
    match CastFailure(t, p, ints)
    case Some(c) => Failure(c)
    case None => Success(Normalised(t, p, cols, Converted(pickup, dropoff, ints, floats, flag), file))
  }

  /** `prep_df(df, file)`: the loader's own schema; a failure names the integer column whose cast raised. */
  function PrepSpec(t: Table, file: string, p: Parsers): (r: Result<Table, Col>)
    requires WellFormed(t)
    ensures r.Failure? ==> r.error in IntColumns && Convert(p, r.error, Input(t, r.error)).None?
  {
    ColumnsShape();
    NormaliseSpec(t, p, Columns, DateColumns[0], DateColumns[1], IntColumns, FloatColumns, FlagColumn, file)
  }

  lemma StageWellFormed(t: Table, p: Parsers, cols: seq<Col>, done: set<Col>)
    requires WellFormed(t) && Distinct(cols)
    ensures WellFormed(Stage(t, p, cols, done))
    ensures forall j :: 0 <= j < |cols| ==> Get(Stage(t, p, cols, done), Name(cols[j])) == Stage(t, p, cols, done).columns[j]
  {
    NamesDistinct(cols);
  }

  // ---------------------------------------------------------------------
  // Normalising a frame: the properties
  // ---------------------------------------------------------------------

  /** The conversion of a column keeps every row and is done cell by cell. */
  lemma ConvertCells(p: Parsers, c: Col, col: seq<Cell>)
    ensures var r := Convert(p, c, col);
      r.Some? ==> forall i :: 0 <= i < |col| ==> r.value[i] == ConvertCell(p, c, col[i], IntegerColumn(col))
  {
  }

  /**
    What one cell of column `c` becomes when the conversion does not raise;
    an integer column keeps the integer value of the number, and a float
    column that held only integers (`ints`) keeps them as integers.
  */
  function ConvertCell(p: Parsers, c: Col, x: Cell, ints: bool): Cell {
    match KindOf(c)
    case DateKind => ToDatetime(p, x)
    case IntKind => (match NumberOf(p, x) case Some(v) => Int(v.Floor) case None => Null(PandasNA))
    case FloatKind => if ints then x else ToNumeric(p, x)
    case FlagKind => AsString(p, x)
  }

  /**
    After `prep_df` the frame has the 20 kept columns in order followed by
    `source_file`, and exactly as many rows as before.
  */
  lemma PrepSchema(t: Table, file: string, p: Parsers)
    requires WellFormed(t)
    ensures var r := PrepSpec(t, file, p);
      r.Success? ==> WellFormed(r.value) && r.value.names == Names(Columns) + [SourceColumn] && r.value.height == t.height
  {
    NamesMembers(Columns);
  }

  /** Every row of the result names the file it came from. */
  lemma PrepSourceFile(t: Table, file: string, p: Parsers)
    requires WellFormed(t)
    ensures var r := PrepSpec(t, file, p);
      r.Success? ==>
        SourceColumn in r.value.names
        && forall i :: 0 <= i < t.height ==> Get(r.value, SourceColumn)[i] == Str(file)
  {
    NamesMembers(Columns);
  }

  /**
    Cell by cell: each kept column holds the conversion of the file's cell,
    or of `None` when the file lacks the column.
  */
  lemma {:induction false} PrepCells(t: Table, file: string, p: Parsers, c: Col, i: nat)
    requires WellFormed(t) && i < t.height
    ensures var r := PrepSpec(t, file, p);
      r.Success? ==>
        Name(c) in r.value.names
        && Get(r.value, Name(c))[i] == ConvertCell(p, c, if Name(c) in t.names then Get(t, Name(c))[i] else Null(NoneValue), IntegerColumn(Input(t, c)))
  {
    var r := PrepSpec(t, file, p);
    if r.Success? {
      PrepColumn(t, file, p, c);
      OnlyIntCastsRaise(t, p, c);
      ConvertCells(p, c, Input(t, c));
    }
  }

  /** A float column read as int64 keeps its integers: `to_numeric` leaves such a column as it is. */
  lemma PrepKeepsIntegerFloatColumn(t: Table, file: string, p: Parsers, c: Col, i: nat)
    requires WellFormed(t) && i < t.height && KindOf(c) == FloatKind && IntegerColumn(Input(t, c))
    ensures var r := PrepSpec(t, file, p);
      r.Success? ==> Name(c) in r.value.names && Get(r.value, Name(c))[i] == Input(t, c)[i] && Input(t, c)[i].Int?
  {
    PrepCells(t, file, p, c, i);
    assert Input(t, c)[i] == if Name(c) in t.names then Get(t, Name(c))[i] else Null(NoneValue);
  }

  /** Each kept column of the result is the conversion of what the file held. */
  lemma PrepColumn(t: Table, file: string, p: Parsers, c: Col)
    requires WellFormed(t)
    ensures var r := PrepSpec(t, file, p);
      r.Success? ==>
        CastFailure(t, p, IntColumns).None? && Name(c) in r.value.names
        && Get(r.value, Name(c)) == Conversion(p, c, Input(t, c))
  {
    var r := PrepSpec(t, file, p);
    if r.Success? {
      var all := Converted(DateColumns[0], DateColumns[1], IntColumns, FloatColumns, FlagColumn);
      ColumnsShape();
      KindsCoverColumns();
      NormalisedColumn(t, p, Columns, all, file, c);
    }
  }

  /** In the normalised frame a converted column holds its conversion. */
  lemma NormalisedColumn(t: Table, p: Parsers, cols: seq<Col>, done: set<Col>, file: string, c: Col)
    requires WellFormed(t) && Distinct(cols) && c in cols && c in done
    ensures Name(c) in Normalised(t, p, cols, done, file).names
    ensures Get(Normalised(t, p, cols, done, file), Name(c)) == Conversion(p, c, Input(t, c))
  {
    StageWellFormed(t, p, cols, done);
    NamesMembers(cols);
    var j := IndexOf(cols, c);
    assert Get(Stage(t, p, cols, done), Name(cols[j])) == Stage(t, p, cols, done).columns[j];
  }

  /** When no integer cast raises, every kept column converts. */
  lemma OnlyIntCastsRaise(t: Table, p: Parsers, c: Col)
    requires WellFormed(t) && CastFailure(t, p, IntColumns).None?
    ensures Convert(p, c, Input(t, c)).Some?
  {
    if KindOf(c) == IntKind {
      assert c in IntColumns;
    }
  }

  /** A column the file lacks is null in every row. */
  lemma PrepAbsentIsNull(t: Table, file: string, p: Parsers, c: Col, i: nat)
    requires WellFormed(t) && Name(c) !in t.names && i < t.height
    ensures var r := PrepSpec(t, file, p);
      r.Success? ==> Name(c) in r.value.names && Get(r.value, Name(c))[i].Null?
  {
    PrepCells(t, file, p, c, i);
    NullConvertsToNull(p, c, NoneValue, IntegerColumn(Input(t, c)));
  }

  lemma NullConvertsToNull(p: Parsers, c: Col, m: Missing, ints: bool)
    ensures ConvertCell(p, c, Null(m), ints).Null?
  {
  }

  /**
    Bad values never raise except in the integer casts: `prep_df` fails
    exactly when an integer column holds a number with a fractional part.
  */
  lemma PrepFailsOnlyOnFraction(t: Table, file: string, p: Parsers)
    requires WellFormed(t)
    ensures PrepSpec(t, file, p).Failure? <==>
      exists c, i :: c in IntColumns && 0 <= i < t.height && NumberOf(p, Input(t, c)[i]).Some? && !IsWhole(NumberOf(p, Input(t, c)[i]).value)
  {
    forall c | c in IntColumns
      ensures Convert(p, c, Input(t, c)).None? <==>
        exists i :: 0 <= i < t.height && NumberOf(p, Input(t, c)[i]).Some? && !IsWhole(NumberOf(p, Input(t, c)[i]).value)
    {
      var nums := NumericColumn(p, Input(t, c));
      assert forall i :: 0 <= i < t.height ==> (ToInt64(nums[i]).None? <==> NumberOf(p, Input(t, c)[i]).Some? && !IsWhole(NumberOf(p, Input(t, c)[i]).value));
    }
  }

  // ---------------------------------------------------------------------
  // Normalising a frame: the steps
  // ---------------------------------------------------------------------

  /** Converting one more column moves the frame from one stage to the next. */
  lemma StageStep(t: Table, p: Parsers, cols: seq<Col>, done: set<Col>, c: Col, v: seq<Cell>)
    requires WellFormed(t) && Distinct(cols) && c in cols
    requires Convert(p, c, Input(t, c)) == Some(v)
    ensures WellFormed(Stage(t, p, cols, done))
    ensures WithColumn(Stage(t, p, cols, done), Name(c), v) == Stage(t, p, cols, done + {c})
  {
    StageWellFormed(t, p, cols, done);
    StageWellFormed(t, p, cols, done + {c});
    NamesMembers(cols);
    var a, b := WithColumn(Stage(t, p, cols, done), Name(c), v), Stage(t, p, cols, done + {c});
    forall j | 0 <= j < |cols| ensures a.columns[j] == b.columns[j] {
      assert Get(a, Name(cols[j])) == a.columns[j];
      NameInjective(c, cols[j]);
      if cols[j] != c {
        assert Get(a, Name(cols[j])) == Get(Stage(t, p, cols, done), Name(cols[j]));
      }
    }
  }

  /** A column not yet converted still holds the cells it started from. */
  lemma StageInput(t: Table, p: Parsers, cols: seq<Col>, done: set<Col>, c: Col)
    requires WellFormed(t) && Distinct(cols) && c in cols && c !in done
    ensures WellFormed(Stage(t, p, cols, done)) && Name(c) in Stage(t, p, cols, done).names
    ensures Get(Stage(t, p, cols, done), Name(c)) == Input(t, c)
  {
    StageWellFormed(t, p, cols, done);
    var j := IndexOf(cols, c);
    assert Get(Stage(t, p, cols, done), Name(cols[j])) == Stage(t, p, cols, done).columns[j];
  }

  /** `df[cols]` of the frame with its missing columns added is the first stage. */
  lemma SelectIsFirstStage(t: Table, p: Parsers, cols: seq<Col>)
    requires WellFormed(t) && Distinct(cols)
    ensures Distinct(Names(cols)) && forall n :: n in Names(cols) ==> n in AddMissing(t, Names(cols)).names
    ensures Project(AddMissing(t, Names(cols)), Names(cols)) == Stage(t, p, cols, {})
  {
    NamesDistinct(cols);
    AddMissingKeeps(t, Names(cols));
    var m := AddMissing(t, Names(cols));
    var a, b := Project(m, Names(cols)), Stage(t, p, cols, {});
    forall j | 0 <= j < |cols| ensures a.columns[j] == b.columns[j] {
      AddedColumnIsInput(t, m, cols[j]);
      assert a.columns[j] == Get(m, Name(cols[j]));
    }
  }

  /** A kept column of the frame with its missing columns added is that column's input. */
  lemma AddedColumnIsInput(t: Table, m: Table, c: Col)
    requires WellFormed(t) && WellFormed(m) && Name(c) in m.names
    requires Name(c) in t.names ==> Get(m, Name(c)) == Get(t, Name(c))
    requires Name(c) !in t.names ==> Get(m, Name(c)) == Fill(t.height, Null(NoneValue))
    ensures Get(m, Name(c)) == Input(t, c)
  {
  }

  /** The date, integer and flag columns are kept columns of their kind. */
  lemma FixedKinds()
    ensures KindOf(DateColumns[0]) == DateKind && KindOf(DateColumns[1]) == DateKind && DateColumns[0] != DateColumns[1]
    ensures Distinct(IntColumns) && forall c :: c in IntColumns ==> KindOf(c) == IntKind && c !in DateColumns
    ensures KindOf(FlagColumn) == FlagKind && FlagColumn !in IntColumns && FlagColumn !in DateColumns
  {
  }

  /** The float columns are the kept columns of no other kind, each once. */
  lemma FloatKinds()
    ensures Distinct(FloatColumns) && FlagColumn !in FloatColumns
    ensures forall c :: c in FloatColumns ==> KindOf(c) == FloatKind && c !in IntColumns && c !in DateColumns
  {
    ColumnsDistinct();
  }

  /** Every kept column belongs to one of the groups `prep_df` converts. */
  lemma KindsCoverColumns()
    ensures Converted(DateColumns[0], DateColumns[1], IntColumns, FloatColumns, FlagColumn) == Elems(Columns)
  {
    ColumnsDistinct();
    FloatKinds();
    var all := Converted(DateColumns[0], DateColumns[1], IntColumns, FloatColumns, FlagColumn);
    forall c | c in Columns ensures c in all {
      if c !in DateColumns && c !in IntColumns && c != FlagColumn {
        assert c in FloatColumns;
      }
    }
  }

  /** The loader's own schema has that shape. */
  lemma ColumnsShape()
    ensures SchemaShape(Columns, DateColumns[0], DateColumns[1], IntColumns, FloatColumns, FlagColumn)
  {
    ColumnsDistinct();
    FixedKinds();
    FloatKinds();
  }

  /** `for c in cols: if c not in df.columns: df[c] = None` */
  method AddMissingColumns(df: Frame, cols: seq<string>)
    requires df.Valid()
    modifies df
    ensures df.Valid() && df.Value() == AddMissing(old(df.Value()), cols)
  {
    ghost var t := df.Value();
    for k := 0 to |cols|
      invariant df.Valid()
      invariant AddMissing(t, cols) == AddMissing(df.Value(), cols[k..])
    {
      assert cols[k..][0] == cols[k] && cols[k..][1..] == cols[k + 1..];
      if !df.Has(cols[k]) {
        df.Assign(cols[k], Fill(df.height, Null(NoneValue)));
      }
    }
  }

  /** `for c in ["VendorID", "PULocationID", "DOLocationID"]`: to numbers, then `astype("Int64")`. */
  method CastIntColumns(g: Frame, ghost t: Table, p: Parsers, ghost cols: seq<Col>, ghost done0: set<Col>, ints: seq<Col>)
    returns (err: Option<Col>, ghost done: set<Col>)
    requires WellFormed(t) && Distinct(cols) && g.Value() == Stage(t, p, cols, done0)
    requires Distinct(ints)
    requires forall c :: c in ints ==> c in cols && KindOf(c) == IntKind && c !in done0
    modifies g
    ensures err == CastFailure(t, p, ints)
    ensures err.None? ==> done == done0 + Elems(ints) && (forall c :: c in done <==> c in done0 || c in ints) && g.Value() == Stage(t, p, cols, done)
  {
    done := done0;
    for k := 0 to |ints|
      invariant g.Value() == Stage(t, p, cols, done)
      invariant done == done0 + Elems(ints[..k])
      invariant CastFailure(t, p, ints) == CastFailure(t, p, ints[k..])
    {
      var c := ints[k];
      assert c !in done;
      StageInput(t, p, cols, done, c);
      var cast := CastColumn(NumericColumn(p, g.Column(Name(c))));
      CastFailureStep(t, p, ints[k..], cast);
      if cast.None? {
        return Some(c), done;
      }
      StageStep(t, p, cols, done, c, cast.value);
      g.Assign(Name(c), cast.value);
      PrefixSet(ints, k);
      done := done + {c};
    }
    assert ints[..|ints|] == ints;
    err := None;
  }

  lemma PrefixSet<T>(s: seq<T>, k: nat)
    requires k < |s|
    ensures Elems(s[..k + 1]) == Elems(s[..k]) + {s[k]}
  {
    assert s[..k + 1] == s[..k] + [s[k]];
  }

  /** One step of the search for the first integer column whose cast raises. */
  lemma CastFailureStep(t: Table, p: Parsers, cs: seq<Col>, cast: Option<seq<Cell>>)
    requires WellFormed(t) && cs != [] && KindOf(cs[0]) == IntKind
    requires cast == CastColumn(NumericColumn(p, Input(t, cs[0])))
    ensures cast == Convert(p, cs[0], Input(t, cs[0]))
    ensures CastFailure(t, p, cs) == if cast.None? then Some(cs[0]) else CastFailure(t, p, cs[1..])
  {
  }

  /** `for c in float_cols: df[c] = pd.to_numeric(df[c], errors="coerce")` */
  method ConvertFloatColumns(g: Frame, ghost t: Table, p: Parsers, ghost cols: seq<Col>, ghost done0: set<Col>, floats: seq<Col>)
    returns (ghost done: set<Col>)
    requires WellFormed(t) && Distinct(cols) && g.Value() == Stage(t, p, cols, done0)
    requires Distinct(floats)
    requires forall c :: c in floats ==> c in cols && KindOf(c) == FloatKind && c !in done0
    modifies g
    ensures done == done0 + Elems(floats) && (forall c :: c in done <==> c in done0 || c in floats) && g.Value() == Stage(t, p, cols, done)
  {
    done := done0;
    for k := 0 to |floats|
      invariant g.Value() == Stage(t, p, cols, done)
      invariant done == done0 + Elems(floats[..k])
    {
      var c := floats[k];
      assert c !in done;
      StageInput(t, p, cols, done, c);
      StageStep(t, p, cols, done, c, NumericColumn(p, g.Column(Name(c))));
      g.Assign(Name(c), NumericColumn(p, g.Column(Name(c))));
      PrefixSet(floats, k);
      done := done + {c};
    }
    assert floats[..|floats|] == floats;
  }

  /** `df[c] = None` for the missing columns, then `df[cols].copy()`: the first stage. */
  method SelectColumns(df: Frame, ghost t: Table, p: Parsers, cols: seq<Col>) returns (g: Frame)
    requires df.Valid() && df.Value() == t && Distinct(cols)
    modifies df
    ensures df.Valid() && df.Value() == AddMissing(t, Names(cols))
    ensures fresh(g) && g.Value() == Stage(t, p, cols, {})
  {
    AddMissingColumns(df, Names(cols));
    SelectIsFirstStage(t, p, cols);
    g := df.Select(Names(cols));
  }

  /** `pd.to_datetime(..., errors="coerce")` of the pickup and drop-off columns. */
  method ParseDates(g: Frame, ghost t: Table, p: Parsers, ghost cols: seq<Col>, pickup: Col, dropoff: Col)
    requires WellFormed(t) && Distinct(cols) && g.Value() == Stage(t, p, cols, {})
    requires pickup in cols && KindOf(pickup) == DateKind && dropoff in cols && KindOf(dropoff) == DateKind && pickup != dropoff
    modifies g
    ensures g.Value() == Stage(t, p, cols, {pickup, dropoff})
  {
    ParseDate(g, t, p, cols, {}, pickup);
    ParseDate(g, t, p, cols, {pickup}, dropoff);
    assert {} + {pickup} + {dropoff} == {pickup, dropoff};
  }

  /** `df[c] = pd.to_datetime(df[c], errors="coerce")` */
  method ParseDate(g: Frame, ghost t: Table, p: Parsers, ghost cols: seq<Col>, ghost done: set<Col>, c: Col)
    requires WellFormed(t) && Distinct(cols) && g.Value() == Stage(t, p, cols, done)
    requires c in cols && KindOf(c) == DateKind && c !in done
    modifies g
    ensures g.Value() == Stage(t, p, cols, done + {c})
  {
    StageInput(t, p, cols, done, c);
    StageStep(t, p, cols, done, c, DatetimeColumn(p, g.Column(Name(c))));
    g.Assign(Name(c), DatetimeColumn(p, g.Column(Name(c))));
  }

  /** The last steps of `prep_df`: the flag becomes a string and every row names its file. */
  method FlagAndSource(g: Frame, ghost t: Table, p: Parsers, ghost cols: seq<Col>, ghost done: set<Col>, flag: Col, file: string)
    requires WellFormed(t) && Distinct(cols) && g.Value() == Stage(t, p, cols, done)
    requires flag in cols && KindOf(flag) == FlagKind && flag !in done
    modifies g
    ensures g.Value() == Normalised(t, p, cols, done + {flag}, file)
  {
    StageInput(t, p, cols, done, flag);
    StageStep(t, p, cols, done, flag, StringColumn(p, g.Column(Name(flag))));
    g.Assign(Name(flag), StringColumn(p, g.Column(Name(flag))));
    g.Assign(SourceColumn, Fill(g.height, Str(file)));
  }

  /**
    The steps of `prep_df` over a schema given as arguments: `cols` in
    order, of which `pickup` and `dropoff` are parsed as timestamps, `ints`
    cast to nullable integers, `floats` made numeric and `flag` made a string.
  */
  method Normalise(df: Frame, file: string, p: Parsers, cols: seq<Col>, pickup: Col, dropoff: Col,
                   ints: seq<Col>, floats: seq<Col>, flag: Col)
    returns (r: Result<Frame, Col>)
    requires df.Valid() && SchemaShape(cols, pickup, dropoff, ints, floats, flag)
    modifies df
    ensures df.Valid() && df.Value() == AddMissing(old(df.Value()), Names(cols))
    ensures r.Failure? <==> CastFailure(old(df.Value()), p, ints).Some?
    ensures r.Failure? ==> CastFailure(old(df.Value()), p, ints) == Some(r.error)
    ensures r.Success? ==> fresh(r.value) && r.value.Value() == Normalised(old(df.Value()), p, cols, Converted(pickup, dropoff, ints, floats, flag), file)
  {
    ghost var t := df.Value();
    var g := SelectColumns(df, t, p, cols);
    ParseDates(g, t, p, cols, pickup, dropoff);
    var err;
    ghost var done;
    err, done := CastIntColumns(g, t, p, cols, {pickup, dropoff}, ints);
    if err.Some? {
      return Failure(err.value);
    }
    done := ConvertFloatColumns(g, t, p, cols, done, floats);
    FlagAndSource(g, t, p, cols, done, flag, file);
    return Success(g);
  }

  /** `prep_df(df, source_file)`; `df` itself gains the kept columns it lacked. */
  method PrepDf(df: Frame, file: string, p: Parsers) returns (r: Result<Frame, Col>)
    requires df.Valid()
    modifies df
    ensures df.Valid() && df.Value() == AddMissing(old(df.Value()), Names(Columns))
    ensures match PrepSpec(old(df.Value()), file, p)
      case Failure(c) => r == Failure(c)
      case Success(u) => r.Success? && fresh(r.value) && r.value.Value() == u
  {
    ColumnsShape();
    r := Normalise(df, file, p, Columns, DateColumns[0], DateColumns[1], IntColumns, FloatColumns, FlagColumn);
  }
}
