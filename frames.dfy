/** Tabular data as the dashboard and the sampling script see it once a file
    has been loaded: a data frame is a set of typed columns and a sequence of
    rows, each row a map from column name to cell. The seven tables of the
    credit-bureau data set are linked by three keys: SK_ID_CURR (the client's
    current application), SK_ID_BUREAU (a credit reported by the bureau) and
    SK_ID_PREV (a previous application). */
module Frames {
  import opened Seqs

  datatype Option<+T> = None | Some(value: T) {
    predicate IsFailure() { None? }
    function PropagateFailure<U>(): Option<U> requires None? { None }
    function Extract(): T requires Some? { value }
  }

  /** A cell: a string, a finite number, an IEEE infinity, a NaN, or Python's None. */
  datatype Value = Str(s: string) | Num(x: real) | PosInf | NegInf | NaN | Null

  /** The dtype family of a column: pandas `object` (strings, mixed) or numeric. */
  datatype Kind = Object | Numeric

  type Row = map<string, Value>

  datatype Frame = Frame(columns: map<string, Kind>, rows: seq<Row>)

  /** The seven tables, in the order the payload lists them. */
  datatype Tables = Tables(
    currentApp: Frame,
    bureau: Frame,
    bureauBalance: Frame,
    previousApplication: Frame,
    posCashBalance: Frame,
    installmentsPayments: Frame,
    creditCardBalance: Frame)

  const SK_ID_CURR := "SK_ID_CURR"
  const SK_ID_BUREAU := "SK_ID_BUREAU"
  const SK_ID_PREV := "SK_ID_PREV"

  /** The cell of `row` in column `col`; a row without that column reads as None. */
  function Cell(row: Row, col: string): Value {
    if col in row then row[col] else Null
  }

  /** The key value a client id is compared against (pandas compares numerically). */
  function Id(clientId: int): Value {
    Num(clientId as real)
  }

  /** pandas `DataFrame.empty`: no rows or no columns. */
  predicate IsEmpty(f: Frame) {
    f.rows == [] || f.columns == map[]
  }

  /** A frame with the given columns and no rows (`pd.DataFrame(columns=...)`). */
  function EmptyFrame(names: seq<string>): (f: Frame)
    ensures f.rows == [] && IsEmpty(f)
    ensures forall c :: c in f.columns <==> c in names
  {
    Frame(map c | c in names :: Object, [])
  }

  /** The mask `df[col] == v`. */
  function ColumnIs(col: string, v: Value): Row -> bool {
    (r: Row) => Cell(r, col) == v
  }

  /** The mask `df[col].isin(keys)`. */
  function ColumnIn(col: string, keys: seq<Value>): Row -> bool {
    (r: Row) => Cell(r, col) in keys
  }

  /** The mask `df[col].isin(keys)` for a Python set of keys. */
  function ColumnInSet(col: string, keys: set<Value>): Row -> bool {
    (r: Row) => Cell(r, col) in keys
  }

  /** `df[mask]`: the same columns, the rows the mask keeps. */
  function Where(f: Frame, keep: Row -> bool): (r: Frame)
    ensures r.columns == f.columns
    ensures IsSubseq(r.rows, f.rows)
    ensures forall row :: row in r.rows <==> row in f.rows && keep(row)
  {
    Frame(f.columns, Filter(f.rows, keep))
  }

  /** `df[df['SK_ID_CURR'] == client_id]`: the client's rows of a table. */
  function ClientRows(f: Frame, clientId: int): (r: Frame)
    ensures r.columns == f.columns
    ensures IsSubseq(r.rows, f.rows)
    ensures forall row :: row in r.rows <==> row in f.rows && Cell(row, SK_ID_CURR) == Id(clientId)
  {
    Where(f, ColumnIs(SK_ID_CURR, Id(clientId)))
  }

  /** The column `col` of `rows`, top to bottom. */
  function ColumnValues(rows: seq<Row>, col: string): (vs: seq<Value>)
    ensures |vs| == |rows|
    ensures forall v :: v in vs <==> exists row :: row in rows && Cell(row, col) == v
  {
    var vs := seq(|rows|, i requires 0 <= i < |rows| => Cell(rows[i], col));
    assert forall row :: row in rows ==> Cell(row, col) in vs by {
      forall row | row in rows ensures Cell(row, col) in vs {
        var i :| 0 <= i < |rows| && rows[i] == row;
        assert vs[i] == Cell(row, col);
      }
    }
    vs
  }

  /** `df[col].unique().tolist()`: each key value of the column once. */
  function UniqueValues(rows: seq<Row>, col: string): (keys: seq<Value>)
    ensures NoDuplicates(keys)
    ensures forall v :: v in keys <==> exists row :: row in rows && Cell(row, col) == v
    ensures keys == [] <==> rows == []
  {
    var keys := Dedup(ColumnValues(rows, col));
    assert rows != [] ==> Cell(rows[0], col) in keys;
    keys
  }

  /** `df[col].unique().tolist()` when the frame has rows and that column, else `[]`. */
  function KeyList(f: Frame, col: string): (keys: seq<Value>)
    ensures NoDuplicates(keys)
    ensures forall v :: v in keys <==> col in f.columns && exists row :: row in f.rows && Cell(row, col) == v
    ensures keys == [] <==> f.rows == [] || col !in f.columns
  {
    if !IsEmpty(f) && col in f.columns then UniqueValues(f.rows, col) else []
  }

  /** `set(df[col])`: the key values of the column, as a set. */
  function ValueSet(rows: seq<Row>, col: string): (keys: set<Value>)
    ensures forall v :: v in keys <==> exists row :: row in rows && Cell(row, col) == v
  {
    set row | row in rows :: Cell(row, col)
  }

  /** Every table has the key column a lookup indexes it by. */
  ghost predicate HasKeyColumns(t: Tables) {
    && SK_ID_CURR in t.currentApp.columns
    && SK_ID_CURR in t.bureau.columns
    && SK_ID_BUREAU in t.bureauBalance.columns
    && SK_ID_CURR in t.previousApplication.columns
    && SK_ID_CURR in t.posCashBalance.columns
    && SK_ID_CURR in t.installmentsPayments.columns
    && SK_ID_CURR in t.creditCardBalance.columns
  }
}
