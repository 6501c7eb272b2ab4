/** The shared helpers of the Parquet dashboard (utils.py): the list of client
    ids, the JSON sanitisation of a frame, the per-client lookup over the
    partitioned tables, and the derived age and employment columns of the
    comparison charts. */
module Utils {
  import opened Seqs
  import opened Frames

  // ---------------------------------------------------------------------
  // load_available_client_ids
  // ---------------------------------------------------------------------

  function IntLess(a: int, b: int): bool {
    a < b
  }

  /** `sorted(df['SK_ID_CURR'].unique().tolist())`, or `[]` when the read
      fails (`column` is None). */
  function LoadAvailableClientIds(column: Option<seq<int>>): (ids: seq<int>)
    ensures column.None? ==> ids == []
    ensures StrictlySorted(ids, IntLess) && NoDuplicates(ids)
    ensures column.Some? ==> forall x :: x in ids <==> x in column.value
  {
    match column
    case None => []
    case Some(c) =>
      var ids := SortedUnique(c, IntLess);
      SortedHasNoDuplicates(ids, IntLess);
      ids
  }

  lemma IntLessIsStrictOrder()
    ensures IsStrictOrder(IntLess)
  {
  }

  /** The id list is the one ascending listing of the distinct ids. */
  lemma ClientIdsAreCanonical(column: seq<int>, listing: seq<int>)
    requires StrictlySorted(listing, IntLess)
    requires forall x :: x in listing <==> x in column
    ensures LoadAvailableClientIds(Some(column)) == listing
  {
    IntLessIsStrictOrder();
    var ids := LoadAvailableClientIds(Some(column));
    assert StrictlySorted(ids, IntLess);
    assert forall x :: x in ids <==> x in listing;
    SortedListIsCanonical(LoadAvailableClientIds(Some(column)), listing, IntLess);
  }

  // ---------------------------------------------------------------------
  // prepare_df_for_json
  // ---------------------------------------------------------------------

  /** A JSON scalar of a record. */
  datatype Json = JStr(s: string) | JNum(x: real) | JNull

  type Record = map<string, Json>

  /** The strings an object column maps to NaN before serialisation. */
  const SENTINELS: seq<string> :=
    ["inf", "-inf", "Infinity", "-Infinity", "NaN", "nan", "None", "null", "NA", "<NA>"]

  /** `str(v)` as `astype(str)` renders a cell; `numText` renders finite floats. */
  function StrForm(v: Value, numText: real -> string): string {
    match v
    case Str(s) => s
    case Num(x) => numText(x)
    case PosInf => "inf"
    case NegInf => "-inf"
    case NaN => "nan"
    case Null => "None"
  }

  /** First rewrite, on object columns: string form, sentinels become NaN. */
  function ObjectStep(v: Value, numText: real -> string): Value {
    var t := StrForm(v, numText);
    if t in SENTINELS then NaN else Str(t)
  }

  /** Second rewrite, on numeric columns: both infinities become NaN. */
  function NumericStep(v: Value): Value {
    if v == PosInf || v == NegInf then NaN else v
  }

  /** Last step, `astype(object).where(pd.notnull(df), None)`. An infinity
      never reaches this step: object columns hold strings or NaN after the
      first rewrite, numeric columns no infinity after the second. */
  function ToJson(v: Value): Json {
    match v
    case Str(s) => JStr(s)
    case Num(x) => JNum(x)
    case _ => JNull
  }

  /** What one cell of a column of kind `kind` becomes in the records. */
  function SanitiseCell(kind: Kind, v: Value, numText: real -> string): Json {
    match kind
    case Object => ToJson(ObjectStep(v, numText))
    case Numeric => ToJson(NumericStep(v))
  }

  /** The record of one row: every column of the frame, sanitised. */
  function SanitiseRow(f: Frame, row: Row, numText: real -> string): Record {
    map c | c in f.columns :: SanitiseCell(f.columns[c], Cell(row, c), numText)
  }

  /** `prepare_df_for_json(df)` as a value: `[]` for None or an empty frame,
      otherwise one record per row. */
  function Records(df: Option<Frame>, numText: real -> string): seq<Record> {
    if df.None? || IsEmpty(df.value) then []
    else seq(|df.value.rows|, i requires 0 <= i < |df.value.rows| => SanitiseRow(df.value, df.value.rows[i], numText))
  }

  /** An object-column cell becomes null exactly when its string form is a
      sentinel, and its string form otherwise. */
  lemma ObjectCellSanitised(v: Value, numText: real -> string)
    ensures SanitiseCell(Object, v, numText) == JNull <==> StrForm(v, numText) in SENTINELS
    ensures StrForm(v, numText) !in SENTINELS ==> SanitiseCell(Object, v, numText) == JStr(StrForm(v, numText))
    ensures v == NaN || v == Null || v == PosInf || v == NegInf ==> SanitiseCell(Object, v, numText) == JNull
  {
  }

  /** A numeric-column cell becomes null exactly when it is an infinity, a NaN
      or None; every finite number is kept as it is. */
  lemma NumericCellSanitised(v: Value, numText: real -> string)
    requires !v.Str?
    ensures SanitiseCell(Numeric, v, numText) == JNull <==> !v.Num?
    ensures v.Num? ==> SanitiseCell(Numeric, v, numText) == JNum(v.x)
  {
  }

  /** One record per row, in row order, each with exactly the frame's columns;
      `[]` for None and for an empty frame. */
  lemma RecordsShape(df: Option<Frame>, numText: real -> string)
    ensures df.None? || IsEmpty(df.value) ==> Records(df, numText) == []
    ensures df.Some? && df.value.columns != map[] ==> |Records(df, numText)| == |df.value.rows|
    ensures df.Some? && !IsEmpty(df.value) ==>
      forall i :: 0 <= i < |df.value.rows| ==>
        Records(df, numText)[i].Keys == df.value.columns.Keys &&
        forall c :: c in df.value.columns ==>
          Records(df, numText)[i][c] == SanitiseCell(df.value.columns[c], Cell(df.value.rows[i], c), numText)
  {
  }

  /** Reads serialised records back as a frame with the same columns. */
  function Reload(columns: map<string, Kind>, records: seq<Record>): Frame {
    Frame(columns, seq(|records|, i requires 0 <= i < |records| =>
      map c | c in records[i] :: FromJson(records[i][c])))
  }

  function FromJson(j: Json): Value {
    match j
    case JStr(s) => Str(s)
    case JNum(x) => Num(x)
    case JNull => Null
  }

  /** Sanitising is idempotent: a cell that has been sanitised comes out of a
      second pass unchanged. */
  lemma SanitiseCellIdempotent(kind: Kind, v: Value, numText: real -> string)
    ensures SanitiseCell(kind, FromJson(SanitiseCell(kind, v, numText)), numText) == SanitiseCell(kind, v, numText)
  {
    assert "None" in SENTINELS;
  }

  /** Sanitising a whole frame is idempotent. */
  lemma RecordsIdempotent(f: Frame, numText: real -> string)
    ensures Records(Some(Reload(f.columns, Records(Some(f), numText))), numText) == Records(Some(f), numText)
  {
    if !IsEmpty(f) {
      var out := Records(Some(f), numText);
      var g := Reload(f.columns, out);
      assert |g.rows| == |f.rows| && !IsEmpty(g);
      forall i | 0 <= i < |f.rows| ensures SanitiseRow(g, g.rows[i], numText) == out[i] {
        forall c | c in f.columns ensures SanitiseRow(g, g.rows[i], numText)[c] == out[i][c] {
          assert Cell(g.rows[i], c) == FromJson(out[i][c]);
          SanitiseCellIdempotent(f.columns[c], Cell(f.rows[i], c), numText);
        }
      }
    }
  }

  /** No string left in an object column of the output is a sentinel. */
  lemma NoSentinelInObjectColumns(f: Frame, numText: real -> string, i: nat, c: string)
    requires !IsEmpty(f) && i < |f.rows|
    requires c in f.columns && f.columns[c] == Object
    ensures Records(Some(f), numText)[i][c].JStr? ==> Records(Some(f), numText)[i][c].s !in SENTINELS
  {
  }

  function ObjectColumns(f: Frame): set<string> {
    set c | c in f.columns && f.columns[c] == Object
  }

  function NumericColumns(f: Frame): set<string> {
    set c | c in f.columns && f.columns[c] == Numeric
  }

  /** `df[cols] = df[cols].replace([np.inf, -np.inf], np.nan)` on one row. */
  function ReplaceInfinities(row: Row, cols: set<string>): (r: Row)
    ensures forall k :: Cell(r, k) == if k in cols then NumericStep(Cell(row, k)) else Cell(row, k)
  {
    map k | k in row.Keys + cols :: if k in cols then NumericStep(Cell(row, k)) else row[k]
  }

  /** prepare_df_for_json: rewrites a copy of the frame one object column at a
      time, then all numeric columns at once, then converts each row to a record. */
  method PrepareDfForJson(dfOrig: Option<Frame>, numText: real -> string) returns (records: seq<Record>)
    ensures records == Records(dfOrig, numText)
  {
    if dfOrig.None? || IsEmpty(dfOrig.value) {
      return [];
    }
    var df := dfOrig.value;
    var rows := df.rows;
    var pending := ObjectColumns(df);
    ghost var done: set<string> := {};
    while pending != {}
      invariant done + pending == ObjectColumns(df) && done !! pending
      invariant |rows| == |df.rows|
      invariant forall i, k :: 0 <= i < |rows| ==>
        Cell(rows[i], k) == if k in done then ObjectStep(Cell(df.rows[i], k), numText) else Cell(df.rows[i], k)
      decreases pending
    {
      var c :| c in pending;
      ghost var before := rows;
      rows := seq(|rows|, i requires 0 <= i < |rows| => rows[i][c := ObjectStep(Cell(rows[i], c), numText)]);
      forall i, k | 0 <= i < |rows|
        ensures Cell(rows[i], k) ==
          if k in done + {c} then ObjectStep(Cell(df.rows[i], k), numText) else Cell(df.rows[i], k)
      {
        assert Cell(rows[i], k) == if k == c then ObjectStep(Cell(before[i], c), numText) else Cell(before[i], k);
        assert Cell(before[i], k) == if k in done then ObjectStep(Cell(df.rows[i], k), numText) else Cell(df.rows[i], k);
      }
      done := done + {c};
      pending := pending - {c};
    }
    var numericCols := NumericColumns(df);
    ghost var objectDone := rows;
    if numericCols != {} {
      rows := seq(|rows|, i requires 0 <= i < |rows| => ReplaceInfinities(rows[i], numericCols));
    }
    assert forall i, k :: 0 <= i < |rows| ==>
      Cell(rows[i], k) == if k in numericCols then NumericStep(Cell(objectDone[i], k)) else Cell(objectDone[i], k);
    records := seq(|rows|, i requires 0 <= i < |rows| => map c | c in df.columns :: ToJson(Cell(rows[i], c)));
    forall i | 0 <= i < |rows| ensures records[i] == SanitiseRow(df, df.rows[i], numText) {
      forall c | c in df.columns ensures records[i][c] == SanitiseRow(df, df.rows[i], numText)[c] {
        assert records[i][c] == ToJson(Cell(rows[i], c));
        match df.columns[c]
        case Object =>
          assert c in ObjectColumns(df) && c !in numericCols;
          assert Cell(objectDone[i], c) == ObjectStep(Cell(df.rows[i], c), numText);
          assert Cell(rows[i], c) == ObjectStep(Cell(df.rows[i], c), numText);
        case Numeric =>
          assert c !in ObjectColumns(df) && c in numericCols;
          assert Cell(objectDone[i], c) == Cell(df.rows[i], c);
          assert Cell(rows[i], c) == NumericStep(Cell(df.rows[i], c));
      }
    }
  }

  // ---------------------------------------------------------------------
  // get_data_for_client (Parquet)
  // ---------------------------------------------------------------------

  type Payload = map<string, seq<Record>>

  /** What the lookup returns: the API payload and the client's application rows. */
  datatype ClientData = ClientData(payload: Payload, main: Frame)

  /** The JSON payload of seven client tables, one entry per table. */
  function PayloadOf(t: Tables, numText: real -> string): (p: Payload)
    ensures p.Keys == {"current_app", "bureau", "bureau_balance", "previous_application",
                       "POS_CASH_balance", "installments_payments", "credit_card_balance"}
  {
    map[
      "current_app" := Records(Some(t.currentApp), numText),
      "bureau" := Records(Some(t.bureau), numText),
      "bureau_balance" := Records(Some(t.bureauBalance), numText),
      "previous_application" := Records(Some(t.previousApplication), numText),
      "POS_CASH_balance" := Records(Some(t.posCashBalance), numText),
      "installments_payments" := Records(Some(t.installmentsPayments), numText),
      "credit_card_balance" := Records(Some(t.creditCardBalance), numText)]
  }

  /** The lookup gets past every step: each key column a mask or a read
      filter indexes is there (a missing one raises), and some application
      row has the client's id. Both dashboard variants index the same columns
      under the same conditions, so this is the success condition of both. */
  predicate LookupSucceeds(t: Tables, clientId: int) {
    && SK_ID_CURR in t.currentApp.columns
    && ClientRows(t.currentApp, clientId).rows != []
    && SK_ID_CURR in t.bureau.columns
    && (KeyList(ClientRows(t.bureau, clientId), SK_ID_BUREAU) != [] ==> SK_ID_BUREAU in t.bureauBalance.columns)
    && SK_ID_CURR in t.previousApplication.columns
    && SK_ID_CURR in t.posCashBalance.columns
    && SK_ID_CURR in t.installmentsPayments.columns
    && SK_ID_CURR in t.creditCardBalance.columns
  }

  /** The client's bureau keys: those of the client's bureau rows. */
  function BureauKeys(t: Tables, clientId: int): seq<Value> {
    KeyList(ClientRows(t.bureau, clientId), SK_ID_BUREAU)
  }

  /** bureau_balance read with the filter `SK_ID_BUREAU in bureau_ids`, or a
      frame without columns (`pd.DataFrame()`) when the client has no bureau key. */
  function BureauBalanceParquet(t: Tables, clientId: int): Frame {
    var keys := BureauKeys(t, clientId);
    if keys != [] then Where(t.bureauBalance, ColumnIn(SK_ID_BUREAU, keys)) else Frame(map[], [])
  }

  /** The client's rows of every table, as the partitioned reads return them;
      None where the dashboard returns `(None, None)`. */
  function ClientTablesParquet(t: Tables, clientId: int): Option<Tables> {
    if LookupSucceeds(t, clientId) then
      Some(Tables(
        ClientRows(t.currentApp, clientId),
        ClientRows(t.bureau, clientId),
        BureauBalanceParquet(t, clientId),
        ClientRows(t.previousApplication, clientId),
        ClientRows(t.posCashBalance, clientId),
        ClientRows(t.installmentsPayments, clientId),
        ClientRows(t.creditCardBalance, clientId)))
    else None
  }

  /** get_data_for_client (utils.py): None when the lookup fails, otherwise
      the seven-entry payload and the client's application rows. */
  function GetDataForClient(t: Tables, clientId: int, numText: real -> string): (r: Option<ClientData>)
    ensures r.Some? <==> LookupSucceeds(t, clientId)
    ensures r.Some? ==>
      && r.value.main.rows != []
      && (forall row :: row in r.value.main.rows <==> row in t.currentApp.rows && Cell(row, SK_ID_CURR) == Id(clientId))
      && r.value.main == ClientTablesParquet(t, clientId).value.currentApp
      && r.value.payload.Keys == {"current_app", "bureau", "bureau_balance", "previous_application",
                                  "POS_CASH_balance", "installments_payments", "credit_card_balance"}
      && r.value.payload == PayloadOf(ClientTablesParquet(t, clientId).value, numText)
  {
    match ClientTablesParquet(t, clientId)
    case None => None
    case Some(c) => Some(ClientData(PayloadOf(c, numText), c.currentApp))
  }

  /** `rows` holds exactly the rows of `source` that `keep` accepts, unchanged,
      in order and as many times as they occur there. */
  ghost predicate KeptExactly(rows: seq<Row>, source: seq<Row>, keep: Row -> bool) {
    && IsSubseq(rows, source)
    && (forall r :: r in rows <==> r in source && keep(r))
    && (forall r :: multiset(rows)[r] == if keep(r) then multiset(source)[r] else 0)
  }

  /** A mask selection keeps exactly the rows of any predicate that agrees
      with the mask on the frame's rows. */
  lemma WhereKeptExactly(f: Frame, keep: Row -> bool, spec: Row -> bool)
    requires forall r :: r in f.rows ==> (keep(r) <==> spec(r))
    ensures KeptExactly(Where(f, keep).rows, f.rows, spec)
  {
    FilterCounts(f.rows, keep);
  }

  /** A bureau_balance row belongs to the client when its bureau key is the key
      of one of the client's bureau rows. */
  ghost predicate BureauLinked(t: Tables, clientId: int, r: Row) {
    SK_ID_BUREAU in t.bureau.columns &&
    exists b :: b in t.bureau.rows && Cell(b, SK_ID_CURR) == Id(clientId) && Cell(b, SK_ID_BUREAU) == Cell(r, SK_ID_BUREAU)
  }

  ghost function BureauLinkedMask(t: Tables, clientId: int): Row -> bool {
    r => BureauLinked(t, clientId, r)
  }

  /** Selecting bureau_balance by the client's bureau keys keeps exactly the
      rows linked to the client; without keys no row is linked. */
  lemma BureauKeySelection(t: Tables, clientId: int)
    ensures KeptExactly(Where(t.bureauBalance, ColumnIn(SK_ID_BUREAU, BureauKeys(t, clientId))).rows,
                        t.bureauBalance.rows, BureauLinkedMask(t, clientId))
    ensures BureauKeys(t, clientId) == [] <==> forall r :: !BureauLinked(t, clientId, r)
  {
    var bureau := ClientRows(t.bureau, clientId);
    var keep := ColumnIn(SK_ID_BUREAU, BureauKeys(t, clientId));
    forall r | r in t.bureauBalance.rows ensures keep(r) <==> BureauLinkedMask(t, clientId)(r) {
      if BureauLinked(t, clientId, r) {
        var b :| b in t.bureau.rows && Cell(b, SK_ID_CURR) == Id(clientId) && Cell(b, SK_ID_BUREAU) == Cell(r, SK_ID_BUREAU);
        assert b in bureau.rows;
      }
    }
    WhereKeptExactly(t.bureauBalance, keep, BureauLinkedMask(t, clientId));
    if BureauKeys(t, clientId) != [] {
      var b := bureau.rows[0];
      assert b in bureau.rows;
      assert BureauLinked(t, clientId, map[SK_ID_BUREAU := Cell(b, SK_ID_BUREAU)]);
    }
  }

  /** The lookup fails when no application row has the client's id; with every
      key column present, that is the only way it fails. */
  lemma ParquetFound(t: Tables, clientId: int)
    ensures (forall r :: r in t.currentApp.rows ==> Cell(r, SK_ID_CURR) != Id(clientId))
            ==> ClientTablesParquet(t, clientId).None?
    ensures HasKeyColumns(t) ==>
      (ClientTablesParquet(t, clientId).Some? <==> exists r :: r in t.currentApp.rows && Cell(r, SK_ID_CURR) == Id(clientId))
  {
    var app := ClientRows(t.currentApp, clientId);
    HeadIsElement(app.rows);
  }

  /** Every table but bureau_balance holds exactly the rows with the client's
      SK_ID_CURR; bureau_balance holds exactly the rows linked through the
      client's bureau keys, and nothing when the client has no bureau row. */
  lemma ParquetSelections(t: Tables, clientId: int)
    requires ClientTablesParquet(t, clientId).Some?
    ensures var c := ClientTablesParquet(t, clientId).value;
      && c.currentApp.rows != []
      && KeptExactly(c.currentApp.rows, t.currentApp.rows, ColumnIs(SK_ID_CURR, Id(clientId)))
      && KeptExactly(c.bureau.rows, t.bureau.rows, ColumnIs(SK_ID_CURR, Id(clientId)))
      && KeptExactly(c.bureauBalance.rows, t.bureauBalance.rows, BureauLinkedMask(t, clientId))
      && KeptExactly(c.previousApplication.rows, t.previousApplication.rows, ColumnIs(SK_ID_CURR, Id(clientId)))
      && KeptExactly(c.posCashBalance.rows, t.posCashBalance.rows, ColumnIs(SK_ID_CURR, Id(clientId)))
      && KeptExactly(c.installmentsPayments.rows, t.installmentsPayments.rows, ColumnIs(SK_ID_CURR, Id(clientId)))
      && KeptExactly(c.creditCardBalance.rows, t.creditCardBalance.rows, ColumnIs(SK_ID_CURR, Id(clientId)))
      && (c.bureau.rows == [] ==> c.bureauBalance.rows == [])
  {
    BureauKeySelection(t, clientId);
    var byClient := ColumnIs(SK_ID_CURR, Id(clientId));
    WhereKeptExactly(t.currentApp, byClient, byClient);
    WhereKeptExactly(t.bureau, byClient, byClient);
    WhereKeptExactly(t.previousApplication, byClient, byClient);
    WhereKeptExactly(t.posCashBalance, byClient, byClient);
    WhereKeptExactly(t.installmentsPayments, byClient, byClient);
    WhereKeptExactly(t.creditCardBalance, byClient, byClient);
  }

  // ---------------------------------------------------------------------
  // load_all_clients_data: derived columns of the comparison charts
  // ---------------------------------------------------------------------

  const AGE_YEARS := "AGE_ANNÉES"
  const EMPLOYMENT_YEARS := "ANNÉES_EMPLOI"
  const DAYS_BIRTH := "DAYS_BIRTH"
  const DAYS_EMPLOYED := "DAYS_EMPLOYED"
  const AGE_CAP := 100
  const EMPLOYMENT_CAP := 80

  function Abs(x: real): real {
    if x < 0.0 then -x else x
  }

  /** Python's `x // 365` on a float: the floor of the quotient. */
  function FloorDiv365(x: real): int {
    (x / 365.0).Floor
  }

  /** On whole and fractional day counts alike, `x // 365` is the integer
      floor division of the day count's floor. */
  lemma FloorDiv365IsIntDivision(x: real)
    ensures FloorDiv365(x) == x.Floor / 365
  {
    var f := x.Floor;
    var q, r := f / 365, f % 365;
    assert f == 365 * q + r && 0 <= r < 365;
    assert (365 * q) as real <= x < (365 * q + 365) as real;
    assert q as real <= x / 365.0 < (q + 1) as real;
  }

  /** `df['DAYS_x'].abs() // 365`: whole years of a day count. */
  function ChartYears(x: real): nat {
    FloorDiv365(Abs(x))
  }

  /** First assignment: the years column; a missing or infinite day count gives NaN. */
  function YearsCell(days: Value): Value {
    match days
    case Num(x) => Num(ChartYears(x) as real)
    case _ => NaN
  }

  /** The mask `df[col] > cap`. */
  predicate Exceeds(v: Value, cap: nat) {
    v.Num? && v.x > cap as real
  }

  /** A derived column's final cell: whole years, or NaN above the cap. */
  function CappedYears(days: Value, cap: nat): (r: Value)
    ensures r == NaN || (r.Num? && 0.0 <= r.x <= cap as real && r.x == r.x.Floor as real)
    ensures days.Num? && ChartYears(days.x) <= cap ==> r == Num(ChartYears(days.x) as real)
    ensures !days.Num? || ChartYears(days.x) > cap ==> r == NaN
  {
    var y := YearsCell(days);
    if Exceeds(y, cap) then NaN else y
  }

  /** Some cell of the column is text, on which `abs()` raises. */
  predicate HasText(rows: seq<Row>, col: string) {
    exists i :: 0 <= i < |rows| && Cell(rows[i], col).Str?
  }

  /** A loaded day column holds text: the derivation raises and the function
      returns an empty frame. */
  predicate ComparisonFails(df: Frame) {
    (DAYS_BIRTH in df.columns && HasText(df.rows, DAYS_BIRTH)) ||
    (DAYS_EMPLOYED in df.columns && HasText(df.rows, DAYS_EMPLOYED))
  }

  /** The derived-column logic of load_all_clients_data: each derived column is
      assigned to a copy, then masked to NaN above its cap. Columns are added
      only when their day column was loaded. */
  method AddComparisonColumns(df: Frame) returns (out: Frame)
    ensures ComparisonFails(df) ==> out == Frame(map[], [])
    ensures !ComparisonFails(df) ==> |out.rows| == |df.rows|
    ensures !ComparisonFails(df) ==> (out.columns.Keys == df.columns.Keys
      + (if DAYS_BIRTH in df.columns then {AGE_YEARS} else {})
      + (if DAYS_EMPLOYED in df.columns then {EMPLOYMENT_YEARS} else {}))
    ensures !ComparisonFails(df) ==> forall i, k :: 0 <= i < |df.rows| ==>
      Cell(out.rows[i], k) ==
        if k == AGE_YEARS && DAYS_BIRTH in df.columns then CappedYears(Cell(df.rows[i], DAYS_BIRTH), AGE_CAP)
        else if k == EMPLOYMENT_YEARS && DAYS_EMPLOYED in df.columns then CappedYears(Cell(df.rows[i], DAYS_EMPLOYED), EMPLOYMENT_CAP)
        else Cell(df.rows[i], k)
  {
    if ComparisonFails(df) {
      return Frame(map[], []);
    }
    var rows := df.rows;
    var cols := df.columns;
    if DAYS_BIRTH in cols {
      rows := seq(|rows|, i requires 0 <= i < |rows| => rows[i][AGE_YEARS := YearsCell(Cell(rows[i], DAYS_BIRTH))]);
      rows := seq(|rows|, i requires 0 <= i < |rows| =>
        if Exceeds(Cell(rows[i], AGE_YEARS), AGE_CAP) then rows[i][AGE_YEARS := NaN] else rows[i]);
      cols := cols[AGE_YEARS := Numeric];
    }
    if DAYS_EMPLOYED in cols {
      rows := seq(|rows|, i requires 0 <= i < |rows| => rows[i][EMPLOYMENT_YEARS := YearsCell(Cell(rows[i], DAYS_EMPLOYED))]);
      rows := seq(|rows|, i requires 0 <= i < |rows| =>
        if Exceeds(Cell(rows[i], EMPLOYMENT_YEARS), EMPLOYMENT_CAP) then rows[i][EMPLOYMENT_YEARS := NaN] else rows[i]);
      cols := cols[EMPLOYMENT_YEARS := Numeric];
    }
    out := Frame(cols, rows);
  }
}
