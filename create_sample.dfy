/** The sampling script (create_sample.py): draw a tenth of the clients,
    keep every row of the other six tables related to a drawn client, and
    write the seven smaller tables one after the other. */
module CreateSample {
  import opened Seqs
  import opened Frames
  import Utils
  import StreamlitApp

  /** The positions `app_df.sample(...)` draws: distinct rows of the
      application table, in the draw's order. The random choice itself is
      the parameter. */
  predicate ValidDraw(draw: seq<nat>, n: nat) {
    && (forall j :: 0 <= j < |draw| ==> draw[j] < n)
    && (forall j, k :: 0 <= j < k < |draw| ==> draw[j] != draw[k])
  }

  /** `sampled_app_df`: the drawn application rows, every column kept. */
  function SampledApp(app: Frame, draw: seq<nat>): (s: Frame)
    requires ValidDraw(draw, |app.rows|)
    ensures s.columns == app.columns && |s.rows| == |draw|
    ensures forall j :: 0 <= j < |draw| ==> s.rows[j] == app.rows[draw[j]]
    ensures forall row :: row in s.rows ==> row in app.rows
  {
    Frame(app.columns, seq(|draw|, j requires 0 <= j < |draw| => app.rows[draw[j]]))
  }

  /** `sample_client_ids = set(sampled_app_df['SK_ID_CURR'])`. */
  function SampleClientIds(t: Tables, draw: seq<nat>): set<Value>
    requires ValidDraw(draw, |t.currentApp.rows|)
  {
    ValueSet(SampledApp(t.currentApp, draw).rows, SK_ID_CURR)
  }

  /** `related_bureau_df` and `related_prev_app_df`: rows whose SK_ID_CURR was drawn. */
  function RelatedRows(f: Frame, ids: set<Value>): Frame {
    Where(f, ColumnInSet(SK_ID_CURR, ids))
  }

  /** The mask `df['SK_ID_CURR'].isin(ids) | df['SK_ID_PREV'].isin(prevIds)`. */
  function CurrOrPrevIn(ids: set<Value>, prevIds: set<Value>): Row -> bool {
    (r: Row) => Cell(r, SK_ID_CURR) in ids || Cell(r, SK_ID_PREV) in prevIds
  }

  /** The seven sampled tables. */
  function SampleTables(t: Tables, draw: seq<nat>): Tables
    requires ValidDraw(draw, |t.currentApp.rows|)
  {
    var ids := SampleClientIds(t, draw);
    var bureau := RelatedRows(t.bureau, ids);
    var prev := RelatedRows(t.previousApplication, ids);
    var bureauIds := ValueSet(bureau.rows, SK_ID_BUREAU);
    var prevIds := ValueSet(prev.rows, SK_ID_PREV);
    Tables(
      SampledApp(t.currentApp, draw),
      bureau,
      Where(t.bureauBalance, ColumnInSet(SK_ID_BUREAU, bureauIds)),
      prev,
      Where(t.posCashBalance, CurrOrPrevIn(ids, prevIds)),
      Where(t.installmentsPayments, CurrOrPrevIn(ids, prevIds)),
      Where(t.creditCardBalance, CurrOrPrevIn(ids, prevIds)))
  }

  /** The files the script writes, in the order it writes them. */
  function SampleOutputs(t: Tables, draw: seq<nat>): (out: seq<(string, Frame)>)
    requires ValidDraw(draw, |t.currentApp.rows|)
    ensures |out| == 7
  {
    var s := SampleTables(t, draw);
    [("application_test.csv", s.currentApp), ("bureau.csv", s.bureau),
     ("previous_application.csv", s.previousApplication), ("POS_CASH_balance.csv", s.posCashBalance),
     ("installments_payments.csv", s.installmentsPayments), ("credit_card_balance.csv", s.creditCardBalance),
     ("bureau_balance.csv", s.bureauBalance)]
  }

  /** A table the loop filters needs both SK_ID_CURR and SK_ID_PREV. */
  predicate HasLinkKeys(f: Frame) {
    SK_ID_CURR in f.columns && SK_ID_PREV in f.columns
  }

  /** How many files are written before the first KeyError stops the script. */
  function WrittenCount(t: Tables): (n: nat)
    ensures n <= 7
    ensures n == 7 <==>
      && SK_ID_CURR in t.currentApp.columns
      && SK_ID_CURR in t.bureau.columns && SK_ID_BUREAU in t.bureau.columns
      && HasLinkKeys(t.previousApplication)
      && HasLinkKeys(t.posCashBalance) && HasLinkKeys(t.installmentsPayments) && HasLinkKeys(t.creditCardBalance)
      && SK_ID_BUREAU in t.bureauBalance.columns
  {
    if SK_ID_CURR !in t.currentApp.columns then 0
    else if !(SK_ID_CURR in t.bureau.columns && SK_ID_BUREAU in t.bureau.columns && HasLinkKeys(t.previousApplication)) then 1
    else if !HasLinkKeys(t.posCashBalance) then 3
    else if !HasLinkKeys(t.installmentsPayments) then 4
    else if !HasLinkKeys(t.creditCardBalance) then 5
    else if SK_ID_BUREAU !in t.bureauBalance.columns then 6
    else 7
  }

  /** The script: each output is computed and written in turn; a key column
      missing from a table it indexes stops it with the files so far written. */
  method BuildSample(t: Tables, draw: seq<nat>) returns (written: seq<(string, Frame)>)
    requires ValidDraw(draw, |t.currentApp.rows|)
    ensures written == SampleOutputs(t, draw)[..WrittenCount(t)]
  {
    ghost var outputs := SampleOutputs(t, draw);
    written := [];
    var app := SampledApp(t.currentApp, draw);
    if SK_ID_CURR !in app.columns {
      return;
    }
    var ids := ValueSet(app.rows, SK_ID_CURR);
    written := written + [("application_test.csv", app)];
    if !(SK_ID_CURR in t.bureau.columns && SK_ID_BUREAU in t.bureau.columns && HasLinkKeys(t.previousApplication)) {
      return;
    }
    var bureau := RelatedRows(t.bureau, ids);
    var bureauIds := ValueSet(bureau.rows, SK_ID_BUREAU);
    var prev := RelatedRows(t.previousApplication, ids);
    var prevIds := ValueSet(prev.rows, SK_ID_PREV);
    written := written + [("bureau.csv", bureau), ("previous_application.csv", prev)];
    var toFilter := [("POS_CASH_balance.csv", t.posCashBalance), ("installments_payments.csv", t.installmentsPayments),
                     ("credit_card_balance.csv", t.creditCardBalance)];
    var i := 0;
    while i < |toFilter|
      invariant 0 <= i <= |toFilter|
      invariant forall j :: 0 <= j < i ==> HasLinkKeys(toFilter[j].1)
      invariant written == outputs[..3 + i]
    {
      var df := toFilter[i].1;
      if !HasLinkKeys(df) {
        assert HasLinkKeys(toFilter[0].1) ==> HasLinkKeys(t.posCashBalance);
        assert i == 2 ==> HasLinkKeys(toFilter[1].1);
        assert WrittenCount(t) == 3 + i;
        return;
      }
      written := written + [(toFilter[i].0, Where(df, CurrOrPrevIn(ids, prevIds)))];
      i := i + 1;
    }
    assert HasLinkKeys(toFilter[0].1) && HasLinkKeys(toFilter[1].1) && HasLinkKeys(toFilter[2].1);
    if SK_ID_BUREAU !in t.bureauBalance.columns {
      return;
    }
    written := written + [("bureau_balance.csv", Where(t.bureauBalance, ColumnInSet(SK_ID_BUREAU, bureauIds)))];
  }

  /** A bureau_balance row whose bureau key is that of a row of `bureau`. */
  ghost function SharesBureauKey(bureau: Frame): Row -> bool {
    r => exists b :: b in bureau.rows && Cell(b, SK_ID_BUREAU) == Cell(r, SK_ID_BUREAU)
  }

  /** A row of a drawn client, or linked to a row of `prev` by its SK_ID_PREV. */
  ghost function DrawnOrSharesPrevKey(ids: set<Value>, prev: Frame): Row -> bool {
    r => Cell(r, SK_ID_CURR) in ids || exists p :: p in prev.rows && Cell(p, SK_ID_PREV) == Cell(r, SK_ID_PREV)
  }

  /** What the sampled tables hold: the sample ids are the ids of the drawn
      rows; bureau and previous applications keep exactly the rows of drawn
      clients; bureau_balance keeps the rows whose bureau key is that of a
      kept bureau row; the loop's tables keep the rows of a drawn client or
      linked to a kept previous application. Every table keeps rows unchanged
      and in the source order. */
  lemma SampleSelections(t: Tables, draw: seq<nat>)
    requires ValidDraw(draw, |t.currentApp.rows|)
    ensures var s, ids := SampleTables(t, draw), SampleClientIds(t, draw);
      && (forall v :: v in ids <==> exists j :: 0 <= j < |draw| && Cell(t.currentApp.rows[draw[j]], SK_ID_CURR) == v)
      && Utils.KeptExactly(s.bureau.rows, t.bureau.rows, ColumnInSet(SK_ID_CURR, ids))
      && Utils.KeptExactly(s.previousApplication.rows, t.previousApplication.rows, ColumnInSet(SK_ID_CURR, ids))
      && Utils.KeptExactly(s.bureauBalance.rows, t.bureauBalance.rows, SharesBureauKey(s.bureau))
      && Utils.KeptExactly(s.posCashBalance.rows, t.posCashBalance.rows, DrawnOrSharesPrevKey(ids, s.previousApplication))
      && Utils.KeptExactly(s.installmentsPayments.rows, t.installmentsPayments.rows, DrawnOrSharesPrevKey(ids, s.previousApplication))
      && Utils.KeptExactly(s.creditCardBalance.rows, t.creditCardBalance.rows, DrawnOrSharesPrevKey(ids, s.previousApplication))
  {
    var s, ids := SampleTables(t, draw), SampleClientIds(t, draw);
    var prevIds := ValueSet(s.previousApplication.rows, SK_ID_PREV);
    Utils.WhereKeptExactly(t.bureau, ColumnInSet(SK_ID_CURR, ids), ColumnInSet(SK_ID_CURR, ids));
    Utils.WhereKeptExactly(t.previousApplication, ColumnInSet(SK_ID_CURR, ids), ColumnInSet(SK_ID_CURR, ids));
    Utils.WhereKeptExactly(t.bureauBalance, ColumnInSet(SK_ID_BUREAU, ValueSet(s.bureau.rows, SK_ID_BUREAU)), SharesBureauKey(s.bureau));
    Utils.WhereKeptExactly(t.posCashBalance, CurrOrPrevIn(ids, prevIds), DrawnOrSharesPrevKey(ids, s.previousApplication));
    Utils.WhereKeptExactly(t.installmentsPayments, CurrOrPrevIn(ids, prevIds), DrawnOrSharesPrevKey(ids, s.previousApplication));
    Utils.WhereKeptExactly(t.creditCardBalance, CurrOrPrevIn(ids, prevIds), DrawnOrSharesPrevKey(ids, s.previousApplication));
    var app := SampledApp(t.currentApp, draw);
    forall v ensures v in SampleClientIds(t, draw) <==> exists j :: 0 <= j < |draw| && Cell(t.currentApp.rows[draw[j]], SK_ID_CURR) == v {
      if v in SampleClientIds(t, draw) {
        var row :| row in app.rows && Cell(row, SK_ID_CURR) == v;
        var j :| 0 <= j < |app.rows| && app.rows[j] == row;
        assert Cell(t.currentApp.rows[draw[j]], SK_ID_CURR) == v;
      }
      if exists j :: 0 <= j < |draw| && Cell(t.currentApp.rows[draw[j]], SK_ID_CURR) == v {
        var j :| 0 <= j < |draw| && Cell(t.currentApp.rows[draw[j]], SK_ID_CURR) == v;
        assert app.rows[j] in app.rows;
      }
    }
  }

  /** The application table has at most one row with the client's id. */
  ghost predicate UniqueClient(app: Frame, clientId: int) {
    forall i, j ::
      0 <= i < |app.rows| && 0 <= j < |app.rows| &&
      Cell(app.rows[i], SK_ID_CURR) == Id(clientId) && Cell(app.rows[j], SK_ID_CURR) == Id(clientId)
      ==> i == j
  }

  /** A drawn client's application row is the one in the sample. */
  lemma SampledClientRow(t: Tables, draw: seq<nat>, clientId: int)
    requires ValidDraw(draw, |t.currentApp.rows|)
    requires Id(clientId) in SampleClientIds(t, draw) && UniqueClient(t.currentApp, clientId)
    ensures ClientRows(SampledApp(t.currentApp, draw), clientId) == ClientRows(t.currentApp, clientId)
  {
    var app := t.currentApp;
    var s := SampledApp(app, draw);
    var mask := ColumnIs(SK_ID_CURR, Id(clientId));
    var row :| row in s.rows && Cell(row, SK_ID_CURR) == Id(clientId);
    var j :| 0 <= j < |s.rows| && s.rows[j] == row;
    FilterSingle(app.rows, mask, draw[j]);
    forall k | 0 <= k < |s.rows| && k != j ensures !mask(s.rows[k]) {
      assert s.rows[k] == app.rows[draw[k]] && draw[k] != draw[j];
    }
    FilterSingle(s.rows, mask, j);
  }

  /** The sample is closed under the per-client lookup: for a drawn client
      whose id is a key of the application table, the CSV dashboard's lookup
      over the sampled tables returns exactly what it returns over the full
      tables, and so does the Parquet dashboard's. */
  lemma SampleIsClosed(t: Tables, draw: seq<nat>, clientId: int)
    requires ValidDraw(draw, |t.currentApp.rows|)
    requires Id(clientId) in SampleClientIds(t, draw) && UniqueClient(t.currentApp, clientId)
    ensures StreamlitApp.ClientTablesCsv(SampleTables(t, draw), clientId) == StreamlitApp.ClientTablesCsv(t, clientId)
    ensures Utils.ClientTablesParquet(SampleTables(t, draw), clientId) == Utils.ClientTablesParquet(t, clientId)
  {
    var s := SampleTables(t, draw);
    var ids := SampleClientIds(t, draw);
    var byClient := ColumnIs(SK_ID_CURR, Id(clientId));
    var bySample := ColumnInSet(SK_ID_CURR, ids);
    SampledClientRow(t, draw, clientId);
    FilterOfFilter(t.bureau.rows, byClient, bySample);
    FilterOfFilter(t.previousApplication.rows, byClient, bySample);
    assert ClientRows(s.bureau, clientId) == ClientRows(t.bureau, clientId);
    assert ClientRows(s.previousApplication, clientId) == ClientRows(t.previousApplication, clientId);

    var bureauKeys := Utils.BureauKeys(t, clientId);
    var bureauIds := ValueSet(s.bureau.rows, SK_ID_BUREAU);
    forall r | r in t.bureauBalance.rows && ColumnIn(SK_ID_BUREAU, bureauKeys)(r)
      ensures ColumnInSet(SK_ID_BUREAU, bureauIds)(r)
    {
      var b :| b in ClientRows(t.bureau, clientId).rows && Cell(b, SK_ID_BUREAU) == Cell(r, SK_ID_BUREAU);
      assert b in s.bureau.rows;
    }
    FilterOfFilter(t.bureauBalance.rows, ColumnIn(SK_ID_BUREAU, bureauKeys), ColumnInSet(SK_ID_BUREAU, bureauIds));
    assert StreamlitApp.BureauBalanceCsv(s, clientId) == StreamlitApp.BureauBalanceCsv(t, clientId);
    assert Utils.BureauBalanceParquet(s, clientId) == Utils.BureauBalanceParquet(t, clientId);

    var prevKeys := StreamlitApp.PrevKeys(t, clientId);
    var prevIds := ValueSet(s.previousApplication.rows, SK_ID_PREV);
    LinkedClosed(t.posCashBalance, clientId, prevKeys, ids, prevIds, ClientRows(t.previousApplication, clientId), s.previousApplication);
    LinkedClosed(t.installmentsPayments, clientId, prevKeys, ids, prevIds, ClientRows(t.previousApplication, clientId), s.previousApplication);
    LinkedClosed(t.creditCardBalance, clientId, prevKeys, ids, prevIds, ClientRows(t.previousApplication, clientId), s.previousApplication);
    assert Utils.LookupSucceeds(s, clientId) == Utils.LookupSucceeds(t, clientId);
  }

  /** One of the loop's tables: re-selecting a drawn client's rows from the
      sampled table gives the client's rows of the full table, for both
      dashboards' masks. */
  lemma LinkedClosed(f: Frame, clientId: int, prevKeys: seq<Value>, ids: set<Value>, prevIds: set<Value>,
                     clientPrev: Frame, samplePrev: Frame)
    requires Id(clientId) in ids
    requires prevKeys == KeyList(clientPrev, SK_ID_PREV)
    requires forall p :: p in clientPrev.rows ==> p in samplePrev.rows
    requires prevIds == ValueSet(samplePrev.rows, SK_ID_PREV)
    ensures var byPrev := prevKeys != [] && SK_ID_PREV in f.columns;
      Filter(Filter(f.rows, CurrOrPrevIn(ids, prevIds)), StreamlitApp.CurrOrPrev(clientId, prevKeys, byPrev))
        == Filter(f.rows, StreamlitApp.CurrOrPrev(clientId, prevKeys, byPrev))
    ensures Filter(Filter(f.rows, CurrOrPrevIn(ids, prevIds)), ColumnIs(SK_ID_CURR, Id(clientId)))
        == Filter(f.rows, ColumnIs(SK_ID_CURR, Id(clientId)))
  {
    var byPrev := prevKeys != [] && SK_ID_PREV in f.columns;
    forall r | r in f.rows && StreamlitApp.CurrOrPrev(clientId, prevKeys, byPrev)(r)
      ensures CurrOrPrevIn(ids, prevIds)(r)
    {
      if Cell(r, SK_ID_CURR) != Id(clientId) {
        var p :| p in clientPrev.rows && Cell(p, SK_ID_PREV) == Cell(r, SK_ID_PREV);
        assert p in samplePrev.rows;
      }
    }
    FilterOfFilter(f.rows, StreamlitApp.CurrOrPrev(clientId, prevKeys, byPrev), CurrOrPrevIn(ids, prevIds));
    FilterOfFilter(f.rows, ColumnIs(SK_ID_CURR, Id(clientId)), CurrOrPrevIn(ids, prevIds));
  }
}
