/** The CSV dashboard (streamlit_app.py): the normalised column lists, the
    per-client lookup over the seven tables with its two-step key joins, the
    descriptive panel's age and years of employment, and the accept/refuse
    rule. The sanitisation and the id list come from Utils. */
module StreamlitApp {
  import opened Seqs
  import opened Frames
  import Utils

  // ---------------------------------------------------------------------
  // The *_COLS_NEEDED lists
  // ---------------------------------------------------------------------

  /** Python's `<` on strings: lexicographic on code points. */
  predicate LexLess(a: string, b: string) {
    if a == [] then b != []
    else if b == [] then false
    else a[0] < b[0] || (a[0] == b[0] && LexLess(a[1..], b[1..]))
  }

  lemma {:induction false} LexLessIrreflexive(a: string)
    ensures !LexLess(a, a)
  {
    if a != [] {
      LexLessIrreflexive(a[1..]);
    }
  }

  lemma {:induction false} LexLessTransitive(a: string, b: string, c: string)
    requires LexLess(a, b) && LexLess(b, c)
    ensures LexLess(a, c)
  {
    if a != [] && a[0] == b[0] && b[0] == c[0] {
      LexLessTransitive(a[1..], b[1..], c[1..]);
    }
  }

  lemma {:induction false} LexLessTotal(a: string, b: string)
    ensures LexLess(a, b) || a == b || LexLess(b, a)
  {
    if a != [] && b != [] && a[0] == b[0] {
      LexLessTotal(a[1..], b[1..]);
      assert a == [a[0]] + a[1..] && b == [b[0]] + b[1..];
    }
  }

  /** String comparison is a strict total order, so `sorted` is well defined. */
  lemma LexLessIsStrictOrder()
    ensures IsStrictOrder(LexLess)
  {
    forall a ensures !LexLess(a, a) {
      LexLessIrreflexive(a);
    }
    forall a, b, c | LexLess(a, b) && LexLess(b, c) ensures LexLess(a, c) {
      LexLessTransitive(a, b, c);
    }
    forall a, b ensures LexLess(a, b) || a == b || LexLess(b, a) {
      LexLessTotal(a, b);
    }
  }

  /** `sorted(list(set(cols)))`: each listed name once, in ascending order. */
  function NormaliseColumns(listed: seq<string>): (cols: seq<string>)
    ensures StrictlySorted(cols, LexLess) && NoDuplicates(cols)
    ensures forall c :: c in cols <==> c in listed
  {
    LexLessIsStrictOrder();
    var cols := SortedUnique(listed, LexLess);
    SortedHasNoDuplicates(cols, LexLess);
    cols
  }

  /** The normalised list is the only ascending, duplicate-free listing of
      the names written in the source list. */
  lemma NormalisedColumnsAreCanonical(listed: seq<string>, cols: seq<string>)
    requires StrictlySorted(cols, LexLess)
    requires forall c :: c in cols <==> c in listed
    ensures NormaliseColumns(listed) == cols
  {
    LexLessIsStrictOrder();
    var n := NormaliseColumns(listed);
    assert forall c :: c in n <==> c in cols;
    SortedListIsCanonical(n, cols, LexLess);
  }

  /** The APPLICATION_TEST_COLS_NEEDED list as written, before normalisation:
      the id, then the features. */
  const APPLICATION_TEST_LISTED: seq<string> := ["SK_ID_CURR"] + [
    "EXT_SOURCE_1", "EXT_SOURCE_2", "EXT_SOURCE_3",
    "AMT_CREDIT", "DAYS_BIRTH", "AMT_ANNUITY", "AMT_GOODS_PRICE",
    "DAYS_EMPLOYED", "OWN_CAR_AGE", "CODE_GENDER", "NAME_EDUCATION_TYPE",
    "DAYS_ID_PUBLISH", "NAME_FAMILY_STATUS", "NAME_CONTRACT_TYPE", "REGION_RATING_CLIENT_W_CITY",
    "FLAG_DOCUMENT_3", "DEF_60_CNT_SOCIAL_CIRCLE", "REG_CITY_NOT_LIVE_CITY", "NAME_INCOME_TYPE",
    "DAYS_LAST_PHONE_CHANGE", "DAYS_REGISTRATION", "AMT_REQ_CREDIT_BUREAU_QRT", "DEF_30_CNT_SOCIAL_CIRCLE",
    "OCCUPATION_TYPE", "ORGANIZATION_TYPE", "YEARS_BEGINEXPLUATATION_MODE", "FLOORSMAX_AVG",
    "APARTMENTS_MEDI", "AMT_INCOME_TOTAL", "LIVINGAREA_MEDI", "FLOORSMAX_MEDI",
    "NONLIVINGAPARTMENTS_MEDI", "OBS_60_CNT_SOCIAL_CIRCLE", "LIVINGAREA_MODE", "REGION_POPULATION_RELATIVE",
    "FLAG_DOCUMENT_18", "APARTMENTS_MODE", "WALLSMATERIAL_MODE", "NONLIVINGAPARTMENTS_AVG",
    "LANDAREA_MEDI", "YEARS_BEGINEXPLUATATION_MEDI", "BASEMENTAREA_MEDI", "NONLIVINGAREA_MODE",
    "TOTALAREA_MODE", "YEARS_BUILD_MODE", "YEARS_BUILD_MEDI", "ENTRANCES_MODE",
    "REGION_RATING_CLIENT", "FLAG_WORK_PHONE", "NAME_TYPE_SUITE", "NAME_HOUSING_TYPE",
    "WEEKDAY_APPR_PROCESS_START", "FONDKAPREMONT_MODE", "HOUSETYPE_MODE", "EMERGENCYSTATE_MODE",
    "FLAG_OWN_CAR", "FLAG_OWN_REALTY", "CNT_CHILDREN", "CNT_FAM_MEMBERS",
    "HOUR_APPR_PROCESS_START", "FLAG_MOBIL", "FLAG_EMP_PHONE", "FLAG_CONT_MOBILE",
    "FLAG_PHONE", "FLAG_EMAIL", "REG_REGION_NOT_LIVE_REGION", "REG_REGION_NOT_WORK_REGION",
    "LIVE_REGION_NOT_WORK_REGION", "REG_CITY_NOT_WORK_CITY", "LIVE_CITY_NOT_WORK_CITY", "APARTMENTS_AVG",
    "BASEMENTAREA_AVG", "YEARS_BEGINEXPLUATATION_AVG", "YEARS_BUILD_AVG", "COMMONAREA_AVG",
    "ELEVATORS_AVG", "ENTRANCES_AVG", "FLOORSMIN_AVG", "LANDAREA_AVG",
    "LIVINGAPARTMENTS_AVG", "LIVINGAREA_AVG", "NONLIVINGAPARTMENTS_AVG", "COMMONAREA_MODE",
    "ELEVATORS_MODE", "FLOORSMIN_MODE", "LANDAREA_MODE", "LIVINGAPARTMENTS_MODE",
    "COMMONAREA_MEDI", "ELEVATORS_MEDI", "FLOORSMIN_MEDI", "LIVINGAPARTMENTS_MEDI",
    "OBS_30_CNT_SOCIAL_CIRCLE", "FLAG_DOCUMENT_2", "FLAG_DOCUMENT_4", "FLAG_DOCUMENT_5",
    "FLAG_DOCUMENT_6", "FLAG_DOCUMENT_7", "FLAG_DOCUMENT_8", "FLAG_DOCUMENT_9",
    "FLAG_DOCUMENT_10", "FLAG_DOCUMENT_11", "FLAG_DOCUMENT_12", "FLAG_DOCUMENT_13",
    "FLAG_DOCUMENT_14", "FLAG_DOCUMENT_15", "FLAG_DOCUMENT_16", "FLAG_DOCUMENT_17",
    "FLAG_DOCUMENT_19", "FLAG_DOCUMENT_20", "FLAG_DOCUMENT_21", "AMT_REQ_CREDIT_BUREAU_HOUR",
    "AMT_REQ_CREDIT_BUREAU_DAY", "AMT_REQ_CREDIT_BUREAU_WEEK", "AMT_REQ_CREDIT_BUREAU_MON", "AMT_REQ_CREDIT_BUREAU_YEAR"]

  /** The BUREAU_COLS_NEEDED list as written, before normalisation. */
  const BUREAU_LISTED: seq<string> := [
    "SK_ID_CURR", "SK_ID_BUREAU", "CREDIT_ACTIVE", "CREDIT_TYPE",
    "AMT_CREDIT_MAX_OVERDUE", "AMT_CREDIT_SUM_OVERDUE", "CNT_CREDIT_PROLONG", "AMT_CREDIT_SUM_DEBT",
    "AMT_CREDIT_SUM", "DAYS_CREDIT_ENDDATE", "CREDIT_DAY_OVERDUE", "DAYS_CREDIT",
    "AMT_ANNUITY", "AMT_CREDIT_SUM_LIMIT", "DAYS_CREDIT_UPDATE", "CREDIT_CURRENCY"]

  /** The BUREAU_BALANCE_COLS_NEEDED list as written, before normalisation. */
  const BUREAU_BALANCE_LISTED: seq<string> := [
    "SK_ID_BUREAU", "MONTHS_BALANCE", "STATUS"]

  /** The PREVIOUS_APPLICATION_COLS_NEEDED list as written, before normalisation. */
  const PREVIOUS_APPLICATION_LISTED: seq<string> := [
    "SK_ID_CURR", "SK_ID_PREV", "CNT_PAYMENT", "AMT_DOWN_PAYMENT",
    "DAYS_LAST_DUE_1ST_VERSION", "AMT_ANNUITY", "DAYS_FIRST_DRAWING", "RATE_DOWN_PAYMENT",
    "HOUR_APPR_PROCESS_START", "SELLERPLACE_AREA", "DAYS_FIRST_DUE", "DAYS_LAST_DUE",
    "DAYS_DECISION", "DAYS_TERMINATION", "AMT_GOODS_PRICE", "AMT_APPLICATION",
    "AMT_CREDIT", "NAME_CONTRACT_STATUS", "NAME_YIELD_GROUP", "PRODUCT_COMBINATION",
    "NAME_GOODS_CATEGORY", "CODE_REJECT_REASON", "NAME_PRODUCT_TYPE", "NAME_PAYMENT_TYPE",
    "NAME_CASH_LOAN_PURPOSE", "NAME_CONTRACT_TYPE", "CHANNEL_TYPE", "NAME_PORTFOLIO",
    "WEEKDAY_APPR_PROCESS_START", "NAME_TYPE_SUITE", "NAME_CLIENT_TYPE", "NAME_SELLER_INDUSTRY",
    "FLAG_LAST_APPL_PER_CONTRACT", "NFLAG_LAST_APPL_IN_DAY", "RATE_INTEREST_PRIMARY", "RATE_INTEREST_PRIVILEGED",
    "NFLAG_INSURED_ON_APPROVAL"]

  /** The POS_CASH_BALANCE_COLS_NEEDED list as written, before normalisation. */
  const POS_CASH_BALANCE_LISTED: seq<string> := [
    "SK_ID_CURR", "SK_ID_PREV", "CNT_INSTALMENT_FUTURE", "SK_DPD_DEF",
    "MONTHS_BALANCE", "CNT_INSTALMENT", "SK_DPD", "NAME_CONTRACT_STATUS"]

  /** The INSTALLMENTS_PAYMENTS_COLS_NEEDED list as written, before normalisation. */
  const INSTALLMENTS_PAYMENTS_LISTED: seq<string> := [
    "SK_ID_CURR", "SK_ID_PREV", "NUM_INSTALMENT_VERSION", "NUM_INSTALMENT_NUMBER",
    "DAYS_INSTALMENT", "DAYS_ENTRY_PAYMENT", "AMT_INSTALMENT", "AMT_PAYMENT"]

  /** The CREDIT_CARD_BALANCE_COLS_NEEDED list as written, before normalisation. */
  const CREDIT_CARD_BALANCE_LISTED: seq<string> := [
    "SK_ID_CURR", "SK_ID_PREV", "AMT_PAYMENT", "CNT_DRAWINGS_ATM_CURRENT",
    "DAYS_ENTRY_PAYMENT", "CNT_DRAWINGS_CURRENT", "NUM_INSTALMENT_VERSION", "AMT_INSTALMENT",
    "AMT_CREDIT_LIMIT_ACTUAL", "AMT_BALANCE", "AMT_RECIVABLE", "AMT_DRAWINGS_CURRENT",
    "DAYS_INSTALMENT", "NUM_INSTALMENT_NUMBER", "AMT_RECEIVABLE_PRINCIPAL", "MONTHS_BALANCE",
    "AMT_TOTAL_RECEIVABLE", "CNT_INSTALMENT_MATURE_CUM", "CNT_DRAWINGS_POS_CURRENT", "SK_DPD",
    "AMT_PAYMENT_CURRENT", "NAME_CONTRACT_STATUS", "AMT_DRAWINGS_ATM_CURRENT", "AMT_DRAWINGS_OTHER_CURRENT",
    "AMT_INST_MIN_REGULARITY", "AMT_PAYMENT_TOTAL_CURRENT", "SK_DPD_DEF", "CNT_DRAWINGS_OTHER_CURRENT"]
  const APPLICATION_TEST_COLS_NEEDED := NormaliseColumns(APPLICATION_TEST_LISTED)
  const BUREAU_COLS_NEEDED := NormaliseColumns(BUREAU_LISTED)
  /** Written out, since the empty placeholder table of the lookup is built from it. */
  const BUREAU_BALANCE_COLS_NEEDED: seq<string> := ["MONTHS_BALANCE", "SK_ID_BUREAU", "STATUS"]
  const PREVIOUS_APPLICATION_COLS_NEEDED := NormaliseColumns(PREVIOUS_APPLICATION_LISTED)
  const POS_CASH_BALANCE_COLS_NEEDED := NormaliseColumns(POS_CASH_BALANCE_LISTED)
  const INSTALLMENTS_PAYMENTS_COLS_NEEDED := NormaliseColumns(INSTALLMENTS_PAYMENTS_LISTED)
  const CREDIT_CARD_BALANCE_COLS_NEEDED := NormaliseColumns(CREDIT_CARD_BALANCE_LISTED)

  /** The written-out bureau_balance list is the normalised source list. */
  lemma BureauBalanceColumns()
    ensures NormaliseColumns(BUREAU_BALANCE_LISTED) == BUREAU_BALANCE_COLS_NEEDED
  {
    var cols := BUREAU_BALANCE_COLS_NEEDED;
    assert LexLess(cols[0], cols[1]) && LexLess(cols[1], cols[2]);
    LexLessIsStrictOrder();
    NormalisedColumnsAreCanonical(BUREAU_BALANCE_LISTED, cols);
  }

  /** The seven tables as the `usecols` reads return them: each holds
      exactly the columns its list names. */
  ghost predicate ReadWithUsecols(t: Tables) {
    && (forall c :: c in t.currentApp.columns <==> c in APPLICATION_TEST_COLS_NEEDED)
    && (forall c :: c in t.bureau.columns <==> c in BUREAU_COLS_NEEDED)
    && (forall c :: c in t.bureauBalance.columns <==> c in BUREAU_BALANCE_COLS_NEEDED)
    && (forall c :: c in t.previousApplication.columns <==> c in PREVIOUS_APPLICATION_COLS_NEEDED)
    && (forall c :: c in t.posCashBalance.columns <==> c in POS_CASH_BALANCE_COLS_NEEDED)
    && (forall c :: c in t.installmentsPayments.columns <==> c in INSTALLMENTS_PAYMENTS_COLS_NEEDED)
    && (forall c :: c in t.creditCardBalance.columns <==> c in CREDIT_CARD_BALANCE_COLS_NEEDED)
  }

  /** The application and bureau lists name the keys `SK_ID_CURR` and `SK_ID_BUREAU`. */
  lemma BureauListsNameKeys()
    ensures SK_ID_CURR in APPLICATION_TEST_COLS_NEEDED
    ensures SK_ID_CURR in BUREAU_COLS_NEEDED && SK_ID_BUREAU in BUREAU_COLS_NEEDED
    ensures SK_ID_BUREAU in BUREAU_BALANCE_COLS_NEEDED
  {
    assert APPLICATION_TEST_LISTED[0] == SK_ID_CURR;
    assert BUREAU_LISTED[0] == SK_ID_CURR && BUREAU_LISTED[1] == SK_ID_BUREAU;
  }

  /** The previous application list and the three lists linked to it name
      `SK_ID_CURR` and `SK_ID_PREV`. */
  lemma PrevListsNameKeys()
    ensures SK_ID_CURR in PREVIOUS_APPLICATION_COLS_NEEDED && SK_ID_PREV in PREVIOUS_APPLICATION_COLS_NEEDED
    ensures SK_ID_CURR in POS_CASH_BALANCE_COLS_NEEDED && SK_ID_PREV in POS_CASH_BALANCE_COLS_NEEDED
    ensures SK_ID_CURR in INSTALLMENTS_PAYMENTS_COLS_NEEDED && SK_ID_PREV in INSTALLMENTS_PAYMENTS_COLS_NEEDED
    ensures SK_ID_CURR in CREDIT_CARD_BALANCE_COLS_NEEDED && SK_ID_PREV in CREDIT_CARD_BALANCE_COLS_NEEDED
  {
    assert PREVIOUS_APPLICATION_LISTED[0] == SK_ID_CURR && PREVIOUS_APPLICATION_LISTED[1] == SK_ID_PREV;
    assert POS_CASH_BALANCE_LISTED[0] == SK_ID_CURR && POS_CASH_BALANCE_LISTED[1] == SK_ID_PREV;
    assert INSTALLMENTS_PAYMENTS_LISTED[0] == SK_ID_CURR && INSTALLMENTS_PAYMENTS_LISTED[1] == SK_ID_PREV;
    assert CREDIT_CARD_BALANCE_LISTED[0] == SK_ID_CURR && CREDIT_CARD_BALANCE_LISTED[1] == SK_ID_PREV;
  }

  /** Every `usecols` list names the key columns the lookup indexes, so
      tables read with those lists meet both key-column conditions. */
  lemma UsecolsNameKeyColumns(t: Tables)
    requires ReadWithUsecols(t)
    ensures HasKeyColumns(t) && CsvKeyColumns(t)
  {
    BureauListsNameKeys();
    PrevListsNameKeys();
  }

  // ---------------------------------------------------------------------
  // get_data_for_client (CSV)
  // ---------------------------------------------------------------------

  /** bureau_balance with `SK_ID_BUREAU` among the client's bureau keys, or
      an empty table with the needed columns when the client has no bureau key. */
  function BureauBalanceCsv(t: Tables, clientId: int): Frame {
    var keys := Utils.BureauKeys(t, clientId);
    if keys != [] then Where(t.bureauBalance, ColumnIn(SK_ID_BUREAU, keys))
    else EmptyFrame(BUREAU_BALANCE_COLS_NEEDED)
  }

  /** The client's previous-application keys: those of the client's previous applications. */
  function PrevKeys(t: Tables, clientId: int): seq<Value> {
    KeyList(ClientRows(t.previousApplication, clientId), SK_ID_PREV)
  }

  /** The mask `(df['SK_ID_CURR'] == client_id) | by_prev`, where `by_prev`
      is `df['SK_ID_PREV'].isin(prevKeys)` when `byPrev` and all False otherwise. */
  function CurrOrPrev(clientId: int, prevKeys: seq<Value>, byPrev: bool): Row -> bool {
    (r: Row) => Cell(r, SK_ID_CURR) == Id(clientId) || (byPrev && Cell(r, SK_ID_PREV) in prevKeys)
  }

  /** The selection of a POS_CASH, installments or credit-card table `f`; the
      `SK_ID_PREV` half is used only with a non-empty key list and the column present. */
  function LinkedRows(t: Tables, clientId: int, f: Frame): Frame {
    var keys := PrevKeys(t, clientId);
    Where(f, CurrOrPrev(clientId, keys, keys != [] && SK_ID_PREV in f.columns))
  }

  /** The key columns the `usecols` reads of bureau, previous_application,
      POS_CASH_balance, installments_payments and credit_card_balance ask
      for beyond SK_ID_CURR; `read_csv` raises a ValueError when one is missing. */
  predicate CsvKeyColumns(t: Tables) {
    && SK_ID_BUREAU in t.bureau.columns
    && SK_ID_PREV in t.previousApplication.columns
    && SK_ID_PREV in t.posCashBalance.columns
    && SK_ID_PREV in t.installmentsPayments.columns
    && SK_ID_PREV in t.creditCardBalance.columns
  }

  /** The client's rows of every table; None where the dashboard returns
      `(None, None)`: the Parquet lookup's failures, and a `usecols` read
      missing one of its key columns. */
  function ClientTablesCsv(t: Tables, clientId: int): Option<Tables> {
    if Utils.LookupSucceeds(t, clientId) && CsvKeyColumns(t) then
      Some(Tables(
        ClientRows(t.currentApp, clientId),
        ClientRows(t.bureau, clientId),
        BureauBalanceCsv(t, clientId),
        ClientRows(t.previousApplication, clientId),
        LinkedRows(t, clientId, t.posCashBalance),
        LinkedRows(t, clientId, t.installmentsPayments),
        LinkedRows(t, clientId, t.creditCardBalance)))
    else None
  }

  /** A row of a POS_CASH, installments or credit-card table `f` is linked to
      the client through the `SK_ID_PREV` of one of the client's previous applications. */
  ghost predicate PrevLinked(t: Tables, clientId: int, f: Frame, r: Row) {
    && SK_ID_PREV in f.columns
    && SK_ID_PREV in t.previousApplication.columns
    && exists p :: p in t.previousApplication.rows && Cell(p, SK_ID_CURR) == Id(clientId) && Cell(p, SK_ID_PREV) == Cell(r, SK_ID_PREV)
  }

  /** The rows of `f` that belong to the client: its own, or linked through a previous application. */
  ghost function ClientOrPrevLinked(t: Tables, clientId: int, f: Frame): Row -> bool {
    r => Cell(r, SK_ID_CURR) == Id(clientId) || PrevLinked(t, clientId, f, r)
  }

  /** One prev-linked table: a row is kept exactly when it has the client's
      id or is linked through a previous application; with no previous
      application the selection is the `SK_ID_CURR` test alone. */
  lemma LinkedSelection(t: Tables, clientId: int, f: Frame)
    ensures LinkedRows(t, clientId, f).columns == f.columns
    ensures Utils.KeptExactly(LinkedRows(t, clientId, f).rows, f.rows, ClientOrPrevLinked(t, clientId, f))
    ensures ClientRows(t.previousApplication, clientId).rows == [] ==>
              LinkedRows(t, clientId, f) == ClientRows(f, clientId)
  {
    var prev := ClientRows(t.previousApplication, clientId);
    var keys := PrevKeys(t, clientId);
    var byPrev := keys != [] && SK_ID_PREV in f.columns;
    forall r ensures CurrOrPrev(clientId, keys, byPrev)(r) <==> ClientOrPrevLinked(t, clientId, f)(r) {
      if PrevLinked(t, clientId, f, r) {
        var p :| p in t.previousApplication.rows && Cell(p, SK_ID_CURR) == Id(clientId) && Cell(p, SK_ID_PREV) == Cell(r, SK_ID_PREV);
        assert p in prev.rows;
      }
    }
    Utils.WhereKeptExactly(f, CurrOrPrev(clientId, keys, byPrev), ClientOrPrevLinked(t, clientId, f));
    if prev.rows == [] {
      FilterCongruent(f.rows, CurrOrPrev(clientId, keys, byPrev), ColumnIs(SK_ID_CURR, Id(clientId)));
    }
  }

  /** The CSV lookup fails when no application row has the client's id or a
      read misses a key column; with every key column present, the first is
      the only way it fails. */
  lemma CsvFound(t: Tables, clientId: int)
    ensures (forall r :: r in t.currentApp.rows ==> Cell(r, SK_ID_CURR) != Id(clientId))
            ==> ClientTablesCsv(t, clientId).None?
    ensures !CsvKeyColumns(t) ==> ClientTablesCsv(t, clientId).None?
    ensures HasKeyColumns(t) && CsvKeyColumns(t) ==>
      (ClientTablesCsv(t, clientId).Some? <==> exists r :: r in t.currentApp.rows && Cell(r, SK_ID_CURR) == Id(clientId))
  {
    var app := ClientRows(t.currentApp, clientId);
    HeadIsElement(app.rows);
  }

  /** What each table of a successful CSV lookup holds: the client's rows of
      the application, bureau and previous-application tables; the
      bureau_balance rows linked through the client's bureau keys, or the
      empty placeholder table; and the POS_CASH, installments and credit-card
      rows with the client's id or linked through a previous application. */
  lemma CsvSelections(t: Tables, clientId: int)
    requires ClientTablesCsv(t, clientId).Some?
    ensures var c := ClientTablesCsv(t, clientId).value;
      && c.currentApp.rows != []
      && Utils.KeptExactly(c.currentApp.rows, t.currentApp.rows, ColumnIs(SK_ID_CURR, Id(clientId)))
      && Utils.KeptExactly(c.bureau.rows, t.bureau.rows, ColumnIs(SK_ID_CURR, Id(clientId)))
      && Utils.KeptExactly(c.bureauBalance.rows, t.bureauBalance.rows, Utils.BureauLinkedMask(t, clientId))
      && (c.bureau.rows == [] || SK_ID_BUREAU !in t.bureau.columns ==> c.bureauBalance == EmptyFrame(BUREAU_BALANCE_COLS_NEEDED))
      && Utils.KeptExactly(c.previousApplication.rows, t.previousApplication.rows, ColumnIs(SK_ID_CURR, Id(clientId)))
      && Utils.KeptExactly(c.posCashBalance.rows, t.posCashBalance.rows,
           ClientOrPrevLinked(t, clientId, t.posCashBalance))
      && Utils.KeptExactly(c.installmentsPayments.rows, t.installmentsPayments.rows,
           ClientOrPrevLinked(t, clientId, t.installmentsPayments))
      && Utils.KeptExactly(c.creditCardBalance.rows, t.creditCardBalance.rows,
           ClientOrPrevLinked(t, clientId, t.creditCardBalance))
      && (c.previousApplication.rows == [] ==>
           && c.posCashBalance == ClientRows(t.posCashBalance, clientId)
           && c.installmentsPayments == ClientRows(t.installmentsPayments, clientId)
           && c.creditCardBalance == ClientRows(t.creditCardBalance, clientId))
  {
    var byClient := ColumnIs(SK_ID_CURR, Id(clientId));
    Utils.WhereKeptExactly(t.currentApp, byClient, byClient);
    Utils.WhereKeptExactly(t.bureau, byClient, byClient);
    Utils.WhereKeptExactly(t.previousApplication, byClient, byClient);
    Utils.BureauKeySelection(t, clientId);
    LinkedSelection(t, clientId, t.posCashBalance);
    LinkedSelection(t, clientId, t.installmentsPayments);
    LinkedSelection(t, clientId, t.creditCardBalance);
  }

  /** The CSV lookup succeeds exactly when the Parquet one does and the CSV
      reads find their key columns. When both succeed they agree on the
      application, bureau, bureau_balance and previous-application rows; each prev-linked table of the Parquet lookup,
      which follows SK_ID_CURR only, is a sub-sequence of the CSV one, which
      also follows SK_ID_PREV; and for a client without previous applications
      both send the same payload. */
  lemma CsvAgreesWithParquet(t: Tables, clientId: int, numText: real -> string)
    ensures ClientTablesCsv(t, clientId).Some? <==> Utils.ClientTablesParquet(t, clientId).Some? && CsvKeyColumns(t)
    ensures ClientTablesCsv(t, clientId).Some? ==>
      var csv, pq := ClientTablesCsv(t, clientId).value, Utils.ClientTablesParquet(t, clientId).value;
      && csv.currentApp == pq.currentApp
      && csv.bureau == pq.bureau
      && csv.bureauBalance.rows == pq.bureauBalance.rows
      && csv.previousApplication == pq.previousApplication
      && IsSubseq(pq.posCashBalance.rows, csv.posCashBalance.rows)
      && IsSubseq(pq.installmentsPayments.rows, csv.installmentsPayments.rows)
      && IsSubseq(pq.creditCardBalance.rows, csv.creditCardBalance.rows)
      && (csv.previousApplication.rows == [] ==> Utils.PayloadOf(csv, numText) == Utils.PayloadOf(pq, numText))
  {
    var keys := PrevKeys(t, clientId);
    var byCurr := ColumnIs(SK_ID_CURR, Id(clientId));
    var pos, inst, cc := t.posCashBalance, t.installmentsPayments, t.creditCardBalance;
    FilterMonotone(pos.rows, byCurr, CurrOrPrev(clientId, keys, keys != [] && SK_ID_PREV in pos.columns));
    FilterMonotone(inst.rows, byCurr, CurrOrPrev(clientId, keys, keys != [] && SK_ID_PREV in inst.columns));
    FilterMonotone(cc.rows, byCurr, CurrOrPrev(clientId, keys, keys != [] && SK_ID_PREV in cc.columns));
    if ClientRows(t.previousApplication, clientId).rows == [] {
      LinkedSelection(t, clientId, pos);
      LinkedSelection(t, clientId, inst);
      LinkedSelection(t, clientId, cc);
      assert Utils.Records(Some(BureauBalanceCsv(t, clientId)), numText)
          == Utils.Records(Some(Utils.BureauBalanceParquet(t, clientId)), numText);
    }
  }

  /** The seven client tables under their payload names, in the order the
      lookup inserts them. */
  function NamedTables(c: Tables): (named: seq<(string, Frame)>)
    ensures |named| == 7
  {
    [("current_app", c.currentApp), ("bureau", c.bureau), ("bureau_balance", c.bureauBalance),
     ("previous_application", c.previousApplication), ("POS_CASH_balance", c.posCashBalance),
     ("installments_payments", c.installmentsPayments), ("credit_card_balance", c.creditCardBalance)]
  }

  /** The payload once the loop has sanitised the first `n` named tables. */
  function PayloadPrefix(named: seq<(string, Frame)>, n: nat, numText: real -> string): Utils.Payload
    requires n <= |named|
  {
    if n == 0 then map[]
    else PayloadPrefix(named, n - 1, numText)[named[n - 1].0 := Utils.Records(Some(named[n - 1].1), numText)]
  }

  /** Filling the payload table by table gives the seven-entry payload. */
  lemma NamedPayload(c: Tables, numText: real -> string)
    ensures PayloadPrefix(NamedTables(c), 7, numText) == Utils.PayloadOf(c, numText)
  {
    var named := NamedTables(c);
    var p0 := PayloadPrefix(named, 0, numText);
    var p1 := PayloadPrefix(named, 1, numText);
    var p2 := PayloadPrefix(named, 2, numText);
    var p3 := PayloadPrefix(named, 3, numText);
    var p4 := PayloadPrefix(named, 4, numText);
    var p5 := PayloadPrefix(named, 5, numText);
    var p6 := PayloadPrefix(named, 6, numText);
    var p7 := PayloadPrefix(named, 7, numText);
    assert p7 == p6["credit_card_balance" := Utils.Records(Some(c.creditCardBalance), numText)];
    assert p6 == p5["installments_payments" := Utils.Records(Some(c.installmentsPayments), numText)];
    assert p5 == p4["POS_CASH_balance" := Utils.Records(Some(c.posCashBalance), numText)];
    assert p4 == p3["previous_application" := Utils.Records(Some(c.previousApplication), numText)];
    assert p3 == p2["bureau_balance" := Utils.Records(Some(c.bureauBalance), numText)];
    assert p2 == p1["bureau" := Utils.Records(Some(c.bureau), numText)];
    assert p1 == p0["current_app" := Utils.Records(Some(c.currentApp), numText)];
  }

  /** The loop `for df_name, df_content in ...: api_payload[df_name] = prepare_df_for_json(df_content)`:
      sanitises each named table into the payload, in order. */
  method FillPayload(named: seq<(string, Frame)>, numText: real -> string) returns (payload: Utils.Payload)
    ensures payload == PayloadPrefix(named, |named|, numText)
  {
    payload := map[];
    var i := 0;
    while i < |named|
      invariant 0 <= i <= |named|
      invariant payload == PayloadPrefix(named, i, numText)
    {
      var records := Utils.PrepareDfForJson(Some(named[i].1), numText);
      payload := payload[named[i].0 := records];
      i := i + 1;
    }
  }

  /** get_data_for_client (streamlit_app.py): the lookup, then the loop that
      sanitises each table into the payload. Succeeds exactly when the lookup
      does, and then returns the payload of the client's seven tables and the
      client's application rows. */
  method GetDataForClient(t: Tables, clientId: int, numText: real -> string) returns (result: Option<Utils.ClientData>)
    ensures result.Some? <==> ClientTablesCsv(t, clientId).Some?
    ensures result.Some? ==>
      && result.value.payload == Utils.PayloadOf(ClientTablesCsv(t, clientId).value, numText)
      && result.value.main == ClientTablesCsv(t, clientId).value.currentApp
  {
    var found := ClientTablesCsv(t, clientId);
    if found.None? {
      return None;
    }
    var c := found.value;
    var payload := FillPayload(NamedTables(c), numText);
    NamedPayload(c, numText);
    result := Some(Utils.ClientData(payload, c.currentApp));
  }

  // ---------------------------------------------------------------------
  // The descriptive panel: age and years of employment
  // ---------------------------------------------------------------------

  const EMPLOYMENT_UNKNOWN := "N/A (ou Erreur Donnée)"
  const EMPLOYMENT_DAYS_LIMIT: real := 200000.0

  /** `pd.notna(v)`. */
  predicate NotNa(v: Value) {
    v != NaN && v != Null
  }

  /** `abs(int(x // 365))`: the floor of the quotient first, then its magnitude. */
  function DisplayYears(x: real): nat {
    var q := Utils.FloorDiv365(x);
    if q < 0 then -q else q
  }

  /** The descriptive panel's series: a copy of the client's first row with
      the age and the years of employment added. `labels` is the series
      index (the frame's columns). None where the script stops with an
      exception: a day count that is present but not a finite number (the
      floor division of a string, or `int` of the NaN an infinity gives),
      except that employment days of +infinity fail the `< 200000` test and
      take the text. */
  method DisplaySeries(labels: set<string>, first: Row) returns (shown: Option<Row>)
    ensures var birth, employed := Cell(first, Utils.DAYS_BIRTH), Cell(first, Utils.DAYS_EMPLOYED);
      shown.None? <==>
        (Utils.DAYS_BIRTH in labels && NotNa(birth) && !birth.Num?) ||
        (Utils.DAYS_EMPLOYED in labels && (employed.Str? || employed == NegInf))
    ensures shown.Some? ==> var birth, employed := Cell(first, Utils.DAYS_BIRTH), Cell(first, Utils.DAYS_EMPLOYED);
      forall k :: Cell(shown.value, k) ==
        if k == Utils.AGE_YEARS && Utils.DAYS_BIRTH in labels && birth.Num? then Num(DisplayYears(birth.x) as real)
        else if k == Utils.EMPLOYMENT_YEARS && Utils.DAYS_EMPLOYED in labels && NotNa(employed) then
          (if employed.Num? && employed.x < EMPLOYMENT_DAYS_LIMIT then Num(DisplayYears(employed.x) as real)
           else Str(EMPLOYMENT_UNKNOWN))
        else Cell(first, k)
  {
    var series := first;
    var birth := Cell(series, Utils.DAYS_BIRTH);
    if Utils.DAYS_BIRTH in labels && NotNa(birth) {
      if !birth.Num? {
        return None;
      }
      series := series[Utils.AGE_YEARS := Num(DisplayYears(birth.x) as real)];
    }
    var employed := Cell(series, Utils.DAYS_EMPLOYED);
    if Utils.DAYS_EMPLOYED in labels && NotNa(employed) {
      if employed.Str? || employed == NegInf {
        return None;
      }
      if employed.Num? && employed.x < EMPLOYMENT_DAYS_LIMIT {
        series := series[Utils.EMPLOYMENT_YEARS := Num(DisplayYears(employed.x) as real)];
      } else {
        series := series[Utils.EMPLOYMENT_YEARS := Str(EMPLOYMENT_UNKNOWN)];
      }
    }
    shown := Some(series);
  }

  /** The panel's `abs(x // 365)` and the charts' `abs(x) // 365` agree on a
      whole day count exactly when it is non-negative or a multiple of 365;
      otherwise the panel shows one year more. */
  lemma DisplayVsChart(d: int)
    ensures DisplayYears(d as real) == Utils.ChartYears(d as real) <==> d >= 0 || d % 365 == 0
    ensures d < 0 && d % 365 != 0 ==> DisplayYears(d as real) == Utils.ChartYears(d as real) + 1
  {
    Utils.FloorDiv365IsIntDivision(d as real);
    Utils.FloorDiv365IsIntDivision(Utils.Abs(d as real));
    assert (d as real).Floor == d;
    if d < 0 {
      assert Utils.Abs(d as real) == (-d) as real;
      assert ((-d) as real).Floor == -d;
      var q, r := d / 365, d % 365;
      assert d == 365 * q + r && 0 <= r < 365;
      if r == 0 {
        assert -d == 365 * (-q);
        assert (-d) / 365 == -q;
      } else {
        assert -d == 365 * (-q - 1) + (365 - r);
        assert (-d) / 365 == -q - 1;
      }
    }
  }

  // ---------------------------------------------------------------------
  // The decision
  // ---------------------------------------------------------------------

  const OPTIMAL_THRESHOLD_SCORE: real := 63.36

  datatype Decision = Granted | Refused

  /** "Crédit Accordé" when the score is below the threshold, "Crédit Refusé" otherwise. */
  function Decide(score: real): Decision {
    if score < OPTIMAL_THRESHOLD_SCORE then Granted else Refused
  }

  /** The score is a default probability in percent. */
  function DefaultProbability(score: real): real {
    score / 100.0
  }

  function RepaymentProbability(score: real): real {
    1.0 - DefaultProbability(score)
  }

  /** The two probabilities are complementary, lie in [0, 1] for a score in
      [0, 100], and the credit is granted exactly when the repayment
      probability exceeds the implicit threshold `(100 - threshold) / 100`. */
  lemma DecisionByProbability(score: real)
    ensures DefaultProbability(score) + RepaymentProbability(score) == 1.0
    ensures 0.0 <= score <= 100.0 ==> 0.0 <= DefaultProbability(score) <= 1.0 && 0.0 <= RepaymentProbability(score) <= 1.0
    ensures Decide(score) == Granted <==> RepaymentProbability(score) > (100.0 - OPTIMAL_THRESHOLD_SCORE) / 100.0
  {
  }

  /** A lower score is never refused where a higher one is granted. */
  lemma DecisionMonotone(low: real, high: real)
    requires low <= high
    ensures Decide(high) == Granted ==> Decide(low) == Granted
    ensures Decide(low) == Refused ==> Decide(high) == Refused
  {
  }
}
