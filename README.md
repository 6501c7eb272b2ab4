# Credit-scoring dashboard: per-client extraction and sanitisation

This project models the data core of a credit-scoring dashboard built on the
Home Credit data set. A bank advisor picks a client id. The dashboard then
gathers the client's rows from seven linked tables:

- `application_test` holds the current application, keyed by `SK_ID_CURR`;
- `bureau` holds credits reported by the credit bureau, linked to
  `bureau_balance` by `SK_ID_BUREAU`;
- `previous_application` holds the client's earlier applications, linked to
  `POS_CASH_balance`, `installments_payments` and `credit_card_balance` by
  `SK_ID_PREV`.

The dashboard sanitises each table into JSON records and sends this payload to
a scoring service. It shows the client's age and years of employment, and it
turns the returned score into a decision: the credit is granted below the
threshold 63.36 and refused at or above it.

The modules follow the repository's scripts:

- `Seqs` (seqs.dfy) is the shared sequence vocabulary:
  - boolean-mask filtering and order-preserving sub-sequences;
  - de-duplication (pandas `unique()`);
  - sorting into a strictly ascending list (`sorted(set(...))`).
- `Frames` (frames.dfy) models loaded tables:
  - cells are `Value`s: a string, a finite number, ±infinity, NaN or None;
  - each column has a kind, `object` or numeric;
  - a frame's rows are maps from column name to cell;
  - the module provides the masks the scripts use: `==` on a key column,
    `isin` on a list or a set, and `unique().tolist()`.
- `Utils` (utils.py) holds four parts of the Parquet dashboard:
  - the sorted list of client ids;
  - `prepare_df_for_json`, as a loop over a copy of the frame, proved equal
    to a per-cell specification;
  - the Parquet per-client lookup;
  - the derived `AGE_ANNÉES` and `ANNÉES_EMPLOI` columns of the comparison
    charts.
- `StreamlitApp` (streamlit_app.py) holds five parts of the CSV dashboard:
  - the seven `*_COLS_NEEDED` lists and their normalisation;
  - the CSV per-client lookup, including the prev-linked tables selected by
    `SK_ID_CURR` or by `SK_ID_PREV`;
  - the loop that fills the payload;
  - the descriptive panel;
  - the decision rule.
- `StreamlitAppV2` (streamlit_app_v2.py) reads the score from the service's
  JSON answer and applies the decision rule in percent.
- `CreateSample` (create_sample.py) is the sampling script. It draws clients,
  keeps every related row, and writes seven files in order.
- `UsecolsTroubleshooting` (usecols_troubleshooting.py) is the header check:
  the two list differences and the lines they trigger.

Model conventions:

- Loaded tables are inputs to the model.
- A lookup that raises, or that finds no application row, is `None`. This
  stands for the dashboard's `(None, None)`.
- Both lookups index the same key columns under the same conditions, so they
  share one success predicate, `Utils.LookupSucceeds`. The CSV reads also
  name `SK_ID_BUREAU` and `SK_ID_PREV` in their `usecols` lists, and a read
  whose file lacks one raises; `StreamlitApp.CsvKeyColumns` adds that
  condition to the CSV lookup. `StreamlitApp.ReadWithUsecols` describes tables
  holding exactly their lists' columns, and such tables meet both conditions.
- The CSV tables are the frames the `usecols` reads return. A read that fails
  because the file lacks a non-key `usecols` column is outside the model.
- streamlit_app.py calls `prepare_df_for_json` and `load_available_client_ids`
  without defining or importing them. The model uses the definitions in
  utils.py.
- A float's string form in an `object` column comes from the parameter
  `numText`.
- The random draw of the sampling script is the parameter `draw`, a list of
  distinct row positions.

## Model

| member | source | states |
|---|---|---|
| Frames.EmptyFrame | streamlit_app.py:210 | `pd.DataFrame(columns=...)` has no rows and exactly the listed columns |
| Frames.Where | streamlit_app.py:205-207 | a mask selection keeps the columns; its rows are a sub-sequence of the source; a row is in it iff it is a source row the mask accepts |
| Frames.ClientRows | streamlit_app.py:182 | `df[df['SK_ID_CURR'] == client_id]` keeps the columns and source order; a row is in it iff it is a source row whose key equals the id |
| Seqs.FilterCounts | streamlit_app.py:205-207 | a mask selection holds each accepted row as many times as the source does, and no other row |
| Frames.UniqueValues | utils.py:132 | `unique().tolist()` has no duplicates; it holds exactly the values of the column; it is empty iff there are no rows |
| Frames.KeyList | streamlit_app.py:195-197 | the key list has no duplicates; it holds exactly the column's values when the column exists; it is empty iff the frame has no rows or lacks the column |
| Frames.ValueSet | create_sample.py:17 | `set(df[col])` is exactly the values the column takes |
| Utils.LoadAvailableClientIds | utils.py:54-72 | `[]` when the read fails; otherwise strictly ascending, duplicate-free, and holding exactly the ids of the column |
| Utils.ClientIdsAreCanonical | utils.py:63 | the id list is the only ascending listing of the distinct ids |
| Utils.ObjectCellSanitised | utils.py:83-88 | an object-column cell becomes null iff its string form is one of the ten sentinels, otherwise that string; NaN, None and the infinities always become null |
| Utils.NumericCellSanitised | utils.py:90-93 | a numeric-column cell becomes null iff it is not a finite number; a finite number is kept unchanged |
| Utils.RecordsShape | utils.py:80-93 | `[]` for None or an empty frame; otherwise one record per row, in row order, each keyed by exactly the frame's columns and holding the sanitised cell |
| Utils.RecordsIdempotent | utils.py:76-93 | for every frame, reading the records back as a frame and sanitising again gives the same records |
| Utils.NoSentinelInObjectColumns | utils.py:83-88 | no string left in an object column of the output is a sentinel |
| Utils.ReplaceInfinities | utils.py:90-92 | replacing infinities on the numeric columns changes only those columns' infinities, to NaN |
| Utils.PrepareDfForJson | utils.py:76-93 | the column-by-column rewrite of the copy returns exactly the per-cell specification `Records` |
| Utils.PayloadOf | utils.py:147-155 | the payload has exactly the seven table keys |
| Utils.ClientTablesParquet | utils.py:118-144 | the seven client tables of the Parquet lookup; specified by Utils.ParquetFound and Utils.ParquetSelections |
| Utils.GetDataForClient | utils.py:98-163 | succeeds iff the lookup's key columns are present and some application row has the id; then the main frame is non-empty, is the lookup's application selection, with the table's columns and the client's rows in source order and multiplicity, and the payload has the seven keys and is the sanitised client tables of Utils.ClientTablesParquet |
| Utils.BureauKeySelection | utils.py:131-137 | selecting bureau_balance by the client's bureau keys keeps, in source order and with their multiplicity, exactly the rows whose bureau key is the key of one of the client's bureau rows; the key list is empty iff no row is so linked |
| Utils.ParquetFound | utils.py:118-122 | no application row with the id gives None; with every key column present, success iff such a row exists |
| Utils.ParquetSelections | utils.py:118-144 | on success every table but bureau_balance holds exactly the source rows with the id, in order and with their multiplicity; bureau_balance holds exactly the bureau-linked rows, and nothing when the client has no bureau row |
| Utils.FloorDiv365IsIntDivision | utils.py:262 | Python's float `x // 365` is the integer floor division of `x`'s floor |
| Utils.CappedYears | utils.py:261-267 | a derived cell is NaN or a whole number in [0, cap]; it is `abs(days) // 365` when that is within the cap, and NaN above the cap or for a missing day count |
| Utils.AddComparisonColumns | utils.py:245-275 | text in a loaded day column gives the empty frame of the `except` path; otherwise same rows, the two derived columns added only when their day column was loaded, each cell the capped years, every other cell unchanged |
| StreamlitApp.LexLessIsStrictOrder | streamlit_app.py:66 | Python's string `<` is a strict total order, so `sorted` has one answer |
| StreamlitApp.NormaliseColumns | streamlit_app.py:66 | `sorted(list(set(cols)))` is strictly ascending and duplicate-free, and holds exactly the listed names |
| StreamlitApp.NormalisedColumnsAreCanonical | streamlit_app.py:85 | the normalised list is the only ascending listing of the listed names |
| StreamlitApp.BureauBalanceColumns | streamlit_app.py:87-96 | the normalised bureau_balance list is `MONTHS_BALANCE, SK_ID_BUREAU, STATUS` |
| StreamlitApp.BureauListsNameKeys | streamlit_app.py:16-96 | the application, bureau and bureau_balance lists name `SK_ID_CURR` and `SK_ID_BUREAU` where the lookup indexes them |
| StreamlitApp.PrevListsNameKeys | streamlit_app.py:98-170 | the previous_application, POS_CASH_balance, installments_payments and credit_card_balance lists name both `SK_ID_CURR` and `SK_ID_PREV` |
| StreamlitApp.UsecolsNameKeyColumns | streamlit_app.py:176-253 | tables read with their `usecols` lists have every key column both lookups index, so those reads meet `HasKeyColumns` and `CsvKeyColumns` |
| StreamlitApp.LinkedSelection | streamlit_app.py:228-232 | a prev-linked table keeps its rows in order and with their multiplicity, and a row is kept iff it has the id or its `SK_ID_PREV` is that of one of the client's previous applications; with no previous application, the selection is the `SK_ID_CURR` test alone |
| StreamlitApp.ClientTablesCsv | streamlit_app.py:182-257 | the seven client tables of the CSV lookup; specified by StreamlitApp.CsvFound, StreamlitApp.CsvSelections and StreamlitApp.CsvAgreesWithParquet |
| StreamlitApp.CsvFound | streamlit_app.py:182-185 | no application row with the id gives None, and so does a missing `usecols` key column; with every key column present, success iff such a row exists |
| StreamlitApp.CsvSelections | streamlit_app.py:182-257 | on success each table holds exactly, in source order and with their multiplicity, the client's application, bureau and previous-application rows; the bureau-linked bureau_balance rows, or the empty placeholder table without bureau keys; the prev-linked tables by id or previous application |
| StreamlitApp.CsvAgreesWithParquet | streamlit_app.py:173-262 | the CSV lookup succeeds iff the Parquet one does and the CSV key columns are present; on success they agree on four tables; each Parquet prev-linked table is a sub-sequence of the CSV one; without previous applications the payloads are equal |
| StreamlitApp.NamedTables | streamlit_app.py:186-257 | the lookup inserts seven named tables |
| StreamlitApp.FillPayload | streamlit_app.py:259-261 | the loop stores each named table's sanitised records under its name, giving the payload of all named tables |
| StreamlitApp.NamedPayload | streamlit_app.py:259-261 | filling the payload table by table yields the seven-key payload of the client's tables |
| StreamlitApp.GetDataForClient | streamlit_app.py:173-274 | succeeds iff the lookup does; then returns the payload of the client's seven tables and the client's application rows |
| StreamlitApp.DisplaySeries | streamlit_app.py:331-338 | the panel fails iff a present non-NaN birth count is not a number, or the employment count is text or -infinity; otherwise age is `abs(int(days // 365))`, employment the same below 200000 days and the N/A text otherwise, and every other cell unchanged |
| StreamlitApp.DisplayVsChart | streamlit_app.py:333 | the panel's `abs(x // 365)` equals the charts' `abs(x) // 365` iff the day count is non-negative or a multiple of 365; otherwise it is one year more |
| StreamlitApp.Decide | streamlit_app.py:367 | the accept/refuse rule; specified by StreamlitApp.DecisionMonotone, StreamlitApp.DecisionByProbability and StreamlitAppV2.DecisionsAgree |
| StreamlitApp.DecisionByProbability | streamlit_app.py:364-367 | default plus repayment probability is 1; both are in [0, 1] for a score in [0, 100]; granted iff repayment exceeds `(100 - threshold) / 100` |
| StreamlitApp.DecisionMonotone | streamlit_app.py:367 | a score below a granted score is granted; a score above a refused score is refused |
| StreamlitAppV2.ExtractScore | streamlit_app_v2.py:151-157 | the branch the score panel takes; specified by StreamlitAppV2.ScoreUsedOnlyWhenPresent |
| StreamlitAppV2.ScoreUsedOnlyWhenPresent | streamlit_app_v2.py:151-157 | a score is used iff the answer is an object whose `client_with_scores` is a non-empty list whose first element has a numeric `SCORE`; the score is that value; the missing-score branch runs iff that `SCORE` is absent or null |
| StreamlitAppV2.ReadScore | streamlit_app_v2.py:158-162 | repayment plus default risk is 100; default risk is the score; the repayment threshold is `100 - 63.36` |
| StreamlitAppV2.DecisionsAgree | streamlit_app_v2.py:158-163 | over exact reals the decision is granted iff score < 63.36, the same as the CSV dashboard; the percentages are its probabilities times 100 |
| CreateSample.SampledApp | create_sample.py:16 | the sample keeps the columns and holds the drawn source rows, one per draw |
| CreateSample.SampleTables | create_sample.py:36-69 | the seven sampled tables; specified by CreateSample.SampleSelections and CreateSample.SampleIsClosed |
| CreateSample.SampleOutputs | create_sample.py:27-70 | the script writes seven files |
| CreateSample.WrittenCount | create_sample.py:36-71 | at most seven files are written, and all seven iff every key column the script indexes is present |
| CreateSample.BuildSample | create_sample.py:13-71 | the script writes the sampled tables in its order, stopping at the first table missing a key column it indexes |
| CreateSample.SampleSelections | create_sample.py:36-69 | the sample ids are the ids of the drawn rows; each table keeps exactly, in order and with their multiplicity, the rows of drawn clients or linked through kept bureau or previous-application rows |
| CreateSample.SampledClientRow | create_sample.py:16-17 | when the client's id occurs in at most one application row (`UniqueClient`), a drawn client's application rows in the sample are its rows in the full table |
| CreateSample.SampleIsClosed | create_sample.py:36-69 | for a drawn client, both dashboards' lookups over the sample return exactly what they return over the full tables |
| CreateSample.LinkedClosed | create_sample.py:55-62 | re-selecting a drawn client's rows from a sampled prev-linked table gives its rows of the full table, for both lookups' masks |
| UsecolsTroubleshooting.MissingPartitionsNeeded | usecols_troubleshooting.py:16 | the missing names are a sub-sequence of the needed list, and hold the needed names absent from the header and no other; each needed name is a header or missing, never both |
| UsecolsTroubleshooting.MissingCounts | usecols_troubleshooting.py:16 | each missing name occurs as often as in the needed list |
| UsecolsTroubleshooting.ExtraPartitionsHeaders | usecols_troubleshooting.py:20 | the extra names are a sub-sequence of the header, and hold the header names not needed and no other |
| UsecolsTroubleshooting.ExtraCounts | usecols_troubleshooting.py:20 | each extra name occurs as often as in the header |
| UsecolsTroubleshooting.CopiedListMatchesDashboard | usecols_troubleshooting.py:9-12 | the script's list names exactly the columns of the dashboard's installments_payments list |
| UsecolsTroubleshooting.CheckReport | usecols_troubleshooting.py:16-22 | the report lines the check prints; specified by UsecolsTroubleshooting.ReportLines and UsecolsTroubleshooting.MatchingHeaderIsQuiet |
| UsecolsTroubleshooting.ReportLines | usecols_troubleshooting.py:16-22 | the ERROR line appears iff some needed name is not a header, the INFO line iff some header is not needed, ERROR first |
| UsecolsTroubleshooting.MatchingHeaderIsQuiet | usecols_troubleshooting.py:16-22 | a header with exactly the needed names, in any order, produces no report line |

## Left out

- The Streamlit user interface is not modelled: page layout, widgets, metrics,
  messages, the progress bar, the gauge chart (`create_gauge_chart`) and the
  navigation pages. `@st.cache_data` is framework caching and does not change
  any result.
- `call_prediction_api` is an HTTP client. Its answer is the input of
  `StreamlitAppV2.ExtractScore`, or `ANull` when it returned None.
- No file, CSV, Parquet or S3 I/O is modelled. Tables are already loaded.
  - A `usecols` or `columns=` projection is not modelled. The CSV tables are
    taken as the projected frames. A CSV read fails when the file lacks a
    `usecols` column; the model covers this only for the key columns
    (`StreamlitApp.CsvKeyColumns`).
  - StreamlitApp.CsvAgreesWithParquet compares both lookups on the same
    loaded tables. The CSV payload holds only the `usecols` columns, and that
    narrowing is not captured.
  - The filter pushdown of a partitioned Parquet read is modelled as a mask
    selection in source order.
  - A missing file or a failed read is not a separate case.
- pandas dtype inference is not modelled. Each column's kind is part of the
  input.
- Floating-point formatting is not modelled. `numText` stands for it.
  Percentages and 0.2f captions are display only.
- The exact IEEE rounding of the comparison with 63.36 is not modelled. Scores
  are exact reals.
- The payload-size estimate is display only.
- The random draw `app_df.sample(frac=0.10, random_state=42)` is not modelled.
  Any list of distinct positions is allowed.
- Dictionary key order is not modelled. Payloads are maps, so the order of keys
  in the JSON is not captured.
- The order in which pandas `unique()` lists the keys is not modelled. It
  matters only for membership, which is what the masks use.
- Frames.Where: its own contract states sub-sequence and membership. The
  multiplicity of the kept rows is stated by Seqs.FilterCounts, and every
  lemma built on `Utils.KeptExactly` carries it.
- Frames.ClientRows: as for Frames.Where, multiplicity is stated by
  Seqs.FilterCounts and by the `KeptExactly` lemmas, not by its own contract.
- The `try: ... except Exception: pass` around the object-column rewrite of
  `prepare_df_for_json` is not modelled. Nothing in the modelled string
  conversion and replacement can raise, so that branch never runs.
- StreamlitApp.DisplaySeries: only text or -infinity is modelled as the
  exception on the employment count. The result column is `astype(str)` for
  display, and that rendering is not modelled.
- Utils.AddComparisonColumns: a `None` inside an object day column is treated
  like NaN, and only text is modelled as the exception. The columns chosen for
  `cols_to_load` and the read itself are I/O.
- CreateSample.SampleIsClosed: it assumes the client's id is a key of the
  application table (`UniqueClient`). With duplicate ids, the sample may hold
  fewer of that client's application rows than the full table.
- The script's progress `print` lines are not modelled. Only the ERROR and INFO
  lines of the header check are.
- preprocess_data.py, streamlit_app_debugging.py and needed_columns_print.py
  are not part of this model. They do partitioned writing through a library,
  a storage connectivity test, and header printing.
