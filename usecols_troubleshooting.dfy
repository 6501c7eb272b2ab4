/** The header check (usecols_troubleshooting.py): compare the column names
    a CSV header actually has with the names a `usecols` list asks for. */
module UsecolsTroubleshooting {
  import opened Seqs
  import StreamlitApp

  /** The list the script checks against, as written there. */
  const INSTALLMENTS_PAYMENTS_COLS_NEEDED: seq<string> := [
    "AMT_INSTALMENT", "AMT_PAYMENT", "DAYS_ENTRY_PAYMENT", "DAYS_INSTALMENT",
    "NUM_INSTALMENT_NUMBER", "NUM_INSTALMENT_VERSION", "SK_ID_CURR", "SK_ID_PREV"]

  /** The script's copy names exactly the columns of the dashboard's
      installments_payments list. */
  lemma CopiedListMatchesDashboard()
    ensures forall c :: c in INSTALLMENTS_PAYMENTS_COLS_NEEDED <==> c in StreamlitApp.INSTALLMENTS_PAYMENTS_COLS_NEEDED
  {
  }

  /** `[col for col in needed if col not in headers]`. */
  function MissingInCsv(needed: seq<string>, headers: seq<string>): seq<string> {
    Filter(needed, (c: string) => c !in headers)
  }

  /** `[col for col in headers if col not in needed]`. */
  function ExtraInCsv(needed: seq<string>, headers: seq<string>): seq<string> {
    Filter(headers, (c: string) => c !in needed)
  }

  /** The two lines the check can report after the listings. */
  datatype Report =
    | MissingColumns(names: seq<string>)   // the ERROR line
    | ExtraColumns(names: seq<string>)     // the INFO line

  /** The report lines, in the order the script prints them. */
  function CheckReport(needed: seq<string>, headers: seq<string>): seq<Report> {
    var missing := MissingInCsv(needed, headers);
    var extra := ExtraInCsv(needed, headers);
    (if missing != [] then [MissingColumns(missing)] else []) +
    (if extra != [] then [ExtraColumns(extra)] else [])
  }

  /** The missing names are the needed names absent from the header, in
      needed-list order; every needed name is a header or missing, never both. */
  lemma MissingPartitionsNeeded(needed: seq<string>, headers: seq<string>)
    ensures IsSubseq(MissingInCsv(needed, headers), needed)
    ensures forall c :: c in needed ==> (c in headers <==> c !in MissingInCsv(needed, headers))
    ensures forall c :: c in MissingInCsv(needed, headers) <==> c in needed && c !in headers
  {
  }

  /** Each missing name is listed as often as the needed list lists it. */
  lemma MissingCounts(needed: seq<string>, headers: seq<string>)
    ensures forall c :: multiset(MissingInCsv(needed, headers))[c] == if c !in headers then multiset(needed)[c] else 0
  {
    FilterCounts(needed, (c: string) => c !in headers);
  }

  /** The extra names are the header names nobody asked for, in header order. */
  lemma ExtraPartitionsHeaders(needed: seq<string>, headers: seq<string>)
    ensures IsSubseq(ExtraInCsv(needed, headers), headers)
    ensures forall c :: c in headers ==> (c in needed <==> c !in ExtraInCsv(needed, headers))
    ensures forall c :: c in ExtraInCsv(needed, headers) <==> c in headers && c !in needed
  {
  }

  /** Each extra name is listed as often as the header lists it. */
  lemma ExtraCounts(needed: seq<string>, headers: seq<string>)
    ensures forall c :: multiset(ExtraInCsv(needed, headers))[c] == if c !in needed then multiset(headers)[c] else 0
  {
    FilterCounts(headers, (c: string) => c !in needed);
  }

  /** The ERROR line is printed exactly when some needed name is not a
      header, the INFO line exactly when some header is not needed, and the
      ERROR line comes first. */
  lemma ReportLines(needed: seq<string>, headers: seq<string>)
    ensures (exists r :: r in CheckReport(needed, headers) && r.MissingColumns?) <==> exists c :: c in needed && c !in headers
    ensures (exists r :: r in CheckReport(needed, headers) && r.ExtraColumns?) <==> exists c :: c in headers && c !in needed
    ensures |CheckReport(needed, headers)| == 2 ==>
      CheckReport(needed, headers)[0].MissingColumns? && CheckReport(needed, headers)[1].ExtraColumns?
  {
    var missing := MissingInCsv(needed, headers);
    var extra := ExtraInCsv(needed, headers);
    var report := CheckReport(needed, headers);
    HeadIsElement(missing);
    HeadIsElement(extra);
    MissingPartitionsNeeded(needed, headers);
    ExtraPartitionsHeaders(needed, headers);
    assert (exists r :: r in report && r.MissingColumns?) <==> missing != [] by {
      if missing != [] {
        assert report[0] == MissingColumns(missing);
      }
    }
    assert (exists r :: r in report && r.ExtraColumns?) <==> extra != [] by {
      if extra != [] {
        assert report[|report| - 1] == ExtraColumns(extra);
      }
    }
  }

  /** A header holding exactly the needed names, in any order, produces no report. */
  lemma MatchingHeaderIsQuiet(needed: seq<string>, headers: seq<string>)
    requires forall c :: c in needed <==> c in headers
    ensures CheckReport(needed, headers) == []
  {
    FilterNone(needed, (c: string) => c !in headers);
    FilterNone(headers, (c: string) => c !in needed);
  }
}
