/**
 * The evaluation run of the client: collate the verdicts of both labelled
 * files, build the merged output records and compute the report. Reading the
 * files, writing the CSV file and printing are not part of this model.
 */
module Evaluation {
  import opened Values
  import opened Metrics
  import opened Collation
  import opened Records

  /** Every data row can be requested, and its response carries a PREDICTION. */
  predicate PredictedRows(classify: (string, string) -> Verdict, rows: seq<Row>) {
    forall i :: 1 <= i < |rows| ==> |rows[i]| >= 2 && HasPrediction(classify(rows[i][0], rows[i][1]))
  }

  /** The collated verdicts of a group all carry a PREDICTION exactly when its rows are all predicted. */
  lemma CollatedPredicted(classify: (string, string) -> Verdict, rows: seq<Row>, verdicts: seq<Verdict>)
    requires IsCollation(classify, rows, verdicts)
    ensures AllPredicted(verdicts) <==> PredictedRows(classify, rows)
  {
    forall i | 1 <= i < |rows|
      ensures |rows[i]| >= 2 && verdicts[i - 1] == classify(rows[i][0], rows[i][1])
    {
      var k := i - 1;
      assert 0 <= k < |verdicts|;
      var v := verdicts[k];
      assert |rows[k + 1]| >= 2 && v == classify(rows[k + 1][0], rows[k + 1][1]);
    }
  }

  /** Record `i` of `rs` merges data row `i + 1` of `rows` with that row's own verdict. */
  predicate PairedAt(rs: seq<Record>, classify: (string, string) -> Verdict, rows: seq<Row>, code: int, i: int)
    requires 0 <= i < |rs| && i + 1 < |rows|
  {
    |rows[i + 1]| >= 2 && rs[i] == MergeRecord(rows[0], rows[i + 1], classify(rows[i + 1][0], rows[i + 1][1]), code)
  }

  /** `rs` holds, in row order, the record of each data row of `rows` merged with that row's own verdict. */
  predicate PairsRows(rs: seq<Record>, classify: (string, string) -> Verdict, rows: seq<Row>, code: int) {
    && |rows| >= 1 && |rs| == |rows| - 1
    && forall i :: 0 <= i < |rs| ==> PairedAt(rs, classify, rows, code, i)
  }

  /** The records of a collated group pair each data row with the verdict of that same row. */
  lemma CollatedRecords(classify: (string, string) -> Verdict, rs: seq<Record>, group: string, code: int,
                        dataDict: map<string, seq<Row>>, news: map<string, seq<Verdict>>)
    requires EmittedGroup(rs, group, code, dataDict, news)
    requires group in news && IsCollation(classify, dataDict[group], news[group])
    ensures PairsRows(rs, classify, dataDict[group], code)
  {
    var rows, verdicts := dataDict[group], news[group];
    forall i | 0 <= i < |rs| ensures PairedAt(rs, classify, rows, code, i) {
      assert rs[i] == MergeRecord(rows[0], rows[i + 1], verdicts[i], code);
      assert |rows[i + 1]| >= 2 && verdicts[i] == classify(rows[i + 1][0], rows[i + 1][1]);
    }
  }

  /**
   * The report `analyze_results` computes from the responses to the data rows
   * of both files, when every response carries a PREDICTION.
   */
  function ExpectedReport(classify: (string, string) -> Verdict, trueRows: seq<Row>, fakeRows: seq<Row>): (rep: Report)
    requires PredictedRows(classify, trueRows) && PredictedRows(classify, fakeRows)
    requires |trueRows| >= 1 && |fakeRows| >= 1 && |trueRows| + |fakeRows| > 2
  {
    var trues, fakes := Responses(classify, trueRows), Responses(classify, fakeRows);
    CollatedPredicted(classify, trueRows, trues);
    CollatedPredicted(classify, fakeRows, fakes);
    Rates(Tally(fakes, trues))
  }

  /** What a completed run produces: the rows of the output file and the report. */
  datatype Outcome = Outcome(records: seq<Record>, report: Report)

  /**
   * The data flow of `main`: `analyze_news`, then the records of
   * `dump_analysis`, then `analyze_results`, on the two files read as
   * "trues" and "fakes".
   */
  method Evaluate(classify: (string, string) -> Verdict, trueRows: seq<Row>, fakeRows: seq<Row>)
    returns (res: Result<Outcome>)
    ensures res.Ok? <==>
      && |trueRows| >= 1 && |fakeRows| >= 1 && |trueRows| + |fakeRows| > 2
      && PredictedRows(classify, trueRows) && PredictedRows(classify, fakeRows)
    ensures !(RequestableRows(trueRows) && RequestableRows(fakeRows)) ==> res == Err(IndexError)
    ensures RequestableRows(trueRows) && RequestableRows(fakeRows) && (|trueRows| == 0 || |fakeRows| == 0)
      ==> res == Err(IndexError)
    ensures && RequestableRows(trueRows) && RequestableRows(fakeRows) && |trueRows| >= 1 && |fakeRows| >= 1
            && !(PredictedRows(classify, trueRows) && PredictedRows(classify, fakeRows))
      ==> res == Err(KeyError(PredictionKey))
    ensures |trueRows| == 1 && |fakeRows| == 1 ==> res == Err(ZeroDivisionError)
    ensures res.Ok? ==>
      var nTrues, records := |trueRows| - 1, res.value.records;
      && |records| == nTrues + (|fakeRows| - 1)
      && PairsRows(records[..nTrues], classify, trueRows, 0)
      && PairsRows(records[nTrues..], classify, fakeRows, 1)
    ensures res.Ok? ==> res.value.report == ExpectedReport(classify, trueRows, fakeRows)
    ensures res.Ok? ==>
      var rep := res.value.report;
      && 0.0 <= rep.accuracy <= 1.0 && 0.0 <= rep.precision <= 1.0 && 0.0 <= rep.recall <= 1.0
      && (if rep.precision <= rep.recall then rep.precision else rep.recall) <= rep.f1
      && rep.f1 <= (if rep.precision <= rep.recall then rep.recall else rep.precision)
  {
    var dataDict := map[Trues := trueRows, Fakes := fakeRows];
    assert Trues != Fakes by { assert Trues[0] != Fakes[0]; }
    var collated := AnalyzeNews(classify, dataDict);
    if collated.Err? {
      return Err(collated.error);
    }
    var news := collated.value;
    assert IsCollation(classify, trueRows, news[Trues]) && IsCollation(classify, fakeRows, news[Fakes]);
    var dumped := DumpRows(dataDict, news);
    if dumped.Err? {
      return Err(dumped.error);
    }
    CollationUnique(classify, trueRows, news[Trues]);
    CollationUnique(classify, fakeRows, news[Fakes]);
    var analysed := AnalyzeResults(news);
    CollatedPredicted(classify, trueRows, news[Trues]);
    CollatedPredicted(classify, fakeRows, news[Fakes]);
    if analysed.Err? {
      return Err(analysed.error);
    }
    RatesFacts(Tally(news[Fakes], news[Trues]));
    var records := dumped.value;
    var nTrues := |trueRows| - 1;
    CollatedRecords(classify, records[..nTrues], Trues, 0, dataDict, news);
    CollatedRecords(classify, records[nTrues..], Fakes, 1, dataDict, news);
    return Ok(Outcome(records, analysed.value));
  }
}
