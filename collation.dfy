/**
 * Collation of classification results (`analyze_news`): for every labelled
 * group, one request per data row (the header row is skipped), gathered in
 * row order. The request itself is the abstract function `classify`, from
 * (headline, article) to the decoded response.
 */
module Collation {
  import opened Values

  /** Every data row has the two cells a request reads (`row[0]`, `row[1]`). */
  predicate RequestableRows(data: seq<Row>) {
    forall i :: 1 <= i < |data| ==> |data[i]| >= 2
  }

  /** `verdicts` holds, position by position, the verdict of each data row of `data`, in row order. */
  predicate IsCollation(classify: (string, string) -> Verdict, data: seq<Row>, verdicts: seq<Verdict>) {
    && |verdicts| == DataRowCount(data)
    && forall i :: 0 <= i < |verdicts| ==>
         |data[i + 1]| >= 2 && verdicts[i] == classify(data[i + 1][0], data[i + 1][1])
  }

  /** The verdicts of the data rows of `data`, in row order. */
  function Responses(classify: (string, string) -> Verdict, data: seq<Row>): (vs: seq<Verdict>)
    requires RequestableRows(data)
    ensures IsCollation(classify, data, vs)
  {
    seq(DataRowCount(data), i requires 0 <= i < DataRowCount(data) => classify(data[i + 1][0], data[i + 1][1]))
  }

  /** A group has exactly one collation: the responses to its data rows, in row order. */
  lemma CollationUnique(classify: (string, string) -> Verdict, data: seq<Row>, verdicts: seq<Verdict>)
    requires IsCollation(classify, data, verdicts)
    ensures RequestableRows(data)
    ensures verdicts == Responses(classify, data)
  {
    forall i | 1 <= i < |data| ensures |data[i]| >= 2 {
      var k := i - 1;
      assert 0 <= k < |verdicts|;
      var v := verdicts[k];
      assert |data[k + 1]| >= 2;
    }
    var rs := Responses(classify, data);
    forall k | 0 <= k < |verdicts| ensures verdicts[k] == rs[k] {
      var v := verdicts[k];
    }
  }

  /**
   * `analyze_news`: for each label, request every data row and store the
   * responses in row order. A data row with fewer than two cells raises
   * IndexError while the requests are built. The labels are visited in an
   * arbitrary order; the outcome does not depend on it.
   */
  method AnalyzeNews(classify: (string, string) -> Verdict, dataDict: map<string, seq<Row>>)
    returns (res: Result<map<string, seq<Verdict>>>)
    ensures res.Ok? <==> forall group :: group in dataDict ==> RequestableRows(dataDict[group])
    ensures res.Err? ==> res.error == IndexError
    ensures res.Ok? ==> res.value.Keys == dataDict.Keys
    ensures res.Ok? ==>
      forall group :: group in dataDict ==> IsCollation(classify, dataDict[group], res.value[group])
  {
    var output: map<string, seq<Verdict>> := map[];
    var pending := dataDict.Keys;
    while pending != {}
      invariant pending <= dataDict.Keys
      invariant output.Keys == dataDict.Keys - pending
      invariant forall group :: group in output ==>
        RequestableRows(dataDict[group]) && IsCollation(classify, dataDict[group], output[group])
      decreases pending
    {
      var group :| group in pending;
      var data := dataDict[group];
      output := output[group := []];
      // the requests, built (and answered) in row order
      var responses: seq<Verdict> := [];
      var i := 1;
      while i < |data|
        invariant 1 <= i <= |data| || (data == [] && i == 1)
        invariant |responses| == i - 1
        invariant forall k :: 1 <= k < i ==>
          |data[k]| >= 2 && responses[k - 1] == classify(data[k][0], data[k][1])
      {
        var row := data[i];
        if |row| < 2 {
          return Err(IndexError);
        }
        responses := responses + [classify(row[0], row[1])];
        i := i + 1;
      }
      output := output[group := output[group] + responses];
      pending := pending - {group};
    }
    return Ok(output);
  }
}
