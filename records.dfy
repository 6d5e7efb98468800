/**
 * The output records of `dump_analysis`: each data row zipped with the
 * header, tagged with its ground-truth label and overlaid with its verdict;
 * "trues" records first, then "fakes" records, each group in row order.
 */
module Records {
  import opened Values

  /** Ground-truth code of each group (`int_label`). */
  const IntLabel: map<string, int> := map[Trues := 0, Fakes := 1]

  /** Among the first `n` columns, position `k` is the last one carrying its name. */
  predicate LastOccurrence(columns: seq<string>, n: nat, k: nat)
    requires k < n <= |columns|
  {
    forall j :: k < j < n ==> columns[j] != columns[k]
  }

  /** `{col: val for col, val in zip(columns, values)}`, built left to right. */
  function ZipRecord(columns: seq<string>, values: seq<string>): (r: Record)
    decreases Min(|columns|, |values|)
  {
    var n := Min(|columns|, |values|);
    if n == 0 then map[]
    else ZipRecord(columns[..n - 1], values[..n - 1])[columns[n - 1] := Str(values[n - 1])]
  }

  /**
   * Only the first `min(|columns|, |values|)` positions are paired, and a
   * repeated column name keeps the value of its last position.
   */
  lemma {:induction false} ZipRecordFacts(columns: seq<string>, values: seq<string>)
    ensures var n := Min(|columns|, |values|);
      && ZipRecord(columns, values).Keys == (set k | 0 <= k < n :: columns[k])
      && forall k :: 0 <= k < n && LastOccurrence(columns, n, k) ==>
           ZipRecord(columns, values)[columns[k]] == Str(values[k])
    decreases Min(|columns|, |values|)
  {
    var n := Min(|columns|, |values|);
    if n > 0 {
      var cs, vs := columns[..n - 1], values[..n - 1];
      assert Min(|cs|, |vs|) == n - 1;
      ZipRecordFacts(cs, vs);
      var r := ZipRecord(columns, values);
      assert r == ZipRecord(cs, vs)[columns[n - 1] := Str(values[n - 1])];
      var before := set k | 0 <= k < n - 1 :: cs[k];
      var after := set k | 0 <= k < n :: columns[k];
      forall key | key in after ensures key in before + {columns[n - 1]} {
        var k :| 0 <= k < n && columns[k] == key;
        if k < n - 1 {
          assert cs[k] == key;
        }
      }
      forall key | key in before ensures key in after {
        var k :| 0 <= k < n - 1 && cs[k] == key;
        assert columns[k] == key;
      }
      assert r.Keys == after;
      forall k | 0 <= k < n && LastOccurrence(columns, n, k) ensures r[columns[k]] == Str(values[k]) {
        if k < n - 1 {
          assert columns[k] != columns[n - 1];
          assert LastOccurrence(cs, n - 1, k);
        }
      }
    }
  }

  /**
   * One output record: the zipped row, then `true_label` set to the group's
   * code, then every key of the verdict written over it (`dict.update`).
   */
  function MergeRecord(columns: seq<string>, values: seq<string>, verdict: Verdict, code: int): (r: Record)
    ensures r.Keys == (set k | 0 <= k < Min(|columns|, |values|) :: columns[k]) + {TrueLabelKey} + verdict.Keys
    ensures forall key :: key in verdict ==> r[key] == verdict[key]
    ensures TrueLabelKey !in verdict ==> r[TrueLabelKey] == Int(code)
    ensures forall k ::
      (&& 0 <= k < Min(|columns|, |values|)
       && LastOccurrence(columns, Min(|columns|, |values|), k)
       && columns[k] != TrueLabelKey && columns[k] !in verdict)
      ==> r[columns[k]] == Str(values[k])
  {
    ZipRecordFacts(columns, values);
    ZipRecord(columns, values)[TrueLabelKey := Int(code)] + verdict
  }

  /**
   * What building the records of group `group` raises, if anything: a missing
   * group (KeyError), a file without a header row (IndexError), and, once
   * there is a data row, a missing verdict list (KeyError) or a verdict list
   * shorter than the data rows (IndexError).
   */
  function GroupFault(group: string, dataDict: map<string, seq<Row>>, news: map<string, seq<Verdict>>): (fault: Option<Fault>) {
    if group !in dataDict then Some(KeyError(group))
    else if |dataDict[group]| == 0 then Some(IndexError)
    else if |dataDict[group]| == 1 then None
    else if group !in news then Some(KeyError(group))
    else if |news[group]| < |dataDict[group]| - 1 then Some(IndexError)
    else None
  }

  /**
   * `rs` are the records of group `group`, in row order: record `i` merges
   * data row `i + 1` (after the header) with verdict `i` of the group.
   */
  predicate EmittedGroup(rs: seq<Record>, group: string, code: int,
                         dataDict: map<string, seq<Row>>, news: map<string, seq<Verdict>>)
  {
    && group in dataDict && |dataDict[group]| >= 1
    && |rs| == |dataDict[group]| - 1
    && forall i :: 0 <= i < |rs| ==>
         && group in news && i < |news[group]|
         && rs[i] == MergeRecord(dataDict[group][0], dataDict[group][i + 1], news[group][i], code)
  }

  /**
   * The row-building part of `dump_analysis`: the "trues" group, then the
   * "fakes" group, one record per data row, appended in row order.
   */
  method DumpRows(dataDict: map<string, seq<Row>>, news: map<string, seq<Verdict>>)
    returns (res: Result<seq<Record>>)
    ensures res.Ok? <==> GroupFault(Trues, dataDict, news).None? && GroupFault(Fakes, dataDict, news).None?
    ensures GroupFault(Trues, dataDict, news).Some? ==> res == Err(GroupFault(Trues, dataDict, news).value)
    ensures GroupFault(Trues, dataDict, news).None? && GroupFault(Fakes, dataDict, news).Some?
      ==> res == Err(GroupFault(Fakes, dataDict, news).value)
    ensures res.Ok? ==>
      var nTrues := |dataDict[Trues]| - 1;
      && |res.value| == nTrues + (|dataDict[Fakes]| - 1)
      && EmittedGroup(res.value[..nTrues], Trues, 0, dataDict, news)
      && EmittedGroup(res.value[nTrues..], Fakes, 1, dataDict, news)
  {
    var labels := [Trues, Fakes];
    assert IntLabel[Trues] == 0 && IntLabel[Fakes] == 1;
    var rows: seq<Record> := [];
    for g := 0 to |labels|
      invariant g == 0 ==> rows == []
      invariant g >= 1 ==> GroupFault(Trues, dataDict, news).None?
      invariant g == 1 ==> EmittedGroup(rows, Trues, 0, dataDict, news)
      invariant g == 2 ==> GroupFault(Fakes, dataDict, news).None?
      invariant g == 2 ==> |dataDict[Trues]| - 1 <= |rows|
      invariant g == 2 ==> EmittedGroup(rows[..|dataDict[Trues]| - 1], Trues, 0, dataDict, news)
      invariant g == 2 ==> EmittedGroup(rows[|dataDict[Trues]| - 1..], Fakes, 1, dataDict, news)
    {
      var group := labels[g];
      if group !in dataDict {
        return Err(KeyError(group));
      }
      if |dataDict[group]| == 0 {
        return Err(IndexError);
      }
      var columns := dataDict[group][0];
      var data := dataDict[group][1..];
      ghost var start := rows;
      for i := 0 to |data|
        invariant |rows| == |start| + i
        invariant rows[..|start|] == start
        invariant i > 0 ==> group in news && i <= |news[group]|
        invariant forall k :: 0 <= k < i ==>
          && group in news && k < |news[group]|
          && rows[|start| + k] == MergeRecord(columns, data[k], news[group][k], IntLabel[group])
      {
        if group !in news {
          return Err(KeyError(group));
        }
        if i >= |news[group]| {
          return Err(IndexError);
        }
        var analysis := news[group][i];
        var row := ZipRecord(columns, data[i]);
        row := row[TrueLabelKey := Int(IntLabel[group])];
        row := row + analysis;
        rows := rows + [row];
      }
      assert GroupFault(group, dataDict, news).None?;
      forall k | 0 <= k < |data| ensures rows[|start|..][k] == rows[|start| + k] && data[k] == dataDict[group][k + 1] {
      }
      assert EmittedGroup(rows[|start|..], group, IntLabel[group], dataDict, news);
      assert rows[..|start|] == start;
    }
    return Ok(rows);
  }
}
