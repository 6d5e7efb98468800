/**
 * Confusion-matrix evaluation of the collected verdicts (`analyze_results`).
 * The "fakes" group is the positive class. Rates are exact rationals.
 */
module Metrics {
  import opened Values

  /** The verdict carries the key the counting indexes. */
  predicate HasPrediction(v: Verdict) {
    PredictionKey in v
  }

  predicate AllPredicted(vs: seq<Verdict>) {
    forall i :: 0 <= i < |vs| ==> HasPrediction(vs[i])
  }

  /** A verdict predicts "fake" exactly when its PREDICTION is truthy. */
  predicate PredictsFake(v: Verdict)
    requires HasPrediction(v)
  {
    Truthy(v[PredictionKey])
  }

  /** `len([1 for analysis in vs if analysis["PREDICTION"]])` */
  function Positives(vs: seq<Verdict>): (n: nat)
    requires AllPredicted(vs)
    ensures n <= |vs|
  {
    if vs == [] then 0
    else Positives(vs[..|vs| - 1]) + (if PredictsFake(vs[|vs| - 1]) then 1 else 0)
  }

  /** `len([1 for analysis in vs if not analysis["PREDICTION"]])` */
  function Negatives(vs: seq<Verdict>): (n: nat)
    requires AllPredicted(vs)
    ensures n <= |vs|
  {
    if vs == [] then 0
    else Negatives(vs[..|vs| - 1]) + (if PredictsFake(vs[|vs| - 1]) then 0 else 1)
  }

  /** Every verdict is counted exactly once, as positive or as negative. */
  lemma {:induction false} PartitionCounts(vs: seq<Verdict>)
    requires AllPredicted(vs)
    ensures Positives(vs) + Negatives(vs) == |vs|
  {
    if vs != [] {
      PartitionCounts(vs[..|vs| - 1]);
    }
  }

  /** All verdicts are counted positive exactly when all predict "fake", and none exactly when none do. */
  lemma {:induction false} PositivesExtremes(vs: seq<Verdict>)
    requires AllPredicted(vs)
    ensures Positives(vs) == |vs| <==> forall i :: 0 <= i < |vs| ==> PredictsFake(vs[i])
    ensures Positives(vs) == 0 <==> forall i :: 0 <= i < |vs| ==> !PredictsFake(vs[i])
  {
    if vs != [] {
      var init := vs[..|vs| - 1];
      PositivesExtremes(init);
      assert forall i :: 0 <= i < |init| ==> init[i] == vs[i];
    }
  }

  /**
   * Counting is additive: each verdict contributes its own 0 or 1 to the
   * positives, wherever it sits in the list.
   */
  lemma {:induction false} PositivesConcat(a: seq<Verdict>, b: seq<Verdict>)
    requires AllPredicted(a) && AllPredicted(b)
    ensures AllPredicted(a + b)
    ensures Positives(a + b) == Positives(a) + Positives(b)
    decreases |b|
  {
    if b == [] {
      assert a + b == a;
    } else {
      var init := b[..|b| - 1];
      assert (a + b)[..|a + b| - 1] == a + init;
      PositivesConcat(a, init);
    }
  }

  /** The four counts of the confusion matrix. */
  datatype Confusion = Confusion(tp: nat, fn: nat, tn: nat, fp: nat)

  /** `TP + FN + TN + FP`, the number of verdicts counted. */
  function Total(c: Confusion): (n: nat) {
    c.tp + c.fn + c.tn + c.fp
  }

  /** Counts over the two groups; faults are ruled out by the caller. */
  function Tally(fakes: seq<Verdict>, trues: seq<Verdict>): (c: Confusion)
    requires AllPredicted(fakes) && AllPredicted(trues)
    ensures c.tp + c.fn == |fakes|
    ensures c.tn + c.fp == |trues|
    ensures Total(c) == |fakes| + |trues|
  {
    PartitionCounts(fakes);
    PartitionCounts(trues);
    Confusion(Positives(fakes), Negatives(fakes), Negatives(trues), Positives(trues))
  }

  /** `(TP + TN) / (TP + TN + FP + FN)`, with no guard against a zero total. */
  function Accuracy(c: Confusion): (r: real)
    requires Total(c) > 0
    ensures 0.0 <= r <= 1.0
    ensures r * (Total(c) as real) == (c.tp + c.tn) as real
  {
    (c.tp + c.tn) as real / Total(c) as real
  }

  /** `TP / (TP + FP)`, or 0 when nothing was predicted positive. */
  function Precision(c: Confusion): (r: real)
    ensures 0.0 <= r <= 1.0
    ensures c.tp + c.fp == 0 ==> r == 0.0
    ensures c.tp + c.fp != 0 ==> r * ((c.tp + c.fp) as real) == c.tp as real
  {
    if c.tp + c.fp != 0 then c.tp as real / (c.tp + c.fp) as real else 0.0
  }

  /** `TP / (TP + FN)`, or 0 when there is no positive example. */
  function Recall(c: Confusion): (r: real)
    ensures 0.0 <= r <= 1.0
    ensures c.tp + c.fn == 0 ==> r == 0.0
    ensures c.tp + c.fn != 0 ==> r * ((c.tp + c.fn) as real) == c.tp as real
  {
    if c.tp + c.fn != 0 then c.tp as real / (c.tp + c.fn) as real else 0.0
  }

  /** `2 * P * R / (P + R)`, or 0 when `P + R` is 0. */
  function F1Score(p: real, r: real): (f: real)
    ensures p + r == 0.0 ==> f == 0.0
    ensures p + r != 0.0 ==> f * (p + r) == 2.0 * p * r
  {
    if p + r != 0.0 then (2.0 * p * r) / (p + r) else 0.0
  }

  /** Dividing both sides of an inequality by a positive factor. */
  lemma CancelPositive(x: real, y: real, s: real)
    requires s > 0.0 && x * s <= y * s
    ensures x <= y
  {
  }

  /** A product of two nonnegative numbers is nonnegative. */
  lemma MulNonnegative(x: real, y: real)
    requires 0.0 <= x && 0.0 <= y
    ensures 0.0 <= x * y
  {
  }

  /** The harmonic mean of two nonnegative numbers lies between them. */
  lemma HarmonicBetween(lo: real, hi: real)
    requires 0.0 <= lo <= hi && lo + hi != 0.0
    ensures lo <= F1Score(lo, hi) <= hi
  {
    var s, f := lo + hi, F1Score(lo, hi);
    assert f * s == 2.0 * lo * hi;
    var gapLo, gapHi := lo * (hi - lo), hi * (hi - lo);
    MulNonnegative(lo, hi - lo);
    MulNonnegative(hi, hi - lo);
    assert f * s == lo * s + gapLo;
    assert hi * s == f * s + gapHi;
    CancelPositive(lo, f, s);
    CancelPositive(f, hi, s);
  }

  /** For rates in [0, 1], F1 lies between the two, hence in [0, 1]. */
  lemma F1Between(p: real, r: real)
    requires 0.0 <= p <= 1.0 && 0.0 <= r <= 1.0
    ensures var f := F1Score(p, r);
      && (if p <= r then p else r) <= f <= (if p <= r then r else p)
      && 0.0 <= f <= 1.0
  {
    if p + r != 0.0 {
      if p <= r {
        HarmonicBetween(p, r);
      } else {
        assert F1Score(p, r) == F1Score(r, p);
        HarmonicBetween(r, p);
      }
    }
  }

  /** F1 is 0 exactly when precision or recall is 0. */
  lemma F1ZeroIff(p: real, r: real)
    requires 0.0 <= p && 0.0 <= r
    ensures F1Score(p, r) == 0.0 <==> p == 0.0 || r == 0.0
  {
  }

  /**
   * Computed from the counts, F1 equals `2TP / (2TP + FP + FN)` (0 when that
   * denominator is 0): the reference definition of the F1 score.
   */
  lemma F1FromCounts(c: Confusion)
    ensures var d := 2 * c.tp + c.fp + c.fn;
      F1Score(Precision(c), Recall(c)) == if d == 0 then 0.0 else (2 * c.tp) as real / d as real
  {
    var p, r := Precision(c), Recall(c);
    if c.tp != 0 {
      // with a = TP + FP and b = TP + FN: P·a = R·b = TP
      var t := c.tp as real;
      var a, b := (c.tp + c.fp) as real, (c.tp + c.fn) as real;
      var f := F1Score(p, r);
      assert p * a == t && r * b == t && p > 0.0 && r > 0.0;
      calc {
        f * t * (a + b);
        f * (p + r) * (a * b);
        2.0 * (p * a) * (r * b);
        2.0 * t * t;
      }
    }
  }

  /** The report `analyze_results` returns. */
  datatype Report = Report(accuracy: real, precision: real, recall: real, f1: real)

  /** The four rates of a nonempty confusion matrix. */
  function Rates(c: Confusion): (rep: Report)
    requires Total(c) > 0
  {
    Report(Accuracy(c), Precision(c), Recall(c), F1Score(Precision(c), Recall(c)))
  }

  /** What holds of the report of any nonempty confusion matrix. */
  lemma RatesFacts(c: Confusion)
    requires Total(c) > 0
    ensures var rep := Rates(c);
      && 0.0 <= rep.accuracy <= 1.0 && rep.accuracy * (Total(c) as real) == (c.tp + c.tn) as real
      && 0.0 <= rep.precision <= 1.0 && 0.0 <= rep.recall <= 1.0
      && (c.tp + c.fp == 0 ==> rep.precision == 0.0)
      && (c.tp + c.fn == 0 ==> rep.recall == 0.0)
      && 0.0 <= rep.f1 <= 1.0
      && (if rep.precision <= rep.recall then rep.precision else rep.recall) <= rep.f1
      && rep.f1 <= (if rep.precision <= rep.recall then rep.recall else rep.precision)
      && (rep.f1 == 0.0 <==> rep.precision == 0.0 || rep.recall == 0.0)
      && var d := 2 * c.tp + c.fp + c.fn;
         rep.f1 == if d == 0 then 0.0 else (2 * c.tp) as real / d as real
  {
    var p, r := Precision(c), Recall(c);
    F1Between(p, r);
    F1ZeroIff(p, r);
    F1FromCounts(c);
  }

  /**
   * `analyze_results`: count TP/FN over "fakes" and TN/FP over "trues", then
   * derive the rates. A missing group raises KeyError on the label, a verdict
   * without PREDICTION (an error response) raises KeyError("PREDICTION"), and
   * an empty total raises ZeroDivisionError; fakes are counted before trues.
   */
  function AnalyzeResults(news: map<string, seq<Verdict>>): (res: Result<Report>)
    ensures res.Ok? <==>
      && Fakes in news && Trues in news
      && AllPredicted(news[Fakes]) && AllPredicted(news[Trues])
      && |news[Fakes]| + |news[Trues]| > 0
    ensures Fakes !in news ==> res == Err(KeyError(Fakes))
    ensures Fakes in news && !AllPredicted(news[Fakes]) ==> res == Err(KeyError(PredictionKey))
    ensures Fakes in news && AllPredicted(news[Fakes]) && Trues !in news ==> res == Err(KeyError(Trues))
    ensures Fakes in news && AllPredicted(news[Fakes]) && Trues in news && !AllPredicted(news[Trues])
      ==> res == Err(KeyError(PredictionKey))
    ensures Fakes in news && Trues in news && |news[Fakes]| + |news[Trues]| == 0 ==> res == Err(ZeroDivisionError)
    ensures res.Ok? ==> res.value == Rates(Tally(news[Fakes], news[Trues]))
  {
    if Fakes !in news then Err(KeyError(Fakes))
    else if !AllPredicted(news[Fakes]) then Err(KeyError(PredictionKey))
    else if Trues !in news then Err(KeyError(Trues))
    else if !AllPredicted(news[Trues]) then Err(KeyError(PredictionKey))
    // TP + TN + FP + FN is the number of verdicts (Tally's partition facts)
    else if |news[Fakes]| + |news[Trues]| == 0 then Err(ZeroDivisionError)
    else Ok(Rates(Tally(news[Fakes], news[Trues])))
  }

  /** The worked example: one hit and one miss in each group gives 0.5 for every rate. */
  lemma BalancedExample()
    ensures
      var one, zero := map[PredictionKey := Int(1)], map[PredictionKey := Int(0)];
      AnalyzeResults(map[Fakes := [one, zero], Trues := [zero, one]])
        == Ok(Report(0.5, 0.5, 0.5, 0.5))
  {
    var one, zero := map[PredictionKey := Int(1)], map[PredictionKey := Int(0)];
    var fakes, trues := [one, zero], [zero, one];
    assert fakes[..1] == [one] && trues[..1] == [zero];
    assert [one][..0] == [] && [zero][..0] == [];
    assert Negatives([one]) == 0 && Negatives([zero]) == 1;
    assert !PredictsFake(fakes[1]) && fakes[..|fakes| - 1] == [one];
    assert Negatives(fakes) == Negatives([one]) + 1;
    assert Positives(fakes) == 1 && Negatives(fakes) == 1;
    assert PredictsFake(trues[1]) && trues[..|trues| - 1] == [zero];
    assert Negatives(trues) == Negatives([zero]);
    assert Positives(trues) == 1 && Negatives(trues) == 1;
  }

  /**
   * One empty group does not fault: with no "fakes" verdicts there is no true
   * positive, so precision, recall and F1 take their zero defaults.
   */
  lemma NoFakesGroup(trues: seq<Verdict>)
    requires AllPredicted(trues) && |trues| > 0
    ensures var res := AnalyzeResults(map[Fakes := [], Trues := trues]);
      && res.Ok?
      && res.value.precision == 0.0 && res.value.recall == 0.0 && res.value.f1 == 0.0
  {
  }

  /** With no verdict at all, the unguarded accuracy divides by zero. */
  lemma NoVerdicts()
    ensures AnalyzeResults(map[Fakes := [], Trues := []]) == Err(ZeroDivisionError)
  {
  }
}
