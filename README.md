# Fake-news detector client: evaluation core

This project models the batch-evaluation client of a fake-news detector (`client.py`). The client reads two labelled CSV files, "trues" (genuine articles) and "fakes". It sends one classification request per data row and collects the verdicts in row order. It merges every row with its ground-truth label and its verdict into an output record. Finally it computes a confusion matrix, with "fakes" as the positive class, and derives accuracy, precision, recall and F1.

The model has five modules:

- `Values` (`values.dfy`) defines the values the client handles:
  - JSON scalars and CSV cells, with Python truthiness.
  - Verdicts and records, which are Python dicts modelled as `map<string, Value>`.
  - The exceptions the client lets escape: `KeyError`, `IndexError` and `ZeroDivisionError`. They are modelled as `Err` results.
- `Metrics` (`metrics.dfy`) models `analyze_results` as pure functions over exact rationals (`real`), with lemmas about the rates.
- `Collation` (`collation.dfy`) models `analyze_news` as a method. A loop over the labels holds an inner loop over the data rows, and both carry invariants. The HTTP request is an abstract function `classify(headline, article)`.
- `Records` (`records.dfy`) models the row-building loops of `dump_analysis` as a method. The records grow as a sequence.
- `Evaluation` (`evaluation.dfy`) composes the three operations in the order `main` runs them. It proves that record `i` of each group merges data row `i + 1` with that row's own verdict.

Two behaviours of the code that a reader might not expect:

- Accuracy is not guarded, unlike precision, recall and F1 (client.py:85-88). `analyze_results` on two empty groups raises `ZeroDivisionError` (`Metrics.NoVerdicts`). In a full run of `main`, `dump_analysis` runs first and its CSV writer fails on the empty record list (`rows[0]`, client.py:73). The CSV writer is not part of this model.
- A failed request comes back as a dict without `PREDICTION`. `analyze_results` indexes that key and raises `KeyError` (client.py:80-83), so one failed request makes the report fail (`Metrics.AnalyzeResults`, `Evaluation.Evaluate`). The modelled records still hold the error dict. In a full run, the CSV writer raises `ValueError` first, because that record's keys differ from the first record's (client.py:73-76).

## Model

| member | source | states |
|---|---|---|
| `Metrics.Positives` | client.py:80 | the number of verdicts with a truthy PREDICTION never exceeds the number of verdicts |
| `Metrics.Negatives` | client.py:81 | the number of verdicts with a falsy PREDICTION never exceeds the number of verdicts |
| `Metrics.PositivesConcat` | client.py:80 | the positive count of a concatenation is the sum of the counts of its parts, so each verdict contributes exactly its own 0 or 1 |
| `Metrics.PartitionCounts` | client.py:80-83 | every verdict is counted exactly once, as positive or as negative |
| `Metrics.PositivesExtremes` | client.py:80-83 | all verdicts count as positive iff every PREDICTION is truthy, and none do iff every PREDICTION is falsy |
| `Metrics.Tally` | client.py:80-83 | TP + FN is the number of "fakes" verdicts, TN + FP is the number of "trues" verdicts, and the total is the number of all verdicts |
| `Metrics.Accuracy` | client.py:85 | for a nonempty total, accuracy lies in [0, 1] and times the total equals TP + TN |
| `Metrics.Precision` | client.py:86 | precision is 0 when TP + FP = 0; otherwise precision times (TP + FP) equals TP; always in [0, 1] |
| `Metrics.Recall` | client.py:87 | recall is 0 when TP + FN = 0; otherwise recall times (TP + FN) equals TP; always in [0, 1] |
| `Metrics.F1Score` | client.py:88 | F1 is 0 when P + R = 0; otherwise F1 times (P + R) equals 2·P·R |
| `Metrics.HarmonicBetween` | client.py:88 | the harmonic mean of two nonnegative numbers lies between them |
| `Metrics.F1Between` | client.py:88 | for P and R in [0, 1], F1 lies between min(P, R) and max(P, R), and hence in [0, 1] |
| `Metrics.F1ZeroIff` | client.py:88 | for nonnegative P and R, F1 is 0 exactly when P or R is 0 |
| `Metrics.F1FromCounts` | client.py:86-88 | F1 computed from precision and recall equals the reference formula 2TP / (2TP + FP + FN), or 0 when that denominator is 0 |
| `Metrics.RatesFacts` | client.py:85-90 | the report of a nonempty confusion matrix has all four rates in [0, 1], has the zero defaults, has F1 between precision and recall, has F1 = 0 iff P or R is 0, and has F1 = 2TP / (2TP + FP + FN) |
| `Metrics.AnalyzeResults` | client.py:78-90 | succeeds iff both groups exist, every verdict has a PREDICTION and there is at least one verdict; otherwise names the fault in the order the code raises it: KeyError("fakes"), then KeyError("PREDICTION") in fakes, then KeyError("trues"), then KeyError("PREDICTION") in trues, then ZeroDivisionError |
| `Metrics.BalancedExample` | client.py:78-90 | fakes predicted [1, 0] and trues predicted [0, 1] give accuracy = precision = recall = F1 = 0.5 |
| `Metrics.NoFakesGroup` | client.py:86-88 | with an empty "fakes" group and a nonempty "trues" group there is no fault, and precision, recall and F1 are all 0 |
| `Metrics.NoVerdicts` | client.py:85 | with both groups empty, the unguarded accuracy raises ZeroDivisionError |
| `Collation.AnalyzeNews` | client.py:45-52 | succeeds iff every data row of every group has at least two cells (else IndexError); the output has the same labels, and for each label entry i is the verdict of data row i + 1 (header skipped), so there are len(data) − 1 entries in input order |
| `Collation.Responses` | client.py:49-51 | the responses to the data rows of a file whose data rows all have two cells form a collation of it: one verdict per data row, header skipped, in row order |
| `Collation.CollationUnique` | client.py:49-51 | any collation of a file is exactly its sequence of responses, and the file's data rows all have two cells |
| `Records.ZipRecordFacts` | client.py:67 | the zipped row's keys are exactly the first min(len(columns), len(row)) column names, and a repeated column name keeps the value of its last position |
| `Records.MergeRecord` | client.py:64-69 | the record's keys are the zipped columns plus `true_label` plus the verdict's keys; each verdict key keeps the verdict's value; `true_label` holds the group code unless the verdict overrides it; each (last) column not overridden holds its cell |
| `Records.DumpRows` | client.py:59-70 | succeeds iff neither group faults (missing group: KeyError; no header row: IndexError; missing or short verdict list: KeyError/IndexError), with the "trues" fault first; on success there are (len(trues) − 1) + (len(fakes) − 1) records: all "trues" records (code 0) in row order, then all "fakes" records (code 1) in row order |
| `Evaluation.CollatedPredicted` | client.py:49-51 | the collated verdicts of a group all carry a PREDICTION exactly when every data row's response does |
| `Evaluation.CollatedRecords` | client.py:63-70 | when a group's verdicts are its collation, record i merges data row i + 1 with the verdict of that same row |
| `Evaluation.Evaluate` | client.py:100-106 | over the modelled steps (collation, record building, report; the CSV writer is left out): a row with fewer than two cells yields IndexError; otherwise a file with no header row yields IndexError, then a response without PREDICTION yields KeyError("PREDICTION"), then no data row at all yields ZeroDivisionError; on success the records pair each data row with its own verdict (trues first, code 0; then fakes, code 1), the report is the rates of the counts over the responses to all data rows, and every rate lies in [0, 1] with F1 between precision and recall |

## Left out

- `request_api` (client.py:26-43) is an HTTP call with a 30-second timeout, and it maps exceptions to `{"error": ...}` dicts. In the model it is the parameter `classify`, which may return any dict, including an error dict. Because `classify` is a function, two data rows with the same headline and article always get the same verdict. The real request can answer them differently, for example when one of them times out.
- The concurrency of `asyncio.gather` (client.py:50) is not modelled. Only its guarantee that results come back in request order is kept, and requests are made one after another.
- `analyze_news` visits the dict's labels in insertion order; `AnalyzeNews` visits them in an arbitrary order. Its contract determines the result, so the order makes no difference.
- `read_txt` (client.py:21-24) and the CSV writing in `dump_analysis` (client.py:55-57, 72-76) are file I/O through the `csv` library. They include the full quoting and the header taken from the first record's keys. As a consequence, the writer raises `IndexError` when there are no records. It raises `ValueError` when a later record has a key the first one lacks, such as an error verdict's `error` key. Neither fault is modelled.
- Python dicts keep key order, which fixes the CSV column order; Dafny maps have no order, so the records do not model key order.
- `main`'s file paths, the timing code and the `print` calls (client.py:92-114) are I/O. `Evaluate` takes the rows that `read_txt` would return.
- `src/analysis.py` (the language-model call, prompt, tool schema and logging) and `app.py` (the HTTP route) are foreign services. They are represented only by `classify`.
- The rates are exact rationals, not IEEE floats, so rounding is not modelled. Python's precision and recall fall back to the integer `0`, not `0.0`, and the model does not keep that distinction. JSON floats, lists and objects are not among the modelled values.
- Evaluation.Evaluate: its success and fault statements cover the modelled steps only. In a full run of `main`, the CSV writer faults above (no records; a record whose keys differ from the first record's) come before `analyze_results`.
