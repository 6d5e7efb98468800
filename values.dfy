/**
 * The Python values the evaluation client passes around: JSON scalars from a
 * classification response, CSV cells, verdict dictionaries, merged output
 * records, and the exceptions the client lets escape.
 */
module Values {

  /** A JSON scalar or CSV cell, as far as the client inspects it. */
  datatype Value = Null | Bool(b: bool) | Int(i: int) | Str(s: string)

  /** Python truthiness of a value: `None`, `False`, `0` and `""` are false. */
  predicate Truthy(v: Value) {
    match v
    case Null => false
    case Bool(b) => b
    case Int(i) => i != 0
    case Str(s) => s != ""
  }

  /**
   * One classification response: the decoded JSON dictionary. A successful
   * call holds "PREDICTION" and "JUSTIFICATION"; a failed one holds only
   * "error".
   */
  type Verdict = map<string, Value>

  /** One merged output record (a Python dict). */
  type Record = map<string, Value>

  /** One line of an input file, split into its cells. */
  type Row = seq<string>

  const PredictionKey: string := "PREDICTION"
  const TrueLabelKey: string := "true_label"
  const Trues: string := "trues"
  const Fakes: string := "fakes"

  /** The exceptions the client raises and does not catch. */
  datatype Fault = KeyError(key: string) | IndexError | ZeroDivisionError

  datatype Option<+T> = None | Some(value: T)

  datatype Result<+T> = Ok(value: T) | Err(error: Fault)

  function Min(a: int, b: int): (m: int) {
    if a <= b then a else b
  }

  /** Number of data rows of a file: everything after the header row (`data[1:]`). */
  function DataRowCount(data: seq<Row>): (n: nat)
    ensures n < |data| || (n == 0 && data == [])
  {
    if |data| == 0 then 0 else |data| - 1
  }
}
