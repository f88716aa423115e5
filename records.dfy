/** The scanner's decoded `results` records, and the reading of one record
    into the five texts the report interpolates (generate_html_report.py:11, 35-39). */
module Records {
  import opened Wrappers
  import Decimal

  /** A scalar JSON value as Python holds it after decoding. */
  datatype Scalar = Str(s: string) | Int(i: int) | Bool(b: bool) | Null

  /** The `extra` object: only the keys the report reads. */
  datatype Extra = Extra(severity: Option<Scalar>, message: Option<Scalar>)

  /** The `start` object: only its `line` key. */
  datatype Start = Start(line: Option<Scalar>)

  /** One element of `results`; `None` is a key absent from the object. */
  datatype Record = Record(
    checkId: Option<Scalar>,
    path: Option<Scalar>,
    start: Option<Start>,
    extra: Option<Extra>)

  /** The decoded report document; `results` may be absent. */
  datatype Report = Report(results: Option<seq<Record>>)

  /** The keys the report indexes directly, in the order it indexes them. */
  datatype Key = CheckIdKey | PathKey | StartKey | LineKey | ExtraKey

  /** One finding with every interpolated field already turned into text. */
  datatype Finding = Finding(severity: string, checkId: string, path: string, line: string, message: string)

  /** `data.get("results", [])`. */
  function ResultsOf(report: Report): seq<Record> {
    match report.results
    case None => []
    case Some(rs) => rs
  }

  /** Python's `str(v)`, which an f-string applies to an interpolated value. */
  function Show(v: Scalar): string {
    match v
    case Str(s) => s
    case Int(i) => Decimal.IntToString(i)
    case Bool(b) => if b then "True" else "False"
    case Null => "None"
  }

  /** `r.get("extra", {}).get("severity", "INFO")`, as text. */
  function SeverityText(r: Record): string {
    if r.extra.Some? && r.extra.value.severity.Some? then Show(r.extra.value.severity.value) else "INFO"
  }

  /** `e.get('message', '')`, as text. */
  function MessageText(e: Extra): string {
    if e.message.Some? then Show(e.message.value) else ""
  }

  /** Position of a key in the order the report indexes it. */
  function Rank(k: Key): nat {
    match k
    case CheckIdKey => 0
    case PathKey => 1
    case StartKey => 2
    case LineKey => 3
    case ExtraKey => 4
  }

  /** Whether indexing `k` on `r` succeeds (`line` is looked up inside `start`). */
  predicate Has(r: Record, k: Key) {
    match k
    case CheckIdKey => r.checkId.Some?
    case PathKey => r.path.Some?
    case StartKey => r.start.Some?
    case LineKey => r.start.Some? && r.start.value.line.Some?
    case ExtraKey => r.extra.Some?
  }

  /** A record every direct index of the report succeeds on. */
  predicate Complete(r: Record) {
    Has(r, CheckIdKey) && Has(r, PathKey) && Has(r, StartKey) && Has(r, LineKey) && Has(r, ExtraKey)
  }

  /** Reads one record the way lines 35-39 do: the severity lookup never fails,
      then `check_id`, `path`, `start`, `line` and `extra` are indexed in that
      order and the first absent one is the key the lookup fails on. */
  function Normalize(r: Record): (res: Result<Finding, Key>)
    ensures res.Ok? <==> Complete(r)
    ensures res.Err? ==> !Has(r, res.error) && forall k: Key :: Rank(k) < Rank(res.error) ==> Has(r, k)
    ensures res.Ok? ==> res.value.severity == SeverityText(r)
    ensures res.Ok? ==>
      && r.checkId.Some? && r.path.Some? && r.start.Some? && r.start.value.line.Some? && r.extra.Some?
      && res.value.checkId == Show(r.checkId.value)
      && res.value.path == Show(r.path.value)
      && res.value.line == Show(r.start.value.line.value)
      && res.value.message == MessageText(r.extra.value)
  {
    var severity := SeverityText(r);
    if r.checkId.None? then Err(CheckIdKey)
    else if r.path.None? then Err(PathKey)
    else if r.start.None? then Err(StartKey)
    else if r.start.value.line.None? then Err(LineKey)
    else if r.extra.None? then Err(ExtraKey)
    else Ok(Finding(severity, Show(r.checkId.value), Show(r.path.value),
                    Show(r.start.value.line.value), MessageText(r.extra.value)))
  }

  /** The severity falls back to "INFO" when `extra` or its `severity` is
      missing, and is otherwise the value's text unchanged, whatever it is;
      the message falls back to "" when `extra` has no `message`. */
  lemma FieldDefaults(r: Record)
    ensures r.extra.None? ==> SeverityText(r) == "INFO"
    ensures r.extra.Some? && r.extra.value.severity.None? ==> SeverityText(r) == "INFO"
    ensures forall s: string :: r.extra.Some? && r.extra.value.severity == Some(Str(s)) ==> SeverityText(r) == s
    ensures r.extra.Some? && r.extra.value.message.None? ==> MessageText(r.extra.value) == ""
    ensures forall s: string :: r.extra.Some? && r.extra.value.message == Some(Str(s)) ==> MessageText(r.extra.value) == s
  {
  }

  /** A record without `extra` gets a severity but is still refused, at the
      `extra` index of the message step if nothing before it is missing. */
  lemma MissingExtraFails(r: Record)
    requires r.extra.None?
    ensures SeverityText(r) == "INFO"
    ensures Normalize(r).Err?
    ensures Has(r, CheckIdKey) && Has(r, PathKey) && Has(r, LineKey) ==> Normalize(r) == Err(ExtraKey)
  {
  }

  /** Proof helper: a complete record reads as its five texts (the success
      case of Normalize's contract, as one equation). */
  lemma NormalizeComplete(r: Record)
    requires Complete(r)
    ensures Normalize(r) == Ok(Finding(SeverityText(r), Show(r.checkId.value), Show(r.path.value),
                                       Show(r.start.value.line.value), MessageText(r.extra.value)))
  {
  }
}
