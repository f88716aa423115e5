/** The findings-to-HTML renderer (generate_html_report.py:11-46): a fixed
    header ending in a total-count line, five lines per finding in input
    order, and a two-line footer; a record missing a key that the code
    indexes directly makes the whole rendering fail. */
module HtmlReport {
  import opened Wrappers
  import opened Records
  import Decimal
  import Lines

  /** The first fifteen header lines, always the same: the document head with
      its inline style sheet, the opening `<body>` and the page title. */
  const HeaderPrefix: seq<string> := [
    "<html>",
    "<head>",
    "<meta charset='UTF-8'>",
    "<title>Semgrep Report</title>",
    "<style>",
    "body { font-family: Arial, sans-serif; margin: 2em; }",
    "h1 { color: #333; }",
    ".finding { margin-bottom: 1em; padding: 1em; border: 1px solid #ddd; border-radius: 5px; }",
    ".severity-ERROR { background: #ffe5e5; }",
    ".severity-WARNING { background: #fff8e5; }",
    ".severity-INFO { background: #e5f3ff; }",
    "</style>",
    "</head>",
    "<body>",
    "<h1>Semgrep Scan Results</h1>"
  ]

  /** The closing lines. */
  const Footer: seq<string> := ["</body>", "</html>"]

  /** The header's sixteenth line, carrying the number of records. */
  function TotalLine(n: nat): string {
    "<p><strong>Total Findings:</strong> " + Decimal.IntToString(n) + "</p>"
  }

  function Header(n: nat): seq<string> {
    HeaderPrefix + [TotalLine(n)]
  }

  /** The five lines of one finding; field texts go in unescaped. */
  function FindingLines(f: Finding): seq<string> {
    [ "<div class='finding severity-" + f.severity + "'>",
      "<strong>" + f.checkId + "</strong><br>",
      "<em>" + f.path + ":" + f.line + "</em><br>",
      "<p>" + f.message + "</p>",
      "</div>" ]
  }

  /** The findings' lines, one block after another in input order. */
  function Body(fs: seq<Finding>): seq<string>
    decreases |fs|
  {
    if fs == [] then [] else Body(fs[..|fs| - 1]) + FindingLines(fs[|fs| - 1])
  }

  /** The whole page for `n` records read into `fs`. */
  function Page(n: nat, fs: seq<Finding>): seq<string> {
    Header(n) + Body(fs) + Footer
  }

  /** Why rendering failed: the position of the record and the key missing from it. */
  datatype RenderError = MissingKey(index: nat, key: Key)

  /** Reads the records in order, stopping at the first one a lookup fails on. */
  function NormalizeAll(rs: seq<Record>): Result<seq<Finding>, RenderError>
    decreases |rs|
  {
    if rs == [] then Ok([])
    else
      match NormalizeAll(rs[..|rs| - 1])
      case Err(e) => Err(e)
      case Ok(fs) =>
        match Normalize(rs[|rs| - 1])
        case Err(k) => Err(MissingKey(|rs| - 1, k))
        case Ok(f) => Ok(fs + [f])
  }

  /** What the script produces for `results`: the page's lines, or the lookup failure. */
  function Rendered(rs: seq<Record>): Result<seq<string>, RenderError> {
    match NormalizeAll(rs)
    case Ok(fs) => Ok(Page(|rs|, fs))
    case Err(e) => Err(e)
  }

  /** The text written to the output file. */
  function Written(lines: seq<string>): string {
    Lines.Join(lines)
  }

  /** Lines 11-43 as the script runs them: start from the header, index each
      record's keys in the script's order, append the record's five lines,
      then append the footer. */
  method Render(report: Report) returns (out: Result<seq<string>, RenderError>)
    ensures out == Rendered(ResultsOf(report))
    ensures out.Ok? ==> |out.value| == 16 + 5 * |ResultsOf(report)| + 2
  {
    var results := ResultsOf(report);
    var html := Header(|results|);
    ghost var header := html;
    ghost var done: seq<Finding> := [];
    var i := 0;
    while i < |results|
      invariant 0 <= i <= |results|
      invariant NormalizeAll(results[..i]) == Ok(done)
      invariant |done| == i
      invariant html == header + Body(done)
      invariant |html| == 16 + 5 * i
    {
      var r := results[i];
      var severity := SeverityText(r);
      if r.checkId.None? {
        out := Err(MissingKey(i, CheckIdKey));
        FailureIsFinal(results, i);
        return;
      }
      var checkId := Show(r.checkId.value);
      if r.path.None? || r.start.None? || r.start.value.line.None? {
        var k := if r.path.None? then PathKey else if r.start.None? then StartKey else LineKey;
        out := Err(MissingKey(i, k));
        FailureIsFinal(results, i);
        return;
      }
      var path, line := Show(r.path.value), Show(r.start.value.line.value);
      if r.extra.None? {
        out := Err(MissingKey(i, ExtraKey));
        FailureIsFinal(results, i);
        return;
      }
      var message := MessageText(r.extra.value);
      var f := Finding(severity, checkId, path, line, message);
      NormalizeComplete(r);
      SuccessExtends(results, i, done);
      AppendAssociates(header, Body(done), FindingLines(f));
      html := html + FindingLines(f);
      done := done + [f];
      i := i + 1;
    }
    assert results[..i] == results;
    html := html + Footer;
    out := Ok(html);
  }

  lemma AppendAssociates(a: seq<string>, b: seq<string>, c: seq<string>)
    ensures a + b + c == a + (b + c)
  {
  }

  /** A complete record after a run of read records adds its finding and its five lines. */
  lemma SuccessExtends(rs: seq<Record>, i: nat, done: seq<Finding>)
    requires i < |rs| && NormalizeAll(rs[..i]) == Ok(done) && Normalize(rs[i]).Ok?
    ensures NormalizeAll(rs[..i + 1]) == Ok(done + [Normalize(rs[i]).value])
    ensures Body(done + [Normalize(rs[i]).value]) == Body(done) + FindingLines(Normalize(rs[i]).value)
  {
    assert rs[..i + 1][..i] == rs[..i];
    assert (done + [Normalize(rs[i]).value])[..|done|] == done;
  }

  /** Once a record fails, so does every longer run of records through it. */
  lemma {:induction false} FailureIsFinal(rs: seq<Record>, i: nat)
    requires i < |rs|
    requires NormalizeAll(rs[..i]).Ok?
    requires Normalize(rs[i]).Err?
    ensures NormalizeAll(rs) == Err(MissingKey(i, Normalize(rs[i]).error))
  {
    assert rs[..i + 1][..i] == rs[..i];
    FailureStays(rs, i + 1, |rs|);
    assert rs[..|rs|] == rs;
  }

  lemma {:induction false} FailureStays(rs: seq<Record>, j: nat, m: nat)
    requires j <= m <= |rs|
    requires NormalizeAll(rs[..j]).Err?
    ensures NormalizeAll(rs[..m]) == NormalizeAll(rs[..j])
    decreases m - j
  {
    if j < m {
      assert rs[..j + 1][..j] == rs[..j];
      FailureStays(rs, j + 1, m);
    }
  }
}
