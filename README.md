# Semgrep findings-to-HTML report, modelled in Dafny

`generate_html_report.py` reads a Semgrep result document, takes its
`results` array (an empty one when the key is absent) and turns it into a
list of HTML lines: a fixed header of fifteen lines plus a line with the
total number of records, five lines per record in input order, and the
closing `</body>` and `</html>` lines. The list is joined with newlines and
written to `semgrep-report.html`. Each record's severity defaults to `INFO`
and its message to the empty string, but `check_id`, `path`, `start`,
`start.line` and `extra` are indexed directly, so a record that lacks one of
them raises a `KeyError` and no report is written.

The model:

- `wrappers.dfy`: `Option` and `Result`.
- `decimal.dfy`: Python's `str` of an integer (used for the count and for line
  numbers), with the parser that reads it back.
- `records.dfy`: the decoded records. A key absent from a JSON object is
  `None`, and interpolated values are scalars that are printed as Python
  prints them. `Normalize` reads one record the way lines 35-39 do.
- `html_report.dfy`: the header, a finding's five lines, the footer, the
  specification `Rendered` of the whole page, and the imperative `Render`.
  `Render` grows the line list in a loop, as the script does, and is proved
  equal to `Rendered`.
- `html_report_props.dfy`: what holds of every rendered page. This covers its
  exact shape and length, where each finding's lines sit, when rendering
  fails and which key it reports, the empty report, unescaped interpolation,
  and reading the written text back into lines.
- `lines.dfy`: `"\n".join` and its partner `str.split("\n")`.

Scoring findings and publishing a review comment is not part of
`generate_html_report.py`, and is not modelled.

## Model

| member | source | states |
|---|---|---|
| HtmlReport.Render | generate_html_report.py:11-43 | The loop over the records builds exactly the page `Rendered` describes, or reports the same missing key. A successful page has 16 + 5·n + 2 lines. |
| HtmlReport.FailureIsFinal | generate_html_report.py:34-40 | If every record before position i reads and record i does not, the whole run fails at position i with that record's missing key. Later records change nothing. |
| HtmlReport.FailureStays | generate_html_report.py:34-40 | Once a prefix of the records has failed, every longer prefix fails with the same error. |
| HtmlReport.SuccessExtends | generate_html_report.py:34-40 | A complete record after the records read so far appends its finding, and appends exactly its five lines to the body. |
| HtmlReportProperties.RenderedFrame | generate_html_report.py:14-31 | A rendered page has 16 + 5·n + 2 lines. It starts with the fifteen fixed header lines, then `<p><strong>Total Findings:</strong> N</p>` where N is the number of records, and it ends with `</body>`, `</html>`. |
| HtmlReportProperties.RenderedFinding | generate_html_report.py:34-40 | Record i's lines are lines 16+5i to 20+5i, in input order. They are the `<div class='finding severity-S'>` line, `<strong>check_id</strong><br>`, `<em>path:line</em><br>`, `<p>message</p>` and `</div>`, with the values put in verbatim. |
| HtmlReportProperties.RenderedAt | generate_html_report.py:34-40 | Line 16 + 5i + j of the page is line j of record i's five-line block. No record is dropped, reordered or merged. |
| HtmlReportProperties.RenderedOkIff | generate_html_report.py:35-39 | Rendering succeeds if and only if every record has `check_id`, `path`, `start`, `start.line` and `extra`. |
| HtmlReportProperties.RenderedErr | generate_html_report.py:35-39 | A failure names the first incomplete record. It also names the first key that record lacks, in the order the code indexes them: check_id, path, start, line, extra. All earlier records are complete. |
| HtmlReportProperties.EmptyReport | generate_html_report.py:11-43 | With `results` absent or empty, the page is the fifteen header lines, the count line with 0, then `</body>` and `</html>`. |
| HtmlReportProperties.TotalLineFaithful | generate_html_report.py:30 | Different record counts give different count lines, so the line determines the count. |
| HtmlReportProperties.NormalizeAllOk | generate_html_report.py:34-40 | The records are all read if and only if each is complete. Then there is one finding per record, in the same order, each being that record's reading. |
| HtmlReportProperties.NormalizeAllErr | generate_html_report.py:34-40 | A failed run names a record position inside the input and that record's missing key. Every earlier record is complete. |
| HtmlReportProperties.BodyLength | generate_html_report.py:34-40 | Each finding contributes exactly five lines. |
| HtmlReportProperties.BodyAt | generate_html_report.py:34-40 | Finding i's five lines sit at body positions 5i to 5i+4. |
| HtmlReportProperties.MessageNotEscaped | generate_html_report.py:39 | The message line is `<p>`, then every character of the message text unchanged (`<`, `&` and newlines included), then `</p>`: it is exactly seven characters longer than the message, and it stays a single line exactly when the message has no newline. |
| HtmlReportProperties.FindingLineSingle | generate_html_report.py:36-40 | A finding's five lines contain no newline when none of its field texts does. |
| HtmlReportProperties.CountLineSingle | generate_html_report.py:30 | The count line contains no newline. |
| HtmlReportProperties.RenderedLineSingle | generate_html_report.py:30-43 | From the count line on, every page line is a single line when no field text contains a newline. |
| HtmlReportProperties.WrittenRoundTrip | generate_html_report.py:46 | Split the written text (the lines joined with newlines) at newlines. After the header's part, the pieces are exactly the rendered lines from the count line on, as long as no field holds a newline. |
| Records.Normalize | generate_html_report.py:35-39 | Reading a record succeeds if and only if it is complete. On failure the reported key is missing and every key indexed before it is present. On success the five texts are the severity text, `str` of check_id, path and line, and the message text. |
| Records.FieldDefaults | generate_html_report.py:35-39 | The severity is `INFO` when `extra` or its `severity` is missing; otherwise any string value, `ERROR` or not, is used unchanged. The message is `""` when `extra` has no `message`, and a string message is used unchanged. |
| Records.MissingExtraFails | generate_html_report.py:35-39 | A record without `extra` still gets severity `INFO`, but reading it fails. When check_id, path and line are present, it fails at `extra`. |
| Decimal.NatToString | generate_html_report.py:30 | The text of a natural number is non-empty and all digits. It has no leading zero unless it is "0". |
| Decimal.NatToStringValue | generate_html_report.py:30 | The digits of n denote n. |
| Decimal.IntToStringRoundTrip | generate_html_report.py:38 | Parsing the text of any integer gives back that integer. |
| Decimal.IntToStringInjective | generate_html_report.py:38 | Distinct integers have distinct texts. |
| Lines.SplitJoin | generate_html_report.py:46 | Joining newline-free lines with "\n" and splitting the result at newlines gives back the lines. |
| Lines.JoinAppend | generate_html_report.py:46 | Joining two non-empty runs of lines puts exactly one newline between their joins. |
| Lines.SplitSeparator | generate_html_report.py:46 | Splitting `x + "\n" + y` gives the pieces of x followed by the pieces of y. |
| Lines.SplitPrefix | generate_html_report.py:46 | A newline-free prefix is glued onto the first piece of what follows it. |

## Left out

- Reading and JSON-decoding `semgrep-results.json`, writing `semgrep-report.html` and printing the confirmation (lines 8-9, 46-47) are I/O. The input is an already-decoded `Report`, and the written content is `Written`, the lines joined by "\n".
- Floats, arrays and objects as values of `check_id`, `path`, `line`, `severity` or `message` are not modelled. Python's `str` of those is not modelled. Strings, integers, booleans and `null` are.
- `extra` or `start` present but not an object (for example `null`), and a record that is not an object, are not modelled. In the script a non-object `extra` or record raises `AttributeError` at line 35, and a `null` `start` raises `TypeError` at line 38.
- `results` present but not an array is not modelled. In the script `null` or a number raises `TypeError` at line 30. A non-empty string or object raises `AttributeError` at line 35, since its elements are characters or keys. An empty string or object renders like an empty array.
- A failure is a `RenderError` value: the record's position and the missing key. The script raises `KeyError`, prints a traceback and writes nothing. Exit codes and the traceback text are not modelled.
- HtmlReport.Render: makes all of a record's lookups before appending its five lines in one step, where the script appends line by line between lookups. The list is discarded on any failure, so the result is the same.
- HtmlReportProperties.WrittenRoundTrip: states the header's share of the split text as the split of the joined fifteen fixed lines, and does not prove that those lines hold no newline. Character-level facts about the longer fixed strings are not proved here.
- The score aggregation, principle classification, Markdown comment composition and publishing are not modelled. They are not part of `generate_html_report.py`, and the other scripts (`.solid/generate_report.py`, `.github/scripts/generate-comment.js`) are not part of this model.
- The C# files under `demo-target.Api/` are deliberately flawed demo targets for the scanner, with floating-point area formulas and console writes, and are not part of the tool's logic.
