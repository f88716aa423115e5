/** What the renderer promises about every input: the page's exact shape,
    the findings' order and fields, the error outcome, and the written text. */
module HtmlReportProperties {
  import opened Wrappers
  import opened Records
  import Decimal
  import Lines
  import opened HtmlReport

  /** Every record is read, in order, exactly when every record is complete. */
  lemma {:induction false} NormalizeAllOk(rs: seq<Record>)
    ensures NormalizeAll(rs).Ok? <==> forall k :: 0 <= k < |rs| ==> Complete(rs[k])
    ensures NormalizeAll(rs).Ok? ==>
      && |NormalizeAll(rs).value| == |rs|
      && forall k :: 0 <= k < |rs| ==> NormalizeAll(rs).value[k] == Normalize(rs[k]).value
    decreases |rs|
  {
    if rs != [] {
      var init := rs[..|rs| - 1];
      NormalizeAllOk(init);
      assert forall k :: 0 <= k < |init| ==> init[k] == rs[k];
    }
  }

  /** A failure names the first incomplete record and the first key it lacks. */
  lemma {:induction false} NormalizeAllErr(rs: seq<Record>)
    requires NormalizeAll(rs).Err?
    ensures NormalizeAll(rs).error.index < |rs|
    ensures Normalize(rs[NormalizeAll(rs).error.index]) == Err(NormalizeAll(rs).error.key)
    ensures forall k :: 0 <= k < NormalizeAll(rs).error.index ==> Complete(rs[k])
    decreases |rs|
  {
    var init := rs[..|rs| - 1];
    if NormalizeAll(init).Err? {
      NormalizeAllErr(init);
      assert forall k :: 0 <= k < |init| ==> init[k] == rs[k];
    } else {
      NormalizeAllOk(init);
      assert forall k :: 0 <= k < |init| ==> init[k] == rs[k];
    }
  }

  /** Each finding contributes exactly five lines. */
  lemma {:induction false} BodyLength(fs: seq<Finding>)
    ensures |Body(fs)| == 5 * |fs|
    decreases |fs|
  {
    if fs != [] {
      BodyLength(fs[..|fs| - 1]);
    }
  }

  /** The `i`-th finding's lines sit at positions `5i` to `5i + 4` of the body. */
  lemma {:induction false} BodyAt(fs: seq<Finding>, i: nat, j: nat)
    requires i < |fs| && j < 5
    ensures |Body(fs)| == 5 * |fs|
    ensures Body(fs)[5 * i + j] == FindingLines(fs[i])[j]
    decreases |fs|
  {
    BodyLength(fs);
    var init := fs[..|fs| - 1];
    BodyLength(init);
    if i < |init| {
      BodyAt(init, i, j);
    }
  }

  /** The page has 16 + 5n + 2 lines: the fixed fifteen, the count of records,
      and the fixed footer. */
  lemma RenderedFrame(rs: seq<Record>)
    requires Rendered(rs).Ok?
    ensures |Rendered(rs).value| == 16 + 5 * |rs| + 2
    ensures Rendered(rs).value[..15] == HeaderPrefix
    ensures Rendered(rs).value[15] == "<p><strong>Total Findings:</strong> " + Decimal.IntToString(|rs|) + "</p>"
    ensures Rendered(rs).value[|Rendered(rs).value| - 2..] == ["</body>", "</html>"]
  {
    NormalizeAllOk(rs);
    var fs := NormalizeAll(rs).value;
    BodyLength(fs);
    Framed(HeaderPrefix, TotalLine(|rs|), Body(fs), Footer);
  }

  lemma Framed(a: seq<string>, t: string, b: seq<string>, c: seq<string>)
    ensures (a + [t] + b + c)[..|a|] == a
    ensures (a + [t] + b + c)[|a|] == t
    ensures (a + [t] + b + c)[|a| + 1 + |b|..] == c
  {
    var s := a + [t] + b + c;
    assert s == a + ([t] + b + c);
    assert s == (a + [t] + b) + c;
  }

  /** Line `16 + 5i + j` of the page is line `j` of record `i`'s block. */
  lemma RenderedAt(rs: seq<Record>, i: nat, j: nat)
    requires Rendered(rs).Ok? && i < |rs| && j < 5
    ensures Complete(rs[i])
    ensures |Rendered(rs).value| == 16 + 5 * |rs| + 2
    ensures Rendered(rs).value[16 + 5 * i + j] == FindingLines(Normalize(rs[i]).value)[j]
  {
    NormalizeAllOk(rs);
    var fs := NormalizeAll(rs).value;
    BodyAt(fs, i, j);
    MiddleAt(Header(|rs|), Body(fs), Footer, 5 * i + j);
  }

  lemma MiddleAt(a: seq<string>, b: seq<string>, c: seq<string>, k: nat)
    requires k < |b|
    ensures (a + b + c)[|a| + k] == b[k]
  {
  }

  /** Record `i`'s five lines come at position 16 + 5i, in input order, with
      its fields interpolated as they are, no escaping. */
  lemma RenderedFinding(rs: seq<Record>, i: nat)
    requires Rendered(rs).Ok? && i < |rs|
    ensures |Rendered(rs).value| == 16 + 5 * |rs| + 2
    ensures rs[i].checkId.Some? && rs[i].path.Some? && rs[i].start.Some?
    ensures rs[i].start.value.line.Some? && rs[i].extra.Some?
    ensures Rendered(rs).value[16 + 5 * i] == "<div class='finding severity-" + SeverityText(rs[i]) + "'>"
    ensures Rendered(rs).value[16 + 5 * i + 1] == "<strong>" + Show(rs[i].checkId.value) + "</strong><br>"
    ensures Rendered(rs).value[16 + 5 * i + 2] ==
      "<em>" + Show(rs[i].path.value) + ":" + Show(rs[i].start.value.line.value) + "</em><br>"
    ensures Rendered(rs).value[16 + 5 * i + 3] == "<p>" + MessageText(rs[i].extra.value) + "</p>"
    ensures Rendered(rs).value[16 + 5 * i + 4] == "</div>"
  {
    RenderedAt(rs, i, 0);
    FindingLinesOf(rs[i]);
    RenderedAt(rs, i, 1);
    RenderedAt(rs, i, 2);
    RenderedAt(rs, i, 3);
    RenderedAt(rs, i, 4);
  }

  /** The five lines a complete record reads into. */
  lemma FindingLinesOf(r: Record)
    requires Complete(r)
    ensures FindingLines(Normalize(r).value) ==
      [ "<div class='finding severity-" + SeverityText(r) + "'>",
        "<strong>" + Show(r.checkId.value) + "</strong><br>",
        "<em>" + Show(r.path.value) + ":" + Show(r.start.value.line.value) + "</em><br>",
        "<p>" + MessageText(r.extra.value) + "</p>",
        "</div>" ]
  {
    NormalizeComplete(r);
  }

  /** Rendering succeeds exactly when every record has `check_id`, `path`,
      `start`, `start.line` and `extra`. */
  lemma RenderedOkIff(rs: seq<Record>)
    ensures Rendered(rs).Ok? <==> forall k :: 0 <= k < |rs| ==> Complete(rs[k])
  {
    NormalizeAllOk(rs);
  }

  /** A failure reports the first record that lacks a key, and the first key
      (in the order check_id, path, start, line, extra) that it lacks. */
  lemma RenderedErr(rs: seq<Record>)
    requires Rendered(rs).Err?
    ensures Rendered(rs).error.index < |rs|
    ensures forall k :: 0 <= k < Rendered(rs).error.index ==> Complete(rs[k])
    ensures !Has(rs[Rendered(rs).error.index], Rendered(rs).error.key)
    ensures forall key: Key :: Rank(key) < Rank(Rendered(rs).error.key) ==> Has(rs[Rendered(rs).error.index], key)
  {
    NormalizeAllErr(rs);
  }

  /** Without a `results` key, or with an empty one, the page is the header
      with a count of 0, then the footer. */
  lemma EmptyReport(results: Option<seq<Record>>)
    requires results.None? || results == Some([])
    ensures Rendered(ResultsOf(Report(results))) ==
      Ok(HeaderPrefix + ["<p><strong>Total Findings:</strong> 0</p>"] + ["</body>", "</html>"])
  {
    assert ResultsOf(Report(results)) == [];
    assert NormalizeAll([]) == Ok([]);
    assert Body([]) == [];
    assert Decimal.IntToString(0) == "0";
    assert TotalLine(0) == "<p><strong>Total Findings:</strong> 0</p>";
    assert Page(0, []) == Header(0) + Footer;
  }

  /** The count line tells the number of records: different counts, different lines. */
  lemma TotalLineFaithful(n: nat, m: nat)
    requires TotalLine(n) == TotalLine(m)
    ensures n == m
  {
    var pre := "<p><strong>Total Findings:</strong> ";
    var a := Decimal.IntToString(n);
    var b := Decimal.IntToString(m);
    assert TotalLine(n)[|pre|..|pre| + |a|] == a;
    assert |TotalLine(n)| == |pre| + |a| + 4;
    assert TotalLine(m)[|pre|..|pre| + |b|] == b;
    Decimal.IntToStringInjective(n, m);
  }

  /** The fields a finding puts into its lines. */
  predicate FieldsSingleLine(r: Record)
    requires Complete(r)
  {
    && Lines.SingleLine(SeverityText(r))
    && Lines.SingleLine(Show(r.checkId.value))
    && Lines.SingleLine(Show(r.path.value))
    && Lines.SingleLine(Show(r.start.value.line.value))
    && Lines.SingleLine(MessageText(r.extra.value))
  }

  lemma ConcatSingleLine(a: string, b: string)
    ensures Lines.SingleLine(a + b) <==> Lines.SingleLine(a) && Lines.SingleLine(b)
  {
  }

  lemma CountLineSingle(n: nat)
    ensures Lines.SingleLine(TotalLine(n))
  {
  }

  /** A finding's lines stay single lines when its fields do. */
  lemma FindingLineSingle(r: Record, j: nat)
    requires Complete(r) && FieldsSingleLine(r) && j < 5
    ensures Lines.SingleLine(FindingLines(Normalize(r).value)[j])
  {
    var f := Normalize(r).value;
    if j == 0 {
      ConcatSingleLine("<div class='finding severity-", f.severity);
      ConcatSingleLine("<div class='finding severity-" + f.severity, "'>");
    } else if j == 1 {
      ConcatSingleLine("<strong>", f.checkId);
      ConcatSingleLine("<strong>" + f.checkId, "</strong><br>");
    } else if j == 2 {
      ConcatSingleLine("<em>", f.path);
      ConcatSingleLine("<em>" + f.path, ":");
      ConcatSingleLine("<em>" + f.path + ":", f.line);
      ConcatSingleLine("<em>" + f.path + ":" + f.line, "</em><br>");
    } else if j == 3 {
      ConcatSingleLine("<p>", f.message);
      ConcatSingleLine("<p>" + f.message, "</p>");
    }
  }

  /** Line `p` (from the count line on) stays one line when the fields do. */
  lemma RenderedLineSingle(rs: seq<Record>, p: nat)
    requires Rendered(rs).Ok?
    requires forall k :: 0 <= k < |rs| ==> Complete(rs[k]) && FieldsSingleLine(rs[k])
    requires 15 <= p < |Rendered(rs).value|
    ensures Lines.SingleLine(Rendered(rs).value[p])
  {
    var lines := Rendered(rs).value;
    RenderedFrame(rs);
    if p == 15 {
      CountLineSingle(|rs|);
    } else if p >= |lines| - 2 {
      assert lines[p] == lines[|lines| - 2..][p - (|lines| - 2)];
      assert lines[p] == "</body>" || lines[p] == "</html>";
    } else {
      var i := (p - 16) / 5;
      var j := (p - 16) % 5;
      assert p == 16 + 5 * i + j;
      RenderedAt(rs, i, j);
      FindingLineSingle(rs[i], j);
    }
  }

  /** Reading the written file back line by line gives the fixed header's
      lines followed by exactly the rendered lines from the count line on,
      provided no field holds a newline. */
  lemma WrittenRoundTrip(rs: seq<Record>)
    requires Rendered(rs).Ok?
    requires forall k :: 0 <= k < |rs| ==> Complete(rs[k]) && FieldsSingleLine(rs[k])
    ensures Lines.Split(Written(Rendered(rs).value)) ==
      Lines.Split(Lines.Join(HeaderPrefix)) + Rendered(rs).value[15..]
  {
    var lines := Rendered(rs).value;
    RenderedFrame(rs);
    var tail := lines[15..];
    forall q | 0 <= q < |tail|
      ensures Lines.SingleLine(tail[q])
    {
      RenderedLineSingle(rs, 15 + q);
    }
    assert lines == HeaderPrefix + tail;
    Lines.JoinAppend(HeaderPrefix, tail);
    Lines.SplitSeparator(Lines.Join(HeaderPrefix), Lines.Join(tail));
    Lines.SplitJoin(tail);
  }

  /** Messages are not escaped: every character of the message text, `<`, `&`
      and newline included, appears unchanged between `<p>` and `</p>`, so the
      message line stays one line exactly when the message holds no newline. */
  lemma MessageNotEscaped(rs: seq<Record>, i: nat)
    requires Rendered(rs).Ok? && i < |rs|
    ensures Complete(rs[i])
    ensures |Rendered(rs).value| == 16 + 5 * |rs| + 2
    ensures |Rendered(rs).value[16 + 5 * i + 3]| == |MessageText(rs[i].extra.value)| + 7
    ensures forall k :: 0 <= k < |MessageText(rs[i].extra.value)| ==>
              Rendered(rs).value[16 + 5 * i + 3][3 + k] == MessageText(rs[i].extra.value)[k]
    ensures Lines.SingleLine(Rendered(rs).value[16 + 5 * i + 3]) <==>
            Lines.SingleLine(MessageText(rs[i].extra.value))
  {
    RenderedAt(rs, i, 3);
    MessageLineOf(rs[i]);
  }

  /** The message line of a complete record holds its message text unchanged. */
  lemma MessageLineOf(r: Record)
    requires Complete(r)
    ensures FindingLines(Normalize(r).value)[3] == "<p>" + MessageText(r.extra.value) + "</p>"
    ensures |FindingLines(Normalize(r).value)[3]| == |MessageText(r.extra.value)| + 7
    ensures forall k :: 0 <= k < |MessageText(r.extra.value)| ==>
              FindingLines(Normalize(r).value)[3][3 + k] == MessageText(r.extra.value)[k]
    ensures Lines.SingleLine(FindingLines(Normalize(r).value)[3]) <==>
            Lines.SingleLine(MessageText(r.extra.value))
  {
    NormalizeComplete(r);
    var m := MessageText(r.extra.value);
    Enclosed("<p>", m, "</p>");
    ConcatSingleLine("<p>", m);
    ConcatSingleLine("<p>" + m, "</p>");
  }

  /** `m` sits unchanged inside `a + m + b`. */
  lemma Enclosed(a: string, m: string, b: string)
    ensures |a + m + b| == |a| + |m| + |b|
    ensures forall k :: 0 <= k < |m| ==> (a + m + b)[|a| + k] == m[k]
  {
  }
}
