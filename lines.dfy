/** The page is written as its lines joined with newlines (`"\n".join(html)`,
    generate_html_report.py:46). Split is the reading back of such text
    (Python's `str.split("\n")`), the partner of Join. */
module Lines {

  predicate SingleLine(s: string) {
    '\n' !in s
  }

  /** `"\n".join(lines)`. */
  function Join(lines: seq<string>): string {
    if |lines| == 0 then ""
    else if |lines| == 1 then lines[0]
    else lines[0] + "\n" + Join(lines[1..])
  }

  /** `s.split("\n")`: always at least one piece. */
  function Split(s: string): (pieces: seq<string>)
    ensures |pieces| > 0
    decreases |s|
  {
    if s == [] then [""]
    else if s[0] == '\n' then [""] + Split(s[1..])
    else
      var rest := Split(s[1..]);
      [[s[0]] + rest[0]] + rest[1..]
  }

  /** A newline-free prefix is glued onto the first piece of what follows it. */
  lemma {:induction false} SplitPrefix(a: string, rest: string)
    requires SingleLine(a)
    ensures Split(a + rest) == [a + Split(rest)[0]] + Split(rest)[1..]
    decreases |a|
  {
    if a == [] {
      var t := Split(rest);
      assert a + rest == rest;
      assert a + t[0] == t[0];
      assert [t[0]] + t[1..] == t;
    } else {
      var t := Split(rest);
      SplitPrefix(a[1..], rest);
      assert (a + rest)[1..] == a[1..] + rest;
      assert (a + rest)[0] == a[0];
      assert [a[0]] + (a[1..] + t[0]) == a + t[0];
    }
  }

  /** Joining newline-free lines and splitting the text gives the lines back. */
  lemma {:induction false} SplitJoin(lines: seq<string>)
    requires |lines| > 0
    requires forall k :: 0 <= k < |lines| ==> SingleLine(lines[k])
    ensures Split(Join(lines)) == lines
    decreases |lines|
  {
    if |lines| == 1 {
      SplitPrefix(lines[0], "");
      assert lines[0] + "" == lines[0];
    } else {
      var tail := lines[1..];
      SplitJoin(tail);
      var rest := "\n" + Join(tail);
      SplitPrefix(lines[0], rest);
      assert Join(lines) == lines[0] + rest;
      assert rest[1..] == Join(tail);
      assert Split(rest) == [""] + tail;
      assert lines[0] + "" == lines[0];
      assert [lines[0]] + tail == lines;
    }
  }

  /** One step of Split on a text that starts with `c`. */
  lemma SplitCons(c: char, rest: string)
    ensures c == '\n' ==> Split([c] + rest) == [""] + Split(rest)
    ensures c != '\n' ==> Split([c] + rest) == [[c] + Split(rest)[0]] + Split(rest)[1..]
  {
    assert ([c] + rest)[0] == c && ([c] + rest)[1..] == rest;
  }

  lemma Reassociate(x: string, y: string)
    requires x != []
    ensures x == [x[0]] + x[1..]
    ensures x + "\n" + y == [x[0]] + (x[1..] + "\n" + y)
  {
  }

  /** Splitting at a newline splits each side separately. */
  lemma {:induction false} SplitSeparator(x: string, y: string)
    ensures Split(x + "\n" + y) == Split(x) + Split(y)
    decreases |x|
  {
    if x == [] {
      assert x + "\n" + y == ['\n'] + y;
      SplitCons('\n', y);
    } else {
      var c, x' := x[0], x[1..];
      Reassociate(x, y);
      SplitSeparator(x', y);
      SplitCons(c, x' + "\n" + y);
      SplitCons(c, x');
      var t, u := Split(x'), Split(y);
      if c != '\n' {
        assert (t + u)[0] == t[0];
        assert (t + u)[1..] == t[1..] + u;
      }
    }
  }

  /** Joining two non-empty runs of lines puts one newline between them. */
  lemma {:induction false} JoinAppend(a: seq<string>, b: seq<string>)
    requires |a| > 0 && |b| > 0
    ensures Join(a + b) == Join(a) + "\n" + Join(b)
    decreases |a|
  {
    if |a| == 1 {
      assert (a + b)[1..] == b;
    } else {
      JoinAppend(a[1..], b);
      assert (a + b)[1..] == a[1..] + b;
    }
  }
}
