/** `formatDataWithCommas`: puts back the commas missing at the ends of the lines of a
    hand-edited JSON text, one line at a time. */
module CommaFormat {
  import opened Text

  /** A line that trims to a lone bracket or brace. */
  predicate IsBracketLine(line: string) {
    var t := Trim(line);
    t == "{" || t == "}" || t == "[" || t == "]"
  }

  /** A line whose trimmed text ends with a comma. */
  predicate EndsWithComma(line: string) {
    var t := Trim(line);
    |t| > 0 && t[|t| - 1] == ','
  }

  /** A non-empty line that trims to a closing bracket or brace. */
  predicate ClosesBlock(line: string) {
    var t := Trim(line);
    line != "" && (t == "}" || t == "]")
  }

  /** Line i is left as it is: a bracket line, a line already ending with a comma, the
      last line, or a line followed by a closing line. */
  predicate Skip(lines: seq<string>, i: nat)
    requires i < |lines|
  {
    IsBracketLine(lines[i]) || EndsWithComma(lines[i]) || i == |lines| - 1
    || ClosesBlock(lines[i + 1])
  }

  /** Line i of the result. */
  function Formatted(lines: seq<string>, i: nat): string
    requires i < |lines|
  {
    if Skip(lines, i) then lines[i] else lines[i] + ","
  }

  function FormattedLines(lines: seq<string>): (r: seq<string>)
    ensures |r| == |lines|
  {
    seq(|lines|, i requires 0 <= i < |lines| => Formatted(lines, i))
  }

  /** What `formatDataWithCommas` returns: "" for "", otherwise the lines, each with a comma
      appended unless it is skipped, joined again by newlines. */
  function FormatSpec(s: string): string {
    if s == "" then "" else JoinWith(FormattedLines(SplitOn(s, '\n')), "\n")
  }

  /** The `continue` tests of the loop for line i, in order, on lines not yet changed. */
  method SkipLine(lines: array<string>, i: nat) returns (skip: bool)
    requires i < lines.Length
    ensures skip == Skip(lines[..], i)
  {
    var t := Trim(lines[i]);
    skip := t == "{" || t == "}" || t == "[" || t == "]" || (|t| > 0 && t[|t| - 1] == ',')
      || i == lines.Length - 1
      || (lines[i + 1] != "" && (Trim(lines[i + 1]) == "}" || Trim(lines[i + 1]) == "]"));
  }

  /** The loop of `formatDataWithCommas` over the array of lines, appending "," in place.
      Every test reads lines not yet changed: line i before its own update, line i + 1 before
      the next iteration. */
  method FormatDataWithCommas(jsonString: string) returns (r: string)
    ensures r == FormatSpec(jsonString)
  {
    if jsonString == "" {
      return "";
    }
    var parts := SplitOn(jsonString, '\n');
    var lines := new string[|parts|](i requires 0 <= i < |parts| => parts[i]);
    ghost var done := FormattedLines(parts);
    var i := 0;
    assert lines[..] == done[..0] + parts[0..];
    while i < lines.Length
      invariant 0 <= i <= lines.Length == |parts|
      invariant lines[..] == done[..i] + parts[i..]
    {
      ghost var before := lines[..];
      var skip := SkipLine(lines, i);
      assert skip == Skip(parts, i) by {
        assert before[i] == parts[i];
        if i + 1 < |parts| {
          assert before[i + 1] == parts[i + 1];
        }
      }
      var line := lines[i];
      if !skip {
        lines[i] := line + ",";
      }
      assert lines[..] == before[i := done[i]];
      UpdateStep(before, done, parts, i);
      i := i + 1;
    }
    assert parts[|parts|..] == [];
    assert done[..|parts|] == done;
    assert lines[..] == done;
    r := JoinWith(lines[..], "\n");
  }

  /** Overwriting element i of a sequence that agrees with `done` before i and with `todo`
      from i on, by `done[i]`, extends the agreement by one. */
  lemma UpdateStep<T>(cur: seq<T>, done: seq<T>, todo: seq<T>, i: nat)
    requires |done| == |todo| && i < |todo|
    requires cur == done[..i] + todo[i..]
    ensures cur[i := done[i]] == done[..i + 1] + todo[i + 1..]
  {
    assert cur[i := done[i]] == done[..i + 1] + todo[i + 1..];
  }

  /** A formatted line holds no newline. */
  lemma FormattedNoNewline(s: string)
    ensures forall i :: 0 <= i < |FormattedLines(SplitOn(s, '\n'))| ==>
      '\n' !in FormattedLines(SplitOn(s, '\n'))[i]
  {
  }

  /** The result has as many lines as the input; each line is the input's line, with one
      comma added exactly when it is not skipped. */
  lemma {:induction false} FormatLines(s: string)
    requires s != ""
    ensures var parts, out := SplitOn(s, '\n'), SplitOn(FormatSpec(s), '\n');
      |out| == |parts| &&
      forall i :: 0 <= i < |parts| ==>
        (Skip(parts, i) ==> out[i] == parts[i]) && (!Skip(parts, i) ==> out[i] == parts[i] + ",")
  {
    FormattedNoNewline(s);
    SplitJoin(FormattedLines(SplitOn(s, '\n')), '\n');
  }

  /** A line that gains a comma is then skipped, because it ends with one. */
  lemma GainedCommaEnds(line: string)
    ensures EndsWithComma(line + ",")
  {
    TrimKeepsLastChar(line, ',');
  }

  /** Every line of the result is skipped when the result is formatted again. */
  lemma {:induction false} FormattedLinesSkipped(parts: seq<string>, i: nat)
    requires i < |parts|
    ensures Skip(FormattedLines(parts), i)
  {
    var out := FormattedLines(parts);
    if !Skip(parts, i) {
      GainedCommaEnds(parts[i]);
    } else if !IsBracketLine(parts[i]) && !EndsWithComma(parts[i]) && i != |parts| - 1 {
      assert ClosesBlock(parts[i + 1]);
      assert IsBracketLine(parts[i + 1]);
      assert out[i + 1] == parts[i + 1];
    }
  }

  /** Formatting a formatted text changes nothing. */
  lemma {:induction false} FormatIdempotent(s: string)
    ensures FormatSpec(FormatSpec(s)) == FormatSpec(s)
  {
    var f := FormatSpec(s);
    if s != "" && f != "" {
      var parts := SplitOn(s, '\n');
      var out := FormattedLines(parts);
      FormattedNoNewline(s);
      SplitJoin(out, '\n');
      forall i | 0 <= i < |out| ensures Formatted(out, i) == out[i] {
        FormattedLinesSkipped(parts, i);
      }
      assert FormattedLines(out) == out;
    }
  }

  /** Text whose lines need no comma comes back unchanged. */
  lemma {:induction false} FormatKeepsComplete(s: string)
    requires forall i :: 0 <= i < |SplitOn(s, '\n')| ==> Skip(SplitOn(s, '\n'), i)
    ensures FormatSpec(s) == s
  {
    if s != "" {
      var parts := SplitOn(s, '\n');
      assert FormattedLines(parts) == parts;
      JoinSplit(s, '\n');
    }
  }
}
