/**
 * The pipe-table clean-up applied to model output before Markdown
 * rendering. The same loop appears three times in the repository
 * (backend/services/email_service.py:132-155, backend/app.py:1403-1422 and
 * the `normalize_markdown` of backend/services/group_research_service.py);
 * one definition models all three. A table row loses its leading
 * whitespace, every other line is kept verbatim, and a blank line is put
 * in front of a line that opens or closes a table unless the previous
 * output line is already blank.
 */
module Markdown {
  import Text

  /** After left-stripping, the line starts with '|' and holds at least two pipes. */
  predicate IsTableRow(line: string) {
    var s := Text.LStrip(line);
    s != [] && s[0] == '|' && Text.CountChar(s, '|') >= 2
  }

  /** What the loop appends for the input line itself. */
  function Emitted(line: string): string {
    if IsTableRow(line) then Text.LStrip(line) else line
  }

  /** Line k starts or ends a table block and the line emitted before it is not blank. */
  predicate PadBefore(lines: seq<string>, k: int)
    requires 0 <= k < |lines|
  {
    k > 0 && IsTableRow(lines[k]) != IsTableRow(lines[k - 1]) && !Text.IsBlank(Emitted(lines[k - 1]))
  }

  /** What the loop appends for line k: perhaps a blank line, then the line. */
  function Chunk(lines: seq<string>, k: int): seq<string>
    requires 0 <= k < |lines|
  {
    (if PadBefore(lines, k) then [""] else []) + [Emitted(lines[k])]
  }

  /** The output lines after the first n input lines. */
  function Cleaned(lines: seq<string>, n: nat): (out: seq<string>)
    requires n <= |lines|
    ensures n > 0 ==> |out| > 0 && out[|out| - 1] == Emitted(lines[n - 1])
  {
    if n == 0 then [] else Cleaned(lines, n - 1) + Chunk(lines, n - 1)
  }

  /** How many blank lines the first n input lines received. */
  function PadCount(lines: seq<string>, n: nat): nat
    requires n <= |lines|
  {
    if n == 0 then 0 else PadCount(lines, n - 1) + (if PadBefore(lines, n - 1) then 1 else 0)
  }

  /** Where line k of the input lands in the output. */
  function Position(lines: seq<string>, k: nat): int
    requires k < |lines|
  {
    |Cleaned(lines, k + 1)| - 1
  }

  /** The output is the input plus the inserted blank lines, nothing removed. */
  lemma {:induction false} CleanedLength(lines: seq<string>, n: nat)
    requires n <= |lines|
    ensures |Cleaned(lines, n)| == n + PadCount(lines, n)
  {
    if n > 0 {
      CleanedLength(lines, n - 1);
    }
  }

  /**
   * No input line is dropped: line k appears, as emitted, at Position(k)
   * of every later prefix, and a padded line has a blank line right in
   * front of it.
   */
  lemma {:induction false} LinesKept(lines: seq<string>, n: nat, k: nat)
    requires k < n <= |lines|
    ensures 0 <= Position(lines, k) < |Cleaned(lines, n)|
    ensures Cleaned(lines, n)[Position(lines, k)] == Emitted(lines[k])
    ensures PadBefore(lines, k) ==> Position(lines, k) >= 1 && Cleaned(lines, n)[Position(lines, k) - 1] == ""
    decreases n
  {
    if n > k + 1 {
      LinesKept(lines, n - 1, k);
      var prev := Cleaned(lines, n - 1);
      assert Cleaned(lines, n) == prev + Chunk(lines, n - 1);
      assert Cleaned(lines, n)[..|prev|] == prev;
    } else {
      var prev := Cleaned(lines, k);
      assert Cleaned(lines, k + 1) == prev + Chunk(lines, k);
      if PadBefore(lines, k) {
        assert Chunk(lines, k) == ["", Emitted(lines[k])];
      }
    }
  }

  /** Input order is kept: later lines land strictly later in the output. */
  lemma PositionIncreases(lines: seq<string>, k: nat)
    requires k + 1 < |lines|
    ensures Position(lines, k) < Position(lines, k + 1)
  {
    assert Cleaned(lines, k + 2) == Cleaned(lines, k + 1) + Chunk(lines, k + 1);
  }

  /** A blank line in the output that no input line produced stands right before a padded line. */
  lemma {:induction false} InsertedBlanksOnlyAtBoundaries(lines: seq<string>, n: nat, j: nat)
    requires n <= |lines| && j < |Cleaned(lines, n)|
    requires forall k :: 0 <= k < n ==> Position(lines, k) != j
    ensures Cleaned(lines, n)[j] == ""
    ensures exists k :: 0 <= k < n && PadBefore(lines, k) && Position(lines, k) == j + 1
    decreases n
  {
    var prev := Cleaned(lines, n - 1);
    assert Cleaned(lines, n) == prev + Chunk(lines, n - 1);
    if j < |prev| {
      InsertedBlanksOnlyAtBoundaries(lines, n - 1, j);
      var k :| 0 <= k < n - 1 && PadBefore(lines, k) && Position(lines, k) == j + 1;
      assert 0 <= k < n && PadBefore(lines, k) && Position(lines, k) == j + 1;
    } else {
      assert Position(lines, n - 1) == |prev| + |Chunk(lines, n - 1)| - 1;
      assert PadBefore(lines, n - 1) && j == |prev|;
    }
  }

  lemma AppendAssociates(c: seq<string>, p: seq<string>, e: string)
    ensures (c + p) + [e] == c + (p + [e])
  {
  }

  /** The loop's test for a blank line is PadBefore, and its table-row test is IsTableRow. */
  lemma PadDecision(lines: seq<string>, i: nat)
    requires i < |lines|
    ensures var c := Cleaned(lines, i);
      PadBefore(lines, i) ==
        (IsTableRow(lines[i]) != (i > 0 && IsTableRow(lines[i - 1])) && c != [] && Text.Strip(c[|c| - 1]) != [])
    ensures Emitted(lines[i]) == if IsTableRow(lines[i]) then Text.LStrip(lines[i]) else lines[i]
    ensures Chunk(lines, i) == (if PadBefore(lines, i) then [""] else []) + [Emitted(lines[i])]
  {
    if i > 0 {
      Text.StripEmptyIffBlank(Emitted(lines[i - 1]));
    }
  }

  /** The `_normalize_markdown` loop: `cleaned_lines` and the `in_table` flag over `text.splitlines()`. */
  method NormalizeMarkdown(text: string) returns (result: string)
    ensures result == Text.Join("\n", Cleaned(Text.SplitLines(text), |Text.SplitLines(text)|))
  {
    var lines := Text.SplitLines(text);
    var cleaned: seq<string> := [];
    var inTable := false;
    var i := 0;
    while i < |lines|
      invariant 0 <= i <= |lines|
      invariant cleaned == Cleaned(lines, i)
      invariant inTable == (i > 0 && IsTableRow(lines[i - 1]))
    {
      var line := lines[i];
      var stripped := Text.LStrip(line);
      var isTableRow := stripped != [] && stripped[0] == '|' && Text.CountChar(stripped, '|') >= 2;
      PadDecision(lines, i);
      ghost var pad := PadBefore(lines, i);
      ghost var before := cleaned;
      if isTableRow && !inTable {
        if cleaned != [] && Text.Strip(cleaned[|cleaned| - 1]) != [] {
          cleaned := cleaned + [""];
        }
        inTable := true;
      } else if !isTableRow && inTable {
        if cleaned != [] && Text.Strip(cleaned[|cleaned| - 1]) != [] {
          cleaned := cleaned + [""];
        }
        inTable := false;
      }
      assert cleaned == before + (if pad then [""] else []);
      ghost var padded := cleaned;
      assert isTableRow == IsTableRow(line);
      assert (if isTableRow then stripped else line) == Emitted(line);
      cleaned := cleaned + [if isTableRow then stripped else line];
      AppendAssociates(before, if pad then [""] else [], Emitted(line));
      assert cleaned == before + Chunk(lines, i);
      assert Cleaned(lines, i + 1) == Cleaned(lines, i) + Chunk(lines, i);
      i := i + 1;
    }
    result := Text.Join("\n", cleaned);
  }
}
