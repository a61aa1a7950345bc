/**
 What the terminal's `View` cuts out of the line buffer: each line fitted to the view width,
 a window of the content height, and the cursor block.
 */
module ScrollWindow {
  import opened LineEdit
  import opened LineWidth

  const CURSOR_BLOCK: char := '\U{2588}'

  function ContentHeight(height: int): int { Max(height - 5, 3) - 2 }

  function ViewWidth(width: int): int { Max(width - 4, 20) }

  /** A line cut to the view width, if it counts more runes than that. */
  function FitLine(line: string, width: int): string {
    if RuneCount(line, false) > width then Clip(line, false, width) else line
  }

  function ClampScroll(offset: int, total: nat, contentH: nat): (r: nat)
    ensures r == 0 || r <= total - contentH
  {
    Max(0, Min(offset, total - contentH))
  }

  /** Every line cut to the view width. */
  function Fitted(lines: seq<string>, width: int): (r: seq<string>)
    ensures |r| == |lines| && forall k | 0 <= k < |r| :: r[k] == FitLine(lines[k], width)
  {
    seq(|lines|, k requires 0 <= k < |lines| => FitLine(lines[k], width))
  }

  function BlankRows(n: nat): (r: seq<string>)
    ensures |r| == n && forall k | 0 <= k < n :: r[k] == ""
  {
    seq(n, _ => "")
  }

  /** The `contentH` lines ending `scroll` lines above the newest, with blank rows below when
      there are fewer. */
  function Slice(lines: seq<string>, scroll: nat, contentH: nat): (r: seq<string>)
    requires scroll == 0 || scroll <= |lines| - contentH
    ensures |r| == contentH
  {
    var end := |lines| - scroll;
    var rows := lines[Max(0, end - contentH)..end];
    rows + BlankRows(contentH - |rows|)
  }

  /** The rows of the scroll window. */
  function Window(lines: seq<string>, scroll: nat, contentH: nat, width: int): (r: seq<string>)
    requires scroll == 0 || scroll <= |lines| - contentH
    ensures |r| == contentH
  {
    Slice(Fitted(lines, width), scroll, contentH)
  }

  /** The row the cursor block is drawn on: the last one that is not blank, or the first. */
  function CursorRow(rows: seq<string>, k: nat): (r: nat)
    requires k < |rows|
    ensures r <= k && (r > 0 ==> rows[r] != "")
    ensures forall j | r < j <= k :: rows[j] == ""
  {
    if k > 0 && rows[k] == "" then CursorRow(rows, k - 1) else k
  }

  function WithCursor(rows: seq<string>, col: int): (r: seq<string>)
    requires rows != []
    ensures |r| == |rows|
  {
    var k := CursorRow(rows, |rows| - 1);
    rows[k := Overwrite(rows[k], col, CURSOR_BLOCK)]
  }

  method FitLines(lines: seq<string>, viewW: int) returns (allLines: seq<string>)
    ensures allLines == Fitted(lines, viewW)
  {
    allLines := lines;
    for i := 0 to |lines|
      invariant |allLines| == |lines|
      invariant forall k | 0 <= k < i :: allLines[k] == FitLine(lines[k], viewW)
      invariant forall k | i <= k < |lines| :: allLines[k] == lines[k]
    {
      var n := RuneLen(allLines[i]);
      if n > viewW {
        var cut := TruncateRunes(allLines[i], viewW);
        allLines := allLines[i := cut];
      }
    }
  }

  method CutWindow(allLines: seq<string>, scrollOffset: int, contentH: int) returns (rows: seq<string>)
    requires contentH >= 0 && scrollOffset >= 0
    requires scrollOffset == 0 || scrollOffset <= |allLines| - contentH
    ensures rows == Slice(allLines, scrollOffset, contentH)
  {
    var endIdx := |allLines| - scrollOffset;
    var startIdx := Max(0, endIdx - contentH);
    rows := allLines[startIdx..endIdx];
    while |rows| < contentH
      invariant endIdx - startIdx <= |rows| <= contentH
      invariant rows == allLines[startIdx..endIdx] + BlankRows(|rows| - (endIdx - startIdx))
    {
      rows := rows + [""];
    }
  }

  method DrawCursor(rows: seq<string>, col: int) returns (drawn: seq<string>)
    requires rows != []
    ensures drawn == WithCursor(rows, col)
  {
    var activeIdx := |rows| - 1;
    while activeIdx > 0 && rows[activeIdx] == ""
      invariant 0 <= activeIdx < |rows|
      invariant CursorRow(rows, |rows| - 1) == CursorRow(rows, activeIdx)
    {
      activeIdx := activeIdx - 1;
    }
    var line := OverwriteAtCol(rows[activeIdx], col, CURSOR_BLOCK);
    drawn := rows[activeIdx := line];
  }

  /** `row` is `line` cut after as many counted runes as the width allows. */
  ghost predicate ShowsLine(row: string, line: string, width: nat) {
    row <= line && RuneCount(row, false) == Min(width, RuneCount(line, false))
  }

  lemma FitLineEffect(line: string, width: nat)
    ensures ShowsLine(FitLine(line, width), line, width)
  {
    ClipEffect(line, false, width);
  }

  /** How many rows show lines of the buffer. */
  function ShownRows(total: nat, contentH: nat): nat { if total < contentH then total else contentH }

  lemma SliceRows(lines: seq<string>, scroll: nat, contentH: nat)
    requires scroll == 0 || scroll <= |lines| - contentH
    ensures var shown, rows := ShownRows(|lines|, contentH), Slice(lines, scroll, contentH);
            && |lines| - scroll - shown >= 0
            && (forall k | 0 <= k < shown :: rows[k] == lines[|lines| - scroll - shown + k])
            && (forall k | shown <= k < contentH :: rows[k] == "")
  {
  }

  /** The window lies inside the buffer, its rows are consecutive lines cut to the view width,
      and it is full of buffer lines as soon as the buffer is at least as tall as the view. */
  lemma WindowShowsBuffer(lines: seq<string>, offset: int, contentH: nat, width: nat)
    ensures var scroll, shown := ClampScroll(offset, |lines|, contentH), ShownRows(|lines|, contentH);
            var rows, top := Window(lines, scroll, contentH, width), |lines| - scroll - shown;
            && top >= 0 && |rows| == contentH
            && (forall k | 0 <= k < shown :: ShowsLine(rows[k], lines[top + k], width))
            && (forall k | shown <= k < contentH :: rows[k] == "")
  {
    var scroll, shown := ClampScroll(offset, |lines|, contentH), ShownRows(|lines|, contentH);
    var top := |lines| - scroll - shown;
    var rows := Window(lines, scroll, contentH, width);
    SliceRows(Fitted(lines, width), scroll, contentH);
    forall k | 0 <= k < shown ensures ShowsLine(rows[k], lines[top + k], width) {
      FitLineEffect(lines[top + k], width);
    }
  }
}
