/**
 The embedded terminal's line buffer: the meaning of one output token (`Step`), of one read
 (`Process`), and the `Terminal` object whose loops compute it.
 */
module Terminal {
  import opened AnsiTokens
  import opened LineEdit
  import opened ScrollWindow

  /** The stored lines, escapes inline, and the cursor column on the last one. */
  datatype Screen = Screen(lines: seq<string>, col: nat)

  const BACKSPACE: char := '\U{8}'

  /** What an escape sequence tells the terminal to do. */
  datatype Command = Swallow | ClearAll | EraseToEnd | CursorLeft | CursorRight | Store

  function Decode(esc: string): Command {
    if |esc| >= 2 && esc[..2] == [ESC, ']'] then Swallow
    else if esc == [ESC] + "[2J" || esc == [ESC] + "[3J" || esc == [ESC] + "[H" + [ESC] + "[2J" then ClearAll
    else if esc == [ESC] + "[K" || esc == [ESC] + "[0K" then EraseToEnd
    else if esc == [ESC] + "[D" || esc == [ESC] + "[1D" then CursorLeft
    else if esc == [ESC] + "[C" || esc == [ESC] + "[1C" then CursorRight
    else Store
  }

  /** `lines` with its last line replaced; an empty buffer is left alone. */
  function SetLast(lines: seq<string>, line: string): seq<string> {
    if lines == [] then lines else lines[|lines| - 1 := line]
  }

  function Put(st: Screen, c: char): Screen {
    if st.lines == [] then st.(col := st.col + 1)
    else Screen(SetLast(st.lines, Overwrite(st.lines[|st.lines| - 1], st.col, c)), st.col + 1)
  }

  function PutBlanks(st: Screen, n: nat): Screen
    decreases n
  {
    if n == 0 then st else PutBlanks(Put(st, ' '), n - 1)
  }

  /** Columns from `col` to the next multiple of eight. */
  function TabGap(col: nat): (n: nat)
    ensures 1 <= n <= 8 && col + n == (col / 8 + 1) * 8
  {
    8 - col % 8
  }

  function StepGlyph(st: Screen, c: char): Screen {
    if c == '\n' then Screen(st.lines + [""], 0)
    else if c == '\r' then st.(col := 0)
    else if c == BACKSPACE then st.(col := if st.col > 0 then st.col - 1 else 0)
    else if c == '\t' then PutBlanks(st, TabGap(st.col))
    else if c == BEL then st
    else Put(st, c)
  }

  function StepEscape(st: Screen, esc: string): Screen {
    match Decode(esc)
    case Swallow => st
    case ClearAll => Screen([""], 0)
    case EraseToEnd =>
      if st.lines == [] then st
      else st.(lines := SetLast(st.lines, Truncate(st.lines[|st.lines| - 1], st.col)))
    case CursorLeft => st.(col := if st.col > 0 then st.col - 1 else 0)
    case CursorRight => st.(col := st.col + 1)
    case Store =>
      if st.lines == [] then st
      else st.(lines := SetLast(st.lines, st.lines[|st.lines| - 1] + esc))
  }

  function Step(st: Screen, t: Token): Screen {
    match t
    case Glyph(c) => StepGlyph(st, c)
    case Escape(body) => StepEscape(st, body)
  }

  function Run(st: Screen, ts: seq<Token>): Screen
    decreases |ts|
  {
    if ts == [] then st else Run(Step(st, ts[0]), ts[1..])
  }

  lemma RunFirst(st: Screen, t: Token, ts: seq<Token>)
    ensures Run(st, [t] + ts) == Run(Step(st, t), ts)
  {
    assert ([t] + ts)[1..] == ts;
  }

  /** Only the newest `max` lines are kept. */
  function Trim(st: Screen, max: nat): Screen {
    if |st.lines| > max then st.(lines := st.lines[|st.lines| - max..]) else st
  }

  /** One call of `processOutput`. */
  function Process(st: Screen, data: string, max: nat): Screen {
    if data == "" then st else Trim(Run(st, Tokens(data)), max)
  }

  class Terminal {
    var lines: seq<string>
    var col: int
    var maxLines: int
    var scrollOffset: int
    var width: int
    var height: int
    var focused: bool

    /** What every method keeps: at least one line, no more than the scrollback holds, and a
        cursor column that is not negative. */
    ghost predicate Valid()
      reads this
    {
      1 <= |lines| <= maxLines && col >= 0
    }

    ghost function State(): Screen
      reads this
      requires Valid()
    {
      Screen(lines, col)
    }

    constructor ()
      ensures Valid() && State() == Screen([""], 0) && maxLines == 10000 && scrollOffset == 0 && !focused
    {
      maxLines := 10000;
      lines := [""];
      col := 0;
      scrollOffset := 0;
      width, height := 0, 0;
      focused := false;
    }

    /** Restart after the shell exited: the buffer is emptied, the column is not. */
    method Restart()
      requires Valid()
      modifies this`lines
      ensures Valid() && State() == Screen([""], old(col))
    {
      lines := [""];
    }

    method ProcessOutput(data: string)
      requires Valid()
      modifies this`lines, this`col
      ensures Valid()
      ensures State() == Process(old(State()), data, maxLines)
    {
      if data == "" { return; }
      ghost var start := Screen(lines, col);
      var i := 0;
      assert data[0..] == data;
      while i < |data|
        invariant 0 <= i <= |data|
        invariant col >= 0 && |lines| >= 1
        invariant Run(start, Tokens(data)) == Run(Screen(lines, col), Tokens(data[i..]))
      {
        NextToken(data, i);
        ghost var next := if data[i] == ESC then EscEnd(data, i) else i + 1;
        RunFirst(Screen(lines, col), Tokens(data[i..])[0], Tokens(data[next..]));
        if data[i] == ESC {
          var esc := ParseEscape(data, i);
          InterpretEscape(esc);
          i := i + |esc|;
        } else {
          InterpretChar(data[i]);
          i := i + 1;
        }
      }
      if |lines| > maxLines {
        lines := lines[|lines| - maxLines..];
      }
    }

    method InterpretEscape(esc: string)
      requires col >= 0 && |lines| >= 1
      modifies this`lines, this`col
      ensures col >= 0 && |lines| >= 1
      ensures Screen(lines, col) == StepEscape(old(Screen(lines, col)), esc)
    {
      if |esc| >= 2 && esc[..2] == [ESC, ']'] {
        // window title, working directory: swallowed
      } else if esc == [ESC] + "[2J" || esc == [ESC] + "[3J" || esc == [ESC] + "[H" + [ESC] + "[2J" {
        lines := [""];
        col := 0;
      } else if esc == [ESC] + "[K" || esc == [ESC] + "[0K" {
        if |lines| > 0 {
          var line := TruncateAtCol(lines[|lines| - 1], col);
          lines := lines[|lines| - 1 := line];
        }
      } else if esc == [ESC] + "[D" || esc == [ESC] + "[1D" {
        if col > 0 {
          col := col - 1;
        }
      } else if esc == [ESC] + "[C" || esc == [ESC] + "[1C" {
        col := col + 1;
      } else if |lines| > 0 {
        lines := lines[|lines| - 1 := lines[|lines| - 1] + esc];
      }
    }

    method InterpretChar(r: char)
      requires col >= 0 && |lines| >= 1
      modifies this`lines, this`col
      ensures col >= 0 && |lines| >= 1
      ensures Screen(lines, col) == StepGlyph(old(Screen(lines, col)), r)
    {
      if r == '\n' {
        lines := lines + [""];
        col := 0;
      } else if r == '\r' {
        col := 0;
      } else if r == BACKSPACE {
        if col > 0 {
          col := col - 1;
        }
      } else if r == '\t' {
        var spaces := 8 - col % 8;
        var s := 0;
        while s < spaces
          invariant 0 <= s <= spaces
          invariant col >= 0 && |lines| >= 1
          invariant PutBlanks(old(Screen(lines, col)), spaces) == PutBlanks(Screen(lines, col), spaces - s)
        {
          WriteChar(' ');
          s := s + 1;
        }
      } else if r == BEL {
        // bell: ignored
      } else {
        WriteChar(r);
      }
    }

    /** The write shared by the tab and default cases. */
    method WriteChar(r: char)
      requires col >= 0 && |lines| >= 1
      modifies this`lines, this`col
      ensures col >= 0 && |lines| >= 1
      ensures Screen(lines, col) == Put(old(Screen(lines, col)), r)
    {
      if |lines| > 0 {
        var line := OverwriteAtCol(lines[|lines| - 1], col, r);
        lines := lines[|lines| - 1 := line];
      }
      col := col + 1;
    }

    /** The content part of `View`: clamps the scroll offset and returns the rows to draw. */
    method VisibleRows() returns (rows: seq<string>)
      requires Valid()
      modifies this`scrollOffset
      ensures Valid()
      ensures scrollOffset == ClampScroll(old(scrollOffset), |lines|, ContentHeight(height))
      ensures |rows| == ContentHeight(height)
      ensures rows ==
        var plain := Window(lines, scrollOffset, ContentHeight(height), ViewWidth(width));
        if focused && scrollOffset == 0 then WithCursor(plain, col) else plain
    {
      var viewH := Max(height - 5, 3);
      var allLines := FitLines(lines, ViewWidth(width));
      var contentH := viewH - 2;
      if scrollOffset > |allLines| - contentH {
        scrollOffset := |allLines| - contentH;
      }
      if scrollOffset < 0 {
        scrollOffset := 0;
      }
      rows := CutWindow(allLines, scrollOffset, contentH);
      if focused && scrollOffset == 0 && |rows| > 0 {
        rows := DrawCursor(rows, col);
      }
    }
  }
}
