/**
 A terminal without escapes inside its lines: rows of cells and a cursor column. The stored
 lines of `Terminal`, with their escapes erased, are exactly what this terminal shows.
 */
module CellTerminal {
  import opened AnsiTokens
  import opened TokenBoundaries
  import opened LineEdit
  import opened Terminal

  datatype Cells = Cells(rows: seq<string>, col: nat)

  datatype Instr = Write(c: char) | NewLine | Return | Left | Right | TabStop | Clear | Erase | Nothing

  function Meaning(t: Token): Instr {
    match t
    case Glyph(c) =>
      if c == '\n' then NewLine
      else if c == '\r' then Return
      else if c == BACKSPACE then Left
      else if c == '\t' then TabStop
      else if c == BEL then Nothing
      else Write(c)
    case Escape(body) =>
      match Decode(body)
      case ClearAll => Clear
      case EraseToEnd => Erase
      case CursorLeft => Left
      case CursorRight => Right
      case _ => Nothing
  }

  /** `row` with blanks in every cell from `from` up to `to`, and in any gap before `from`. */
  function BlankOut(row: string, from: nat, to: nat): string {
    seq(Max(|row|, to), k requires 0 <= k < Max(|row|, to) => if from <= k < to || k >= |row| then ' ' else row[k])
  }

  function CellStep(st: Cells, i: Instr): Cells
    requires st.rows != []
  {
    var last := |st.rows| - 1;
    var row := st.rows[last];
    match i
    case Write(c) => Cells(st.rows[last := PutCell(row, st.col, c)], st.col + 1)
    case NewLine => Cells(st.rows + [""], 0)
    case Return => st.(col := 0)
    case Left => st.(col := Max(0, st.col - 1))
    case Right => st.(col := st.col + 1)
    case TabStop =>
      var stop := (st.col / 8 + 1) * 8;
      Cells(st.rows[last := BlankOut(row, st.col, stop)], stop)
    case Clear => Cells([""], 0)
    case Erase => st.(rows := st.rows[last := row[..Min(st.col, |row|)]])
    case Nothing => st
  }

  function CellRun(st: Cells, ts: seq<Token>): Cells
    requires st.rows != []
    decreases |ts|
  {
    if ts == [] then st else CellRun(CellStep(st, Meaning(ts[0])), ts[1..])
  }

  function CellTrim(st: Cells, max: nat): Cells {
    if |st.rows| > max then st.(rows := st.rows[|st.rows| - max..]) else st
  }

  /** What the terminal shows: each stored line without its escapes. */
  ghost function Shown(st: Screen): Cells {
    Cells(seq(|st.lines|, i requires 0 <= i < |st.lines| => VisibleText(st.lines[i])), st.col)
  }

  ghost predicate ClosedLines(st: Screen) {
    st.lines != [] && forall line | line in st.lines :: Closed(line)
  }

  // ---- refinement, token by token ----

  /** A new last line shows as a new last row. */
  lemma SetLastShown(st: Screen, line: string, col: nat)
    requires ClosedLines(st)
    ensures var last, r := |st.lines| - 1, Screen(SetLast(st.lines, line), col);
            && r.lines != []
            && Shown(r) == Cells(Shown(st).rows[last := VisibleText(line)], col)
            && (Closed(line) ==> ClosedLines(r))
  {
  }

  lemma PutRefines(st: Screen, c: char)
    requires ClosedLines(st) && c != ESC
    ensures ClosedLines(Put(st, c))
    ensures Shown(Put(st, c)) == CellStep(Shown(st), Write(c))
  {
    var last := st.lines[|st.lines| - 1];
    OverwriteEffect(last, st.col, c);
    SetLastShown(st, Overwrite(last, st.col, c), st.col + 1);
  }

  lemma BlankOutFirst(row: string, from: nat, to: nat)
    requires from < to
    ensures BlankOut(PutCell(row, from, ' '), from + 1, to) == BlankOut(row, from, to)
  {
  }

  /** `n` blanks from the cursor on, in the last row. */
  function BlanksFrom(st: Cells, n: nat): Cells
    requires st.rows != []
  {
    var last := |st.rows| - 1;
    Cells(st.rows[last := BlankOut(st.rows[last], st.col, st.col + n)], st.col + n)
  }

  lemma {:induction false} PutBlanksRefines(st: Screen, n: nat)
    requires ClosedLines(st) && n > 0
    ensures ClosedLines(PutBlanks(st, n))
    ensures Shown(PutBlanks(st, n)) == BlanksFrom(Shown(st), n)
    decreases n
  {
    PutRefines(st, ' ');
    var last := |st.lines| - 1;
    var row := Shown(st).rows[last];
    if n == 1 {
      assert PutBlanks(st, n) == Put(st, ' ');
      assert PutCell(row, st.col, ' ') == BlankOut(row, st.col, st.col + 1);
    } else {
      PutBlanksRefines(Put(st, ' '), n - 1);
      BlankOutFirst(row, st.col, st.col + n);
    }
  }

  lemma StoreRefines(line: string, esc: string)
    requires Closed(line) && WellFormed(Escape(esc))
    ensures VisibleText(line + esc) == VisibleText(line)
    ensures ClosedToken(Escape(esc)) ==> Closed(line + esc)
  {
    TokensAppend(line, esc);
    OneEscape(esc);
    TextAppend(Tokens(line), Tokens(esc), 0);
  }

  lemma TabRefines(st: Screen)
    requires ClosedLines(st)
    ensures ClosedLines(StepGlyph(st, '\t'))
    ensures Shown(StepGlyph(st, '\t')) == CellStep(Shown(st), TabStop)
  {
    PutBlanksRefines(st, TabGap(st.col));
  }

  lemma NewLineRefines(st: Screen)
    requires ClosedLines(st)
    ensures ClosedLines(StepGlyph(st, '\n'))
    ensures Shown(StepGlyph(st, '\n')) == CellStep(Shown(st), NewLine)
  {
    assert VisibleText("") == "";
  }

  lemma StepGlyphRefines(st: Screen, c: char)
    requires ClosedLines(st) && c != ESC
    ensures ClosedLines(StepGlyph(st, c))
    ensures Shown(StepGlyph(st, c)) == CellStep(Shown(st), Meaning(Glyph(c)))
  {
    if c == '\n' {
      NewLineRefines(st);
    } else if c == '\t' {
      TabRefines(st);
    } else if Meaning(Glyph(c)).Write? {
      PutRefines(st, c);
    }
  }

  lemma StepEscapeRefines(st: Screen, esc: string)
    requires ClosedLines(st) && WellFormed(Escape(esc))
    ensures StepEscape(st, esc).lines != []
    ensures Shown(StepEscape(st, esc)) == CellStep(Shown(st), Meaning(Escape(esc)))
    ensures ClosedToken(Escape(esc)) ==> ClosedLines(StepEscape(st, esc))
  {
    var last := st.lines[|st.lines| - 1];
    match Decode(esc)
    case EraseToEnd =>
      TruncateEffect(last, st.col);
      SetLastShown(st, Truncate(last, st.col), st.col);
    case Store =>
      StoreRefines(last, esc);
      SetLastShown(st, last + esc, st.col);
    case ClearAll =>
      assert VisibleText("") == "";
    case _ =>
  }

  lemma StepRefines(st: Screen, t: Token)
    requires ClosedLines(st) && WellFormed(t)
    ensures Step(st, t).lines != []
    ensures Shown(Step(st, t)) == CellStep(Shown(st), Meaning(t))
    ensures ClosedToken(t) ==> ClosedLines(Step(st, t))
  {
    match t
    case Glyph(c) => StepGlyphRefines(st, c);
    case Escape(body) => StepEscapeRefines(st, body);
  }

  lemma {:induction false} RunRefines(st: Screen, ts: seq<Token>)
    requires ClosedLines(st) && Scannable(ts)
    ensures Shown(Run(st, ts)) == CellRun(Shown(st), ts)
    ensures Run(st, ts).lines != []
    ensures AllClosed(ts) ==> ClosedLines(Run(st, ts))
    decreases |ts|
  {
    if ts != [] {
      StepRefines(st, ts[0]);
      if |ts| == 1 {
        assert ts[1..] == [];
        assert Run(st, ts) == Step(st, ts[0]);
      } else {
        RunRefines(Step(st, ts[0]), ts[1..]);
      }
    }
  }

  /** One read, from a screen whose stored escapes are closed: whatever the data, even cut in
      the middle of an escape, the screen shows what the cell terminal shows. */
  lemma ProcessRefines(st: Screen, data: string, max: nat)
    requires ClosedLines(st) && max >= 1
    ensures data != "" ==>
      Shown(Process(st, data, max)) == CellTrim(CellRun(Shown(st), Tokens(data)), max)
    ensures Closed(data) ==> ClosedLines(Process(st, data, max))
  {
    TokensScannable(data);
    RunRefines(st, Tokens(data));
  }
}
