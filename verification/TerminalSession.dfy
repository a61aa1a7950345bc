/**
 Whole sessions of the terminal: output arrives in chunks, the scrollback is trimmed after
 each one, and the cuts between chunks do not show as long as they fall between tokens.
 */
module TerminalSession {
  import opened AnsiTokens
  import opened TokenBoundaries
  import opened LineEdit
  import opened Terminal
  import opened CellTerminal

  /** `a` is `b` with some of the oldest lines missing, but none of the newest `max`. */
  predicate SameTail(a: Screen, b: Screen, max: nat) {
    && a.col == b.col
    && 1 <= |a.lines| <= |b.lines|
    && a.lines == b.lines[|b.lines| - |a.lines|..]
    && Min(max, |b.lines|) <= |a.lines|
  }

  /** Replacing the last line of both keeps the tail common. */
  lemma SetLastTail(a: Screen, b: Screen, line: string, col: nat, max: nat)
    requires SameTail(a, b, max)
    ensures SameTail(Screen(SetLast(a.lines, line), col), Screen(SetLast(b.lines, line), col), max)
  {
  }

  lemma PutTail(a: Screen, b: Screen, c: char, max: nat)
    requires SameTail(a, b, max)
    ensures SameTail(Put(a, c), Put(b, c), max)
  {
    var last := a.lines[|a.lines| - 1];
    assert last == b.lines[|b.lines| - 1];
    SetLastTail(a, b, Overwrite(last, a.col, c), a.col + 1, max);
  }

  lemma {:induction false} PutBlanksTail(a: Screen, b: Screen, n: nat, max: nat)
    requires SameTail(a, b, max)
    ensures SameTail(PutBlanks(a, n), PutBlanks(b, n), max)
    decreases n
  {
    if n > 0 {
      PutTail(a, b, ' ', max);
      PutBlanksTail(Put(a, ' '), Put(b, ' '), n - 1, max);
    }
  }

  lemma NewLineTail(a: Screen, b: Screen, max: nat)
    requires SameTail(a, b, max)
    ensures SameTail(Screen(a.lines + [""], 0), Screen(b.lines + [""], 0), max)
  {
    assert a.lines + [""] == (b.lines + [""])[|b.lines| - |a.lines|..];
  }

  lemma GlyphTail(a: Screen, b: Screen, c: char, max: nat)
    requires SameTail(a, b, max)
    ensures SameTail(StepGlyph(a, c), StepGlyph(b, c), max)
  {
    if c == '\n' {
      NewLineTail(a, b, max);
    } else if c == '\t' {
      PutBlanksTail(a, b, TabGap(a.col), max);
    } else {
      PutTail(a, b, c, max);
    }
  }

  lemma EscapeTail(a: Screen, b: Screen, esc: string, max: nat)
    requires SameTail(a, b, max)
    ensures SameTail(StepEscape(a, esc), StepEscape(b, esc), max)
  {
    var last := a.lines[|a.lines| - 1];
    assert last == b.lines[|b.lines| - 1];
    match Decode(esc)
    case EraseToEnd => SetLastTail(a, b, Truncate(last, a.col), a.col, max);
    case Store => SetLastTail(a, b, last + esc, a.col, max);
    case _ =>
  }

  /** No token looks at, or changes, anything above the last line. */
  lemma StepTail(a: Screen, b: Screen, t: Token, max: nat)
    requires SameTail(a, b, max)
    ensures SameTail(Step(a, t), Step(b, t), max)
  {
    match t
    case Glyph(c) => GlyphTail(a, b, c, max);
    case Escape(body) => EscapeTail(a, b, body, max);
  }

  lemma {:induction false} RunTail(a: Screen, b: Screen, ts: seq<Token>, max: nat)
    requires SameTail(a, b, max)
    ensures SameTail(Run(a, ts), Run(b, ts), max)
    decreases |ts|
  {
    if ts != [] {
      StepTail(a, b, ts[0], max);
      RunTail(Step(a, ts[0]), Step(b, ts[0]), ts[1..], max);
    }
  }

  lemma {:induction false} RunAppend(st: Screen, a: seq<Token>, b: seq<Token>)
    ensures Run(st, a + b) == Run(Run(st, a), b)
    decreases |a|
  {
    if a == [] {
      assert a + b == b;
    } else {
      assert (a + b)[1..] == a[1..] + b;
      RunAppend(Step(st, a[0]), a[1..], b);
    }
  }

  lemma {:induction false} RunKeepsALine(st: Screen, ts: seq<Token>)
    requires st.lines != []
    ensures Run(st, ts).lines != []
    decreases |ts|
  {
    RunTail(st, st, ts, 0);
  }

  lemma TrimTail(a: Screen, b: Screen, max: nat)
    requires SameTail(a, b, max)
    ensures Trim(a, max) == Trim(b, max)
    ensures max >= 1 ==> SameTail(Trim(b, max), b, max)
  {
  }

  /** Chunk independence: a read cut at a token boundary leaves the same screen as the two
      reads one after the other, although the scrollback is trimmed in between. */
  lemma ChunkIndependence(st: Screen, a: string, b: string, max: nat)
    requires 1 <= |st.lines| <= max
    requires Boundary(a, b)
    ensures Process(Process(st, a, max), b, max) == Process(st, a + b, max)
  {
    BoundaryIffClosed(a, b);
    if a == "" {
      assert a + b == b;
    } else if b == "" {
      assert a + b == a;
    } else {
      TokensAppend(a, b);
      var mid := Run(st, Tokens(a));
      RunKeepsALine(st, Tokens(a));
      RunAppend(st, Tokens(a), Tokens(b));
      TrimTail(mid, mid, max);
      RunTail(Trim(mid, max), mid, Tokens(b), max);
      TrimTail(Run(Trim(mid, max), Tokens(b)), Run(mid, Tokens(b)), max);
    }
  }

  // ---- sessions ----

  function Session(st: Screen, chunks: seq<string>, max: nat): Screen
    decreases |chunks|
  {
    if chunks == [] then st else Session(Process(st, chunks[0], max), chunks[1..], max)
  }

  function Concat(chunks: seq<string>): string {
    if chunks == [] then "" else chunks[0] + Concat(chunks[1..])
  }

  /** Every chunk but the last ends outside an escape. */
  predicate CutBetweenTokens(chunks: seq<string>) {
    |chunks| <= 1 || (Closed(chunks[0]) && CutBetweenTokens(chunks[1..]))
  }

  /** After every read the buffer holds between one line and the scrollback limit. */
  lemma ProcessBounds(st: Screen, data: string, max: nat)
    requires 1 <= |st.lines| <= max
    ensures 1 <= |Process(st, data, max).lines| <= max
  {
    RunKeepsALine(st, Tokens(data));
  }

  /** A session is its concatenated output, however it was cut into reads between tokens. */
  lemma {:induction false} SessionIsOneRead(st: Screen, chunks: seq<string>, max: nat)
    requires 1 <= |st.lines| <= max
    requires CutBetweenTokens(chunks)
    ensures Session(st, chunks, max) == Process(st, Concat(chunks), max)
    decreases |chunks|
  {
    if |chunks| == 1 {
      assert chunks[0] + "" == chunks[0];
      assert Session(st, chunks, max) == Session(Process(st, chunks[0], max), [], max);
    } else if chunks != [] {
      var rest := Concat(chunks[1..]);
      ProcessBounds(st, chunks[0], max);
      SessionIsOneRead(Process(st, chunks[0], max), chunks[1..], max);
      BoundaryIffClosed(chunks[0], rest);
      ChunkIndependence(st, chunks[0], rest, max);
    }
  }

  /** Refinement over whole sessions: from a new terminal, what the stored lines show is what
      the cell terminal shows for the whole output, trimmed once at the end. */
  lemma SessionRefines(chunks: seq<string>, max: nat)
    requires max >= 1 && CutBetweenTokens(chunks)
    ensures var shown := Shown(Session(Screen([""], 0), chunks, max));
            shown == CellTrim(CellRun(Cells([""], 0), Tokens(Concat(chunks))), max)
  {
    var st := Screen([""], 0);
    SessionIsOneRead(st, chunks, max);
    assert VisibleText("") == "";
    assert Shown(st) == Cells([""], 0);
    ProcessRefines(st, Concat(chunks), max);
  }

  /** The terminal under the message loop: after any reads its buffer is that of the session,
      and if they were cut between tokens it shows what the cell terminal shows. */
  method Serve(chunks: seq<string>) returns (t: Terminal)
    ensures fresh(t) && t.Valid() && t.State() == Session(Screen([""], 0), chunks, 10000)
    ensures CutBetweenTokens(chunks) ==>
      Shown(t.State()) == CellTrim(CellRun(Cells([""], 0), Tokens(Concat(chunks))), 10000)
  {
    t := new Terminal();
    ghost var start := t.State();
    assert chunks[0..] == chunks;
    for i := 0 to |chunks|
      invariant fresh(t) && t.Valid() && t.maxLines == 10000
      invariant Session(t.State(), chunks[i..], 10000) == Session(start, chunks, 10000)
    {
      assert chunks[i..][1..] == chunks[i + 1..];
      t.ProcessOutput(chunks[i]);
    }
    if CutBetweenTokens(chunks) {
      SessionRefines(chunks, 10000);
    }
  }
}
