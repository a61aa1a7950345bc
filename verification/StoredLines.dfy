/**
 What a line of the terminal can hold: no OSC sequence, as long as no read is cut inside an
 escape. So the two width measures compare as `WidthsAgreeIff` says on every line stored.
 */
module StoredLines {
  import opened AnsiTokens
  import opened TokenBoundaries
  import opened LineEdit
  import opened LineWidth
  import opened Terminal
  import opened CellTerminal
  import opened TerminalSession

  /** No stored line holds an OSC sequence. */
  ghost predicate OscFree(st: Screen) {
    forall line | line in st.lines :: NoOsc(Tokens(line))
  }

  lemma NoOscAppend(a: seq<Token>, b: seq<Token>)
    ensures NoOsc(a + b) <==> NoOsc(a) && NoOsc(b)
  {
    assert forall t | t in a :: t in a + b;
    assert forall t | t in b :: t in a + b;
  }

  lemma {:induction false} PlainNoOsc(u: string)
    requires ESC !in u
    ensures NoOsc(Tokens(u))
  {
    if u != "" {
      PlainNoOsc(u[1..]);
    }
  }

  lemma {:induction false} SetGlyphNoOsc(ts: seq<Token>, k: int, r: char)
    requires NoOsc(ts)
    ensures NoOsc(SetGlyph(ts, k, r))
  {
    if ts != [] {
      assert ts[0] in ts && forall t | t in ts[1..] :: t in ts;
      SetGlyphNoOsc(ts[1..], if ts[0].Glyph? then k - 1 else k, r);
    }
  }

  lemma {:induction false} KeepGlyphsNoOsc(ts: seq<Token>, k: int)
    requires NoOsc(ts)
    ensures NoOsc(KeepGlyphs(ts, k))
  {
    if ts != [] {
      assert ts[0] in ts && forall t | t in ts[1..] :: t in ts;
      KeepGlyphsNoOsc(ts[1..], if ts[0].Glyph? && k > 0 then k - 1 else k);
    }
  }

  lemma OverwriteNoOsc(s: string, col: nat, r: char)
    requires Closed(s) && NoOsc(Tokens(s)) && r != ESC
    ensures NoOsc(Tokens(Overwrite(s, col, r)))
  {
    if col >= VisibleLen(s) {
      var u := Blanks(col - VisibleLen(s)) + [r];
      assert Overwrite(s, col, r) == s + u;
      TokensAppend(s, u);
      PlainNoOsc(u);
      NoOscAppend(Tokens(s), Tokens(u));
    } else {
      TokensScannable(s);
      SetGlyphEffect(Tokens(s), col, r, 0);
      TokensJoin(SetGlyph(Tokens(s), col, r));
      SetGlyphNoOsc(Tokens(s), col, r);
    }
  }

  lemma TruncateNoOsc(s: string, col: nat)
    requires NoOsc(Tokens(s))
    ensures NoOsc(Tokens(Truncate(s, col)))
  {
    if col < VisibleLen(s) {
      TokensScannable(s);
      KeepGlyphsEffect(Tokens(s), col, 0);
      TokensJoin(KeepGlyphs(Tokens(s), col));
      KeepGlyphsNoOsc(Tokens(s), col);
    }
  }

  lemma StoreNoOsc(line: string, esc: string)
    requires Closed(line) && NoOsc(Tokens(line)) && WellFormed(Escape(esc)) && Decode(esc).Store?
    ensures NoOsc(Tokens(line + esc))
  {
    TokensAppend(line, esc);
    OneEscape(esc);
    assert |esc| >= 2 ==> esc[..2] == [esc[0], esc[1]];
    NoOscAppend(Tokens(line), Tokens(esc));
  }

  lemma PutNoOsc(st: Screen, c: char)
    requires ClosedLines(st) && OscFree(st) && c != ESC
    ensures OscFree(Put(st, c))
  {
    OverwriteNoOsc(st.lines[|st.lines| - 1], st.col, c);
  }

  lemma {:induction false} PutBlanksNoOsc(st: Screen, n: nat)
    requires ClosedLines(st) && OscFree(st)
    ensures OscFree(PutBlanks(st, n))
    decreases n
  {
    if n > 0 {
      PutNoOsc(st, ' ');
      PutRefines(st, ' ');
      PutBlanksNoOsc(Put(st, ' '), n - 1);
    }
  }

  /** No token leaves an OSC sequence behind. */
  lemma StepNoOsc(st: Screen, t: Token)
    requires ClosedLines(st) && OscFree(st) && WellFormed(t)
    ensures OscFree(Step(st, t))
  {
    var last := st.lines[|st.lines| - 1];
    match t
    case Glyph(c) =>
      if c == '\t' {
        PutBlanksNoOsc(st, TabGap(st.col));
      } else if Meaning(t).Write? {
        PutNoOsc(st, c);
      }
    case Escape(body) =>
      match Decode(body)
      case EraseToEnd => TruncateNoOsc(last, st.col);
      case Store => StoreNoOsc(last, body);
      case _ =>
  }

  lemma {:induction false} RunNoOsc(st: Screen, ts: seq<Token>)
    requires ClosedLines(st) && OscFree(st) && Scannable(ts)
    ensures OscFree(Run(st, ts))
    decreases |ts|
  {
    if ts != [] {
      StepNoOsc(st, ts[0]);
      StepRefines(st, ts[0]);
      if |ts| == 1 {
        assert ts[1..] == [];
      } else {
        RunNoOsc(Step(st, ts[0]), ts[1..]);
      }
    }
  }

  lemma ProcessNoOsc(st: Screen, data: string, max: nat)
    requires ClosedLines(st) && OscFree(st)
    ensures OscFree(Process(st, data, max))
  {
    TokensScannable(data);
    RunNoOsc(st, Tokens(data));
  }

  lemma {:induction false} SessionNoOsc(st: Screen, chunks: seq<string>, max: nat)
    requires ClosedLines(st) && OscFree(st) && max >= 1 && CutBetweenTokens(chunks)
    ensures OscFree(Session(st, chunks, max))
    decreases |chunks|
  {
    if chunks != [] {
      ProcessNoOsc(st, chunks[0], max);
      if |chunks| == 1 {
        assert Session(st, chunks, max) == Session(Process(st, chunks[0], max), [], max);
      } else {
        ProcessRefines(st, chunks[0], max);
        SessionNoOsc(Process(st, chunks[0], max), chunks[1..], max);
      }
    }
  }

  /** On every line of every session whose reads are cut between tokens, the rune count never
      exceeds the visible length, and it falls short exactly when a visible character directly
      follows an escape that does not end in a letter or `~`. */
  lemma SessionWidths(chunks: seq<string>, max: nat, line: string)
    requires max >= 1 && CutBetweenTokens(chunks)
    requires line in Session(Screen([""], 0), chunks, max).lines
    ensures Scannable(Tokens(line))
    ensures RuneCount(line, false) <= VisibleLen(line)
    ensures RuneCount(line, false) == VisibleLen(line) <==> !SwallowsText(Tokens(line))
  {
    SessionNoOsc(Screen([""], 0), chunks, max);
    WidthsAgreeIff(line);
  }
}
