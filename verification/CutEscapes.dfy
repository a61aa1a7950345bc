/**
 Reads that are cut inside an escape sequence: when the cut shows, and what it leaves behind.
 */
module CutEscapes {
  import opened AnsiTokens
  import opened TokenBoundaries
  import opened LineEdit
  import opened LineWidth
  import opened Terminal
  import opened CellTerminal
  import opened TerminalSession
  import opened TokenEffects

  // ---- what an escape cut short means ----

  /** ESC [ H ESC [ 2 J is two escapes. */
  lemma HomeAndClear()
    ensures EscLen([ESC] + "[H" + [ESC] + "[2J") == 3
  {
    var e := [ESC] + "[H" + [ESC] + "[2J";
    assert e[1] == '[' && e[2..][0] == 'H';
  }

  /** The escapes the terminal obeys: a final letter, perhaps behind one digit. */
  lemma CommandForm(e: string)
    requires StartsEscape(e) && EscLen(e) == |e| && !Decode(e).Store? && !Decode(e).Swallow?
    ensures 3 <= |e| <= 4 && e[1] == '[' && IsFinal(e[|e| - 1])
    ensures |e| == 4 ==> '0' <= e[2] <= '9'
  {
    HomeAndClear();
  }

  /** They are closed, and have only printing characters behind ESC. */
  lemma CommandClosed(e: string)
    requires StartsEscape(e) && EscLen(e) == |e| && !Decode(e).Store? && !Decode(e).Swallow?
    ensures EscClosed(e) && Specials(e) == 1 && e[1] == '['
  {
    CommandForm(e);
    CommandSpecials(e);
    var t := e[2..];
    if |e| == 4 {
      assert t[1..] == [t[1]] && CsiClosed([t[1]]);
    }
  }

  lemma CommandSpecials(e: string)
    requires StartsEscape(e) && 3 <= |e| <= 4 && e[1] == '[' && IsFinal(e[|e| - 1])
    requires |e| == 4 ==> '0' <= e[2] <= '9'
    ensures Specials(e) == 1
  {
    assert forall i | 0 <= i < |e[1..]| :: e[1..][i] == e[i + 1];
    NoSpecials(e[1..]);
  }

  lemma DecodeOpen(a: string)
    requires StartsEscape(a) && !EscClosed(a)
    ensures Decode(a) == if IsOsc(Escape(a)) then Swallow else Store
  {
    EscAppend(a, "");
    if !Decode(a).Store? && !Decode(a).Swallow? {
      CommandClosed(a);
    }
    DecodeOsc(a);
  }

  lemma DecodeOsc(e: string)
    requires StartsEscape(e)
    ensures Decode(e).Swallow? <==> IsOsc(Escape(e))
  {
    assert |e| >= 2 ==> (e[..2] == [ESC, ']'] <==> e[1] == ']');
  }

  /** One read of one whole escape. */
  lemma ReadEscape(st: Screen, e: string, max: nat)
    requires 1 <= |st.lines| <= max && StartsEscape(e) && EscLen(e) == |e|
    ensures Process(st, e, max) == StepEscape(st, e)
  {
    OneEscape(e);
    assert [Escape(e)] == [Escape(e)] + [];
    RunFirst(st, Escape(e), []);
  }

  // ---- when the cut shows ----

  /** The rest `b` of an escape of which `a` was read first. */
  predicate Halves(a: string, b: string) {
    StartsEscape(a) && !EscClosed(a) && EscLen(a + b) == |a + b| && EscClosed(a + b)
  }

  lemma HalvesSize(a: string, b: string)
    requires Halves(a, b)
    ensures b != "" && EscLen(a) == |a|
  {
    EscAppend(a, b);
    assert b == "" ==> a + b == a;
  }

  /** Where every token of the rest is written or stored, the column tells. */
  lemma WrittenOrStored(mid: Screen, b: string, max: nat)
    requires 1 <= |mid.lines| <= max
    requires forall t | t in Tokens(b) :: Meaning(t).Write? || IsStored(t)
    ensures var e := Process(mid, b, max);
            && (e.col == mid.col <==> forall t | t in Tokens(b) :: IsStored(t))
            && (e.col == mid.col ==> e == Screen(SetLast(mid.lines, LastLine(mid) + b), mid.col))
  {
    var ts := Tokens(b);
    StoredIsStill(ts);
    StillProcess(mid, b, max);
    WritesOrStored(ts);
    JoinTokens(b);
  }

  lemma StoredIsStill(ts: seq<Token>)
    requires forall t | t in ts :: Meaning(t).Write? || IsStored(t)
    ensures forall t | t in ts :: IsStill(t)
  {
  }

  /** Where not, some special character is missing in the line. */
  lemma SpecialMissing(mid: Screen, b: string, max: nat)
    requires 1 <= |mid.lines| <= max && b != ""
    requires exists t | t in Tokens(b) :: !Meaning(t).Write? && !IsStored(t)
    ensures var e := Process(mid, b, max); e.lines != [] && Specials(LastLine(e)) < Specials(LastLine(mid) + b)
  {
    TokensScannable(b);
    JoinTokens(b);
    RunSpecials(mid, Tokens(b));
    StoredLess(Tokens(b));
    SpecialsAppend(LastLine(mid), b);
  }

  /** The whole escape would be stored. */
  lemma StoredInTwo(st: Screen, a: string, b: string, max: nat)
    requires 1 <= |st.lines| <= max && Halves(a, b) && Decode(a + b).Store?
    ensures Process(StepEscape(st, a), b, max) == StepEscape(st, a + b) <==> forall t | t in Tokens(b) :: IsStored(t)
  {
    var mid := StepEscape(st, a);
    HalvesSize(a, b);
    DecodeOsc(a + b);
    OpenStored(st, a, b);
    assert LastLine(st) + (a + b) == LastLine(mid) + b;
    assert StepEscape(st, a + b) == Screen(SetLast(mid.lines, LastLine(mid) + b), mid.col);
    if t :| t in Tokens(b) && !Meaning(t).Write? && !IsStored(t) {
      SpecialMissing(mid, b, max);
    } else {
      WrittenOrStored(mid, b, max);
    }
  }

  /** What is open and not part of an OSC has been stored. */
  lemma OpenStored(st: Screen, a: string, b: string)
    requires st.lines != [] && Halves(a, b) && !IsOsc(Escape(a + b))
    ensures StepEscape(st, a) == Screen(SetLast(st.lines, LastLine(st) + a), st.col)
  {
    DecodeOpen(a);
    assert |a| >= 2 ==> a[1] == (a + b)[1];
  }

  lemma {:induction false} WritesOrStored(ts: seq<Token>)
    requires forall t | t in ts :: Meaning(t).Write? || IsStored(t)
    ensures Writes(ts) == 0 <==> forall t | t in ts :: IsStored(t)
    ensures Writes(ts) == 0 ==> StoredText(ts) == Join(ts)
  {
    if ts != [] {
      assert ts[0] in ts && forall t | t in ts[1..] :: t in ts;
      assert forall t | t in ts :: t == ts[0] || t in ts[1..];
      WritesOrStored(ts[1..]);
    }
  }

  lemma {:induction false} PlainWrites(b: string)
    requires forall i | 0 <= i < |b| :: !Special(b[i])
    ensures Writes(Tokens(b)) == |b| && forall t | t in Tokens(b) :: Meaning(t).Write?
  {
    if b != "" {
      assert forall i | 0 <= i < |b[1..]| :: b[1..][i] == b[i + 1];
      PlainWrites(b[1..]);
    }
  }

  /** The whole escape would be obeyed: the rest is written instead. */
  lemma CommandInTwo(st: Screen, a: string, b: string, max: nat)
    requires 1 <= |st.lines| <= max && Halves(a, b) && !Decode(a + b).Store? && !Decode(a + b).Swallow?
    ensures Process(StepEscape(st, a), b, max) != StepEscape(st, a + b)
    ensures Tokens(b) != [] && !IsStored(Tokens(b)[0])
  {
    var mid := StepEscape(st, a);
    HalvesSize(a, b);
    CommandClosed(a + b);
    SpecialsAppend(a, b);
    NoSpecials(b);
    PlainWrites(b);
    OpenStored(st, a, b);
    assert Tokens(b)[0] in Tokens(b);
    StillProcess(mid, b, max);
    assert |LastLine(Process(mid, b, max))| > |LastLine(st)|;
  }

  /** A read that ends inside an escape, of which the next read brings the rest, whatever that is
      made of. If the escape is not an OSC sequence, the screen is the same as if it had come in one
      piece exactly when the rest is itself a row of escapes that are stored. */
  lemma CutShowsIff(st: Screen, p: string, a: string, b: string, max: nat)
    requires 1 <= |st.lines| <= max && Closed(p) && Halves(a, b) && !IsOsc(Escape(a + b))
    ensures Process(Process(st, p + a, max), b, max) == Process(st, p + (a + b), max)
            <==> forall t | t in Tokens(b) :: IsStored(t)
  {
    var from := Process(st, p, max);
    BehindPrefix(st, p, a, b, max);
    DecodeOsc(a + b);
    if Decode(a + b).Store? {
      StoredInTwo(from, a, b, max);
    } else {
      CommandInTwo(from, a, b, max);
      assert Tokens(b)[0] in Tokens(b);
    }
  }

  /** Both ways of reading, behind a closed prefix. */
  lemma BehindPrefix(st: Screen, p: string, a: string, b: string, max: nat)
    requires 1 <= |st.lines| <= max && Closed(p) && Halves(a, b)
    ensures var from := Process(st, p, max);
            && 1 <= |from.lines| <= max
            && Process(Process(st, p + a, max), b, max) == Process(StepEscape(from, a), b, max)
            && Process(st, p + (a + b), max) == StepEscape(from, a + b)
  {
    ProcessBounds(st, p, max);
    BoundaryIffClosed(p, a);
    BoundaryIffClosed(p, a + b);
    ChunkIndependence(st, p, a, max);
    ChunkIndependence(st, p, a + b, max);
    HalvesSize(a, b);
    ReadEscape(Process(st, p, max), a, max);
    ReadEscape(Process(st, p, max), a + b, max);
  }

  /** Of an OSC sequence that was recognised before the cut, the rest is obeyed as if it stood
      alone: the screen is the same exactly when that changes nothing. */
  lemma OscRestObeyed(st: Screen, p: string, a: string, b: string, max: nat)
    requires 1 <= |st.lines| <= max && Closed(p) && Halves(a, b) && IsOsc(Escape(a))
    ensures var from := Process(st, p, max);
            && Process(Process(st, p + a, max), b, max) == Process(from, b, max)
            && Process(st, p + (a + b), max) == from
  {
    BehindPrefix(st, p, a, b, max);
    DecodeOpen(a);
    DecodeOsc(a + b);
  }

  /** If the escape is an OSC sequence, and nothing in the rest moves the cursor back, to another
      line or clears anything, the screen is the same exactly when the rest is nothing but BEL and
      OSC sequences. */
  lemma OscCutShowsIff(st: Screen, p: string, a: string, b: string, max: nat)
    requires 1 <= |st.lines| <= max && Closed(p) && Halves(a, b) && IsOsc(Escape(a + b))
    requires forall t | t in Tokens(b) :: IsStill(t)
    ensures Process(Process(st, p + a, max), b, max) == Process(st, p + (a + b), max)
            <==> forall t | t in Tokens(b) :: IsSilent(t)
  {
    BehindPrefix(st, p, a, b, max);
    OscInTwo(Process(st, p, max), a, b, max);
  }

  lemma OscInTwo(st: Screen, a: string, b: string, max: nat)
    requires 1 <= |st.lines| <= max && Halves(a, b) && IsOsc(Escape(a + b))
    requires forall t | t in Tokens(b) :: IsStill(t)
    ensures Process(StepEscape(st, a), b, max) == StepEscape(st, a + b) <==> forall t | t in Tokens(b) :: IsSilent(t)
  {
    DecodeOpen(a);
    DecodeOsc(a + b);
    if IsOsc(Escape(a)) {
      HalvesSize(a, b);
      StillChanges(st, b, max);
    } else {
      OscFront(a, b);
      StillMoves(StepEscape(st, a), b, max);
    }
  }

  /** Such a rest, read on its own, changes the screen unless it is silent. */
  lemma StillChanges(st: Screen, b: string, max: nat)
    requires 1 <= |st.lines| <= max && b != "" && forall t | t in Tokens(b) :: IsStill(t)
    ensures Process(st, b, max) == st <==> forall t | t in Tokens(b) :: IsSilent(t)
  {
    var ts := Tokens(b);
    TokensScannable(b);
    StillProcess(st, b, max);
    SilentIff(ts);
    assert |LastLine(st) + StoredText(ts)| == |LastLine(st)| + |StoredText(ts)|;
    assert LastLine(st) + "" == LastLine(st);
  }

  /** If it starts with a character to write, it moves the cursor. */
  lemma StillMoves(st: Screen, b: string, max: nat)
    requires 1 <= |st.lines| <= max && b != "" && forall t | t in Tokens(b) :: IsStill(t)
    requires Meaning(Tokens(b)[0]).Write?
    ensures Process(st, b, max).col > st.col && exists t | t in Tokens(b) :: !IsSilent(t)
  {
    StillProcess(st, b, max);
    assert Tokens(b)[0] in Tokens(b);
  }

  lemma OscStays(a: string, b: string)
    requires |a| >= 1
    ensures |a| >= 2 ==> (IsOsc(Escape(a)) <==> IsOsc(Escape(a + b)))
  {
    assert |a| >= 2 ==> (a + b)[1] == a[1];
  }

  /** An OSC sequence cut behind its ESC. */
  lemma OscFront(a: string, b: string)
    requires Halves(a, b) && IsOsc(Escape(a + b)) && !IsOsc(Escape(a))
    ensures a == [ESC] && b != "" && Meaning(Tokens(b)[0]).Write?
  {
    HalvesSize(a, b);
    OscStays(a, b);
    assert (a + b)[1] == b[0];
  }

  lemma {:induction false} SilentIff(ts: seq<Token>)
    requires Scannable(ts) && forall t | t in ts :: IsStill(t)
    ensures (forall t | t in ts :: IsSilent(t)) <==> Writes(ts) == 0 && StoredText(ts) == ""
  {
    if ts != [] {
      assert ts[0] in ts && forall t | t in ts[1..] :: t in ts;
      assert forall t | t in ts :: t == ts[0] || t in ts[1..];
      SilentIff(ts[1..]);
    }
  }

  // ---- instances ----

  lemma TextThen(c: string, e: string)
    requires forall i | 0 <= i < |c| :: !Special(c[i])
    ensures Tokens(c + e) == Tokens(c) + Tokens(e)
    ensures forall t | t in Tokens(c) :: Meaning(t).Write?
    ensures c != "" ==> Tokens(c) != []
  {
    assert forall i | 0 <= i < |c| :: c[i] != ESC;
    PlainTokens(c);
    TokensAppend(c, e);
    PlainWrites(c);
  }

  /** The rest of an OSC sequence whose text ends in `c`, with its end `e`. */
  lemma OscTextCut(st: Screen, p: string, a: string, c: string, e: string, t: Token, max: nat)
    requires 1 <= |st.lines| <= max && Closed(p) && IsOsc(Escape(a)) && Halves(a, c + e)
    requires forall i | 0 <= i < |c| :: !Special(c[i])
    requires Tokens(e) == [t] && Meaning(t).Nothing?
    ensures Process(Process(st, p + a, max), c + e, max) == Process(st, p + (a + (c + e)), max) <==> c == "" && IsSilent(t)
  {
    var ts := Tokens(c + e);
    TextThen(c, e);
    OscStays(a, c + e);
    assert forall u | u in ts :: u in Tokens(c) || u == t;
    OscCutShowsIff(st, p, a, c + e, max);
    if c != "" {
      assert ts[0] == Tokens(c)[0] && Tokens(c)[0] in Tokens(c) && ts[0] in ts;
    } else {
      assert ts == [t] && t in ts;
    }
  }

  /** Ended by BEL, the cut shows unless only the BEL was missing. */
  lemma OscBelCut(st: Screen, p: string, a: string, c: string, max: nat)
    requires 1 <= |st.lines| <= max && Closed(p) && IsOsc(Escape(a)) && Halves(a, c + [BEL])
    requires forall i | 0 <= i < |c| :: !Special(c[i])
    ensures Process(Process(st, p + a, max), c + [BEL], max) == Process(st, p + (a + (c + [BEL])), max) <==> c == ""
  {
    assert [BEL][1..] == "" && Tokens([BEL]) == [Glyph(BEL)];
    OscTextCut(st, p, a, c, [BEL], Glyph(BEL), max);
  }

  /** Ended by ESC \, it always shows. */
  lemma OscStCut(st: Screen, p: string, a: string, c: string, max: nat)
    requires 1 <= |st.lines| <= max && Closed(p) && IsOsc(Escape(a)) && Halves(a, c + [ESC, '\\'])
    requires forall i | 0 <= i < |c| :: !Special(c[i])
    ensures Process(Process(st, p + a, max), c + [ESC, '\\'], max) != Process(st, p + (a + (c + [ESC, '\\'])), max)
  {
    var e := [ESC, '\\'];
    assert EscLen(e) == 2 && Decode(e).Store?;
    OneEscape(e);
    OscTextCut(st, p, a, c, e, Escape(e), max);
  }

  /** ESC [ and, in the next read, ESC [ A: the two escapes are stored one behind the other, as the
      scanner would have stored all five characters as one, so this cut does not show. */
  lemma EscapeInEscape(st: Screen, max: nat)
    requires 1 <= |st.lines| <= max
    ensures var a, b := [ESC, '['], [ESC, '[', 'A'];
            Halves(a, b) && Process(Process(st, a, max), b, max) == Process(st, a + b, max)
  {
    var a, b := [ESC, '['], [ESC, '[', 'A'];
    FinalOnly();
    HalfEscapes();
    OneEscape(b);
    assert Tokens(b) == [Escape(b)] && IsStored(Escape(b));
    assert "" + a == a && "" + (a + b) == a + b;
    CutShowsIff(st, "", a, b, max);
  }

  lemma FinalOnly()
    ensures CsiClosed("A") && CsiLen("A") == 1
    ensures EscLen([ESC, '[', 'A']) == 3 && Decode([ESC, '[', 'A']).Store?
  {
    var b := [ESC, '[', 'A'];
    assert b[2..] == "A";
  }

  lemma HalfEscapes()
    ensures Halves([ESC, '['], [ESC, '[', 'A'])
  {
    var e := [ESC, '['] + [ESC, '[', 'A'];
    FinalOnly();
    assert [ESC, '['][2..] == "";
    assert e[2..] == [ESC] + "[A" && ([ESC] + "[A")[1..] == "[A" && "[A"[1..] == "A";
    assert CsiClosed("[A") && CsiLen("[A") == 2;
    assert CsiClosed([ESC] + "[A") && CsiLen([ESC] + "[A") == 3;
  }

  /** With a carriage return in the rest of an OSC sequence it depends on the screen. */
  lemma OscReturnDepends(st: Screen, max: nat)
    requires 1 <= |st.lines| <= max
    ensures var a, b := [ESC, ']'], ['\r', BEL];
            Halves(a, b) && (Process(Process(st, a, max), b, max) == Process(st, a + b, max) <==> st.col == 0)
  {
    var a, b := [ESC, ']'], ['\r', BEL];
    HalfOsc();
    assert "" + a == a && "" + (a + b) == a + b;
    OscRestObeyed(st, "", a, b, max);
    ReturnOnly(st);
  }

  lemma HalfOsc()
    ensures Halves([ESC, ']'], ['\r', BEL])
  {
    var e := [ESC, ']'] + ['\r', BEL];
    assert [ESC, ']'][2..] == "" && e[2..] == ['\r', BEL];
    assert ['\r', BEL][1..] == [BEL] && OscClosed([BEL]) && OscLen([BEL]) == 1;
  }

  lemma ReturnOnly(st: Screen)
    ensures Run(st, Tokens(['\r', BEL])) == st.(col := 0)
  {
    assert ['\r', BEL] == ['\r'] + [BEL] && ['\r', BEL][1..] == [BEL] && [BEL][1..] == "";
    assert Tokens([BEL]) == [Glyph(BEL)] + [];
    assert Tokens(['\r', BEL]) == [Glyph('\r')] + Tokens([BEL]);
    RunFirst(st, Glyph('\r'), Tokens([BEL]));
    RunFirst(st.(col := 0), Glyph(BEL), []);
  }

  // ---- what a cut can leave behind ----

  lemma StoredAlone(esc: string, max: nat)
    requires max >= 1 && StartsEscape(esc) && EscLen(esc) == |esc| && Decode(esc).Store?
    ensures Process(Screen([""], 0), esc, max) == Screen([esc], 0)
  {
    ReadEscape(Screen([""], 0), esc, max);
    assert "" + esc == esc && [""][0 := esc] == [esc];
  }

  /** ESC 7 read in one piece stores an escape and leaves the cursor alone; read as ESC and then 7,
      it counts the 7 as a visible character. */
  lemma CutInsideEscapeShows(max: nat)
    requires max >= 1
    ensures var st, a, b := Screen([""], 0), [ESC], "7";
            && !Boundary(a, b)
            && Process(st, a + b, max) == Screen([a + b], 0)
            && Process(Process(st, a, max), b, max) == Screen([a + b], 1)
  {
    var a, b := [ESC], "7";
    BoundaryIffClosed(a, b);
    StoredAlone(a, max);
    StoredAlone(a + b, max);
    OneEscape(a);
    assert Tokens(b) == [Glyph('7')] by { assert b[1..] == ""; }
    assert Overwrite(a, 0, '7') == a + b by { assert a + Blanks(0) + b == a + b; }
    assert Run(Screen([a], 0), Tokens(b)) == Screen([a + b], 1);
  }

  /** Behind an open escape that fills the line, a character lands in the escape. */
  lemma LandsInEscape(line: string, col: nat, c: char)
    requires StartsEscape(line) && EscLen(line) == |line|
    ensures Overwrite(line, col, c) == line + Blanks(col) + [c]
    ensures EscapeMarks(line) == [(0, line)] && VisibleLen(line) == 0
  {
    OneEscape(line);
    assert [Escape(line)][1..] == [];
    assert Marks([Escape(line)], 0) == [(0, line)] + Marks([], 0);
  }

  /** A read cut inside ESC "[" leaves a line that is not closed; the next character written,
      at a free column, becomes part of the escape. */
  lemma CutLeavesOpenLine(max: nat)
    requires max >= 1
    ensures var line := [ESC, '['];
            && Process(Screen([""], 0), line, max) == Screen([line], 0)
            && EscapeMarks(line) == [(0, line)]
            && EscapeMarks(Overwrite(line, 0, 'x')) == [(0, line + "x")]
  {
    var line := [ESC, '['];
    var longer := line + "x";
    StoredAlone(line, max);
    LandsInEscape(line, 0, 'x');
    assert line + Blanks(0) + ['x'] == longer;
    assert longer[2..] == "x" && EscLen(longer) == 3;
    LandsInEscape(longer, 0, 'x');
  }

  /** An OSC sequence without its end swallows a whole line. */
  lemma OscOpen(rest: string)
    requires ESC !in rest && BEL !in rest
    ensures var line := [ESC, ']'] + rest; EscLen(line) == |line|
  {
    var line := [ESC, ']'] + rest;
    assert line[2..] == rest;
    OscNoEnd(rest);
  }

  lemma {:induction false} OscNoEnd(rest: string)
    requires ESC !in rest && BEL !in rest
    ensures OscLen(rest) == |rest|
  {
    if rest != "" {
      OscNoEnd(rest[1..]);
    }
  }

  /** Each character of "]xy" behind a stored ESC lands in an OSC sequence. */
  lemma OscSteps()
    ensures Overwrite([ESC], 0, ']') == [ESC] + "]"
    ensures Overwrite([ESC] + "]", 1, 'x') == [ESC] + "] x"
    ensures Overwrite([ESC] + "] x", 2, 'y') == [ESC] + "] x  y"
  {
    LandsInEscape([ESC], 0, ']');
    assert [ESC, ']'] + "" == [ESC] + "]";
    OscOpen("");
    LandsInEscape([ESC] + "]", 1, 'x');
    assert [ESC, ']'] + " x" == [ESC] + "] x";
    OscOpen(" x");
    LandsInEscape([ESC] + "] x", 2, 'y');
    assert [ESC] + Blanks(0) + [']'] == [ESC] + "]";
    assert [ESC] + "]" + Blanks(1) + ['x'] == [ESC] + "] x";
    assert [ESC] + "] x" + Blanks(2) + ['y'] == [ESC] + "] x  y";
  }

  lemma OneGlyph(st: Screen, c: char, rest: string)
    requires c >= ' '
    ensures Run(st, Tokens([c] + rest)) == Run(Put(st, c), Tokens(rest))
  {
    assert ([c] + rest)[1..] == rest;
    RunFirst(st, Glyph(c), Tokens(rest));
  }

  lemma ThreeGlyphs(st: Screen, a: char, b: char, c: char)
    requires a >= ' ' && b >= ' ' && c >= ' '
    ensures Run(st, Tokens([a, b, c])) == Put(Put(Put(st, a), b), c)
  {
    assert [a, b, c] == [a] + ([b] + ([c] + ""));
    OneGlyph(st, a, [b] + ([c] + ""));
    OneGlyph(Put(st, a), b, [c] + "");
    OneGlyph(Put(Put(st, a), b), c, "");
  }

  lemma OscRunes()
    ensures RuneCount([ESC] + "] x  y", false) == 3
  {
    var s := [ESC] + "] x  y";
    assert s[1..] == "] x  y" && s[1..][1..] == " x  y";
    assert RuneCount("  y", false) == 3;
    assert RuneCount("x  y", true) == 3;
    assert RuneCount(" x  y", true) == 3;
  }

  /** Once ESC is stored, the characters land behind it. */
  lemma OscStored(max: nat)
    requires max >= 1
    ensures Process(Screen([[ESC]], 0), "]xy", max) == Screen([[ESC] + "] x  y"], 3)
  {
    OscSteps();
    ThreeGlyphs(Screen([[ESC]], 0), ']', 'x', 'y');
  }

  lemma OscLine()
    ensures var line := [ESC] + "] x  y"; !NoOsc(Tokens(line)) && VisibleLen(line) == 0
  {
    var line := [ESC] + "] x  y";
    assert [ESC, ']'] + " x  y" == line;
    OscOpen(" x  y");
    LandsInEscape(line, 0, 'x');
    OneEscape(line);
    assert IsOsc(Escape(line)) && Tokens(line)[0] == Escape(line);
    assert Tokens(line)[0] in Tokens(line);
  }

  /** Read in two pieces, ESC and "]xy" leave a line that is one OSC sequence. The rune count, which
      takes the escape to end at the x, exceeds the visible length. */
  lemma CutStoresOsc(max: nat)
    requires max >= 1
    ensures var line := [ESC] + "] x  y";
            && Process(Process(Screen([""], 0), [ESC], max), "]xy", max) == Screen([line], 3)
            && !NoOsc(Tokens(line)) && VisibleLen(line) == 0 && RuneCount(line, false) == 3
  {
    StoredAlone([ESC], max);
    OscStored(max);
    OscLine();
    OscRunes();
  }

  /** A closed escape and a character behind it, read at the start. */
  lemma StoredThen(esc: string, c: char, max: nat)
    requires max >= 1 && StartsEscape(esc) && EscLen(esc) == |esc| && EscClosed(esc) && Decode(esc).Store? && c >= ' '
    ensures Process(Screen([""], 0), esc + [c], max) == Screen([esc + [c]], 1)
    ensures Tokens(esc + [c]) == [Escape(esc), Glyph(c)] && VisibleLen(esc + [c]) == 1
  {
    StoredAlone(esc, max);
    OneEscape(esc);
    LandsInEscape(esc, 0, c);
    assert esc + Blanks(0) + [c] == esc + [c];
    BoundaryIffClosed(esc, [c]);
    ChunkIndependence(Screen([""], 0), esc, [c], max);
    assert [c] + "" == [c];
    OneGlyph(Screen([esc], 0), c, "");
    GlyphAlone(c);
    TokensAppend(esc, [c]);
    TextAppend([Escape(esc)], [Glyph(c)], 0);
  }

  lemma GlyphAlone(c: char)
    requires c >= ' '
    ensures Tokens([c]) == [Glyph(c)] && Text([Glyph(c)]) == [c]
  {
    assert [c][1..] == "" && [Glyph(c)][1..] == [];
  }

  lemma CharsetRunes()
    ensures RuneCount([ESC] + "(0x", false) == 0
  {
    var s := [ESC] + "(0x";
    assert s[1..] == "(0x" && s[1..][1..] == "0x" && s[1..][1..][1..] == "x";
    assert RuneCount("x", true) == RuneCount("", false) == 0;
    assert RuneCount("0x", true) == 0;
  }

  /** A line the terminal stores from one read of ESC ( 0 and an x: the x is visible, but the rune
      count takes it for the end of the escape. */
  lemma CharsetMiscounted(max: nat)
    requires max >= 1
    ensures var line := [ESC] + "(0x";
            && Process(Screen([""], 0), line, max) == Screen([line], 1)
            && NoOsc(Tokens(line)) && VisibleLen(line) == 1 && RuneCount(line, false) == 0
  {
    var esc := [ESC] + "(0";
    assert [ESC] + "(0x" == esc + ['x'];
    assert EscLen(esc) == 3 && EscClosed(esc);
    StoredThen(esc, 'x', max);
    CharsetRunes();
  }
}
