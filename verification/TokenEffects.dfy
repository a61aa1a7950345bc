/**
 What a token can do to the last line: which characters it brings into it, and when the cursor
 stays on the line.
 */
module TokenEffects {
  import opened AnsiTokens
  import opened TokenBoundaries
  import opened LineEdit
  import opened Terminal
  import opened CellTerminal

  function LastLine(st: Screen): string
    requires st.lines != []
  {
    st.lines[|st.lines| - 1]
  }

  // ---- characters that only an escape can bring into a line ----

  /** ESC and the control characters that are obeyed. */
  predicate Special(c: char) {
    c == ESC || c == '\n' || c == '\r' || c == BACKSPACE || c == '\t' || c == BEL
  }

  function Specials(s: string): nat {
    if s == "" then 0 else (if Special(s[0]) then 1 else 0) + Specials(s[1..])
  }

  lemma {:induction false} SpecialsAppend(a: string, b: string)
    ensures Specials(a + b) == Specials(a) + Specials(b)
  {
    if a == "" {
      assert a + b == b;
    } else {
      assert (a + b)[1..] == a[1..] + b;
      SpecialsAppend(a[1..], b);
    }
  }

  lemma {:induction false} NoSpecials(s: string)
    ensures Specials(s) == 0 <==> forall i | 0 <= i < |s| :: !Special(s[i])
  {
    if s != "" {
      assert forall i | 0 <= i < |s[1..]| :: s[1..][i] == s[i + 1];
      NoSpecials(s[1..]);
      assert (forall i | 0 <= i < |s| :: !Special(s[i])) <==> !Special(s[0]) && forall i | 0 <= i < |s[1..]| :: !Special(s[1..][i]);
    }
  }

  lemma {:induction false} SetGlyphSpecials(ts: seq<Token>, k: int, r: char)
    requires !Special(r)
    ensures |Join(SetGlyph(ts, k, r))| == |Join(ts)|
    ensures Specials(Join(SetGlyph(ts, k, r))) <= Specials(Join(ts))
  {
    if ts != [] {
      var next := if ts[0].Glyph? then k - 1 else k;
      var us := SetGlyph(ts, k, r);
      SetGlyphSpecials(ts[1..], next, r);
      assert us[1..] == SetGlyph(ts[1..], next, r);
      SpecialsAppend(Spell(ts[0]), Join(ts[1..]));
      SpecialsAppend(Spell(us[0]), Join(us[1..]));
      assert us[0] == ts[0] || us[0] == Glyph(r);
    }
  }

  lemma {:induction false} KeepGlyphsSpecials(ts: seq<Token>, k: int)
    ensures Specials(Join(KeepGlyphs(ts, k))) <= Specials(Join(ts))
  {
    if ts != [] {
      var us := KeepGlyphs(ts, k);
      SpecialsAppend(Spell(ts[0]), Join(ts[1..]));
      if ts[0].Escape? || k > 0 {
        var next := if ts[0].Escape? then k else k - 1;
        KeepGlyphsSpecials(ts[1..], next);
        assert us[0] == ts[0] && us[1..] == KeepGlyphs(ts[1..], next);
        SpecialsAppend(Spell(us[0]), Join(us[1..]));
      } else {
        KeepGlyphsSpecials(ts[1..], k);
      }
    }
  }

  /** Overwriting makes a line no shorter and brings no special character into it. */
  lemma OverwriteSpecials(s: string, col: int, r: char)
    requires !Special(r)
    ensures |Overwrite(s, col, r)| >= |s|
    ensures Specials(Overwrite(s, col, r)) <= Specials(s)
  {
    if col < VisibleLen(s) {
      SetGlyphSpecials(Tokens(s), col, r);
      JoinTokens(s);
    } else {
      var u := Blanks(col - VisibleLen(s)) + [r];
      assert Overwrite(s, col, r) == s + u;
      SpecialsAppend(s, u);
      NoSpecials(u);
    }
  }

  lemma TruncateSpecials(s: string, col: int)
    ensures Specials(Truncate(s, col)) <= Specials(s)
  {
    KeepGlyphsSpecials(Tokens(s), col);
    JoinTokens(s);
  }

  lemma {:induction false} PutBlanksSpecials(st: Screen, n: nat)
    requires st.lines != []
    ensures PutBlanks(st, n).lines != [] && Specials(LastLine(PutBlanks(st, n))) <= Specials(LastLine(st))
    decreases n
  {
    if n > 0 {
      OverwriteSpecials(LastLine(st), st.col, ' ');
      PutBlanksSpecials(Put(st, ' '), n - 1);
    }
  }

  // ---- what a token does ----

  /** An escape that goes into the line as it is. */
  predicate IsStored(t: Token) {
    t.Escape? && Decode(t.body).Store?
  }

  /** A token after which the cursor is on the same line, and no further left. */
  predicate IsStill(t: Token) {
    Meaning(t).Write? || Meaning(t).Nothing?
  }

  /** A token that changes nothing: BEL, or an OSC sequence. */
  predicate IsSilent(t: Token) {
    Meaning(t).Nothing? && !IsStored(t)
  }

  function StoredSpecials(ts: seq<Token>): nat {
    if ts == [] then 0 else (if IsStored(ts[0]) then Specials(ts[0].body) else 0) + StoredSpecials(ts[1..])
  }

  function StoredText(ts: seq<Token>): string {
    if ts == [] then "" else (if IsStored(ts[0]) then ts[0].body else "") + StoredText(ts[1..])
  }

  function Writes(ts: seq<Token>): nat {
    if ts == [] then 0 else (if Meaning(ts[0]).Write? then 1 else 0) + Writes(ts[1..])
  }

  lemma GlyphSpecials(st: Screen, c: char)
    requires st.lines != [] && c != ESC
    ensures StepGlyph(st, c).lines != [] && Specials(LastLine(StepGlyph(st, c))) <= Specials(LastLine(st))
  {
    if c == '\t' {
      PutBlanksSpecials(st, TabGap(st.col));
    } else if Meaning(Glyph(c)).Write? {
      OverwriteSpecials(LastLine(st), st.col, c);
    }
  }

  lemma EscapeSpecials(st: Screen, e: string)
    requires st.lines != []
    ensures StepEscape(st, e).lines != []
    ensures Specials(LastLine(StepEscape(st, e))) <= Specials(LastLine(st)) + if Decode(e).Store? then Specials(e) else 0
  {
    match Decode(e)
    case EraseToEnd => TruncateSpecials(LastLine(st), st.col);
    case Store => SpecialsAppend(LastLine(st), e);
    case _ =>
  }

  lemma StepSpecials(st: Screen, t: Token)
    requires st.lines != [] && WellFormed(t)
    ensures Step(st, t).lines != []
    ensures Specials(LastLine(Step(st, t))) <= Specials(LastLine(st)) + if IsStored(t) then Specials(t.body) else 0
  {
    match t
    case Glyph(c) => GlyphSpecials(st, c);
    case Escape(body) => EscapeSpecials(st, body);
  }

  /** The last line gets no special characters but those of the escapes stored. */
  lemma {:induction false} RunSpecials(st: Screen, ts: seq<Token>)
    requires st.lines != [] && Scannable(ts)
    ensures Run(st, ts).lines != []
    ensures Specials(LastLine(Run(st, ts))) <= Specials(LastLine(st)) + StoredSpecials(ts)
    decreases |ts|
  {
    if ts != [] {
      StepSpecials(st, ts[0]);
      RunSpecials(Step(st, ts[0]), ts[1..]);
    }
  }

  /** Some are missing unless every token is written or stored. */
  lemma {:induction false} StoredLess(ts: seq<Token>)
    requires Scannable(ts)
    ensures StoredSpecials(ts) <= Specials(Join(ts))
    ensures StoredSpecials(ts) == Specials(Join(ts)) ==> forall t | t in ts :: Meaning(t).Write? || IsStored(t)
  {
    if ts != [] {
      StoredLess(ts[1..]);
      SpecialsAppend(Spell(ts[0]), Join(ts[1..]));
      SpellSpecials(ts[0]);
      assert forall t | t in ts :: t == ts[0] || t in ts[1..];
    }
  }

  lemma SpellSpecials(t: Token)
    requires WellFormed(t)
    ensures Specials(Spell(t)) == 0 ==> Meaning(t).Write?
  {
    if t.Glyph? {
      assert [t.c][1..] == "";
    }
  }

  /** Writing and storing go on in the last line. */
  predicate StaysOnLine(st: Screen, ts: seq<Token>, e: Screen) {
    && st.lines != [] && |e.lines| == |st.lines|
    && e.col == st.col + Writes(ts) && |LastLine(e)| >= |LastLine(st)|
    && (Writes(ts) == 0 ==> e.lines == SetLast(st.lines, LastLine(st) + StoredText(ts)))
  }

  lemma {:induction false} StillRun(st: Screen, ts: seq<Token>)
    requires st.lines != [] && Scannable(ts) && forall t | t in ts :: IsStill(t)
    ensures StaysOnLine(st, ts, Run(st, ts))
    decreases |ts|
  {
    if ts == [] {
      assert LastLine(st) + "" == LastLine(st);
    } else {
      assert ts[0] in ts && forall t | t in ts[1..] :: t in ts;
      StillStep(st, ts[0]);
      StillRun(Step(st, ts[0]), ts[1..]);
      StaysFurther(st, ts, Step(st, ts[0]), Run(st, ts));
    }
  }

  lemma StaysFurther(st: Screen, ts: seq<Token>, mid: Screen, e: Screen)
    requires ts != [] && StaysOnLine(st, [ts[0]], mid) && StaysOnLine(mid, ts[1..], e)
    ensures StaysOnLine(st, ts, e)
  {
    FirstToken(ts);
    var x, y := StoredText([ts[0]]), StoredText(ts[1..]);
    assert (LastLine(st) + x) + y == LastLine(st) + (x + y);
  }

  lemma FirstToken(ts: seq<Token>)
    requires ts != []
    ensures StoredText(ts) == StoredText([ts[0]]) + StoredText(ts[1..])
    ensures Writes(ts) == Writes([ts[0]]) + Writes(ts[1..])
  {
    assert [ts[0]][1..] == [];
    var x := if IsStored(ts[0]) then ts[0].body else "";
    assert StoredText([ts[0]]) == x + StoredText([]) == x;
    assert Writes([ts[0]]) == (if Meaning(ts[0]).Write? then 1 else 0) + Writes([]);
  }

  lemma StillStep(st: Screen, t: Token)
    requires st.lines != [] && WellFormed(t) && IsStill(t)
    ensures StaysOnLine(st, [t], Step(st, t))
  {
    assert [t][1..] == [];
    if Meaning(t).Write? {
      OverwriteSpecials(LastLine(st), st.col, t.c);
    } else {
      assert StoredText([t]) == if IsStored(t) then t.body else "";
      assert LastLine(st) + "" == LastLine(st);
    }
  }

  /** A read of tokens that stay on the line, in a buffer within its limit. */
  lemma StillProcess(st: Screen, b: string, max: nat)
    requires 1 <= |st.lines| <= max && forall t | t in Tokens(b) :: IsStill(t)
    ensures StaysOnLine(st, Tokens(b), Process(st, b, max))
  {
    TokensScannable(b);
    StillRun(st, Tokens(b));
  }
}
