/**
 Column operations on one stored line: what `overwriteAtCol` and `truncateAtCol` compute,
 and that they act on visible positions only.
 */
module LineEdit {
  import opened Sequences
  import opened AnsiTokens
  import opened TokenBoundaries

  function Blanks(n: nat): (s: string)
    ensures |s| == n && forall k :: 0 <= k < n ==> s[k] == ' '
  {
    seq(n, _ => ' ')
  }

  /** `ts` with the glyph at visible position `k` replaced by `r`. */
  function SetGlyph(ts: seq<Token>, k: int, r: char): seq<Token> {
    if ts == [] then []
    else if ts[0].Glyph? then [Glyph(if k == 0 then r else ts[0].c)] + SetGlyph(ts[1..], k - 1, r)
    else [ts[0]] + SetGlyph(ts[1..], k, r)
  }

  /** `ts` with every escape, but only the first `k` glyphs. */
  function KeepGlyphs(ts: seq<Token>, k: int): seq<Token> {
    if ts == [] then []
    else if ts[0].Escape? then [ts[0]] + KeepGlyphs(ts[1..], k)
    else if k > 0 then [ts[0]] + KeepGlyphs(ts[1..], k - 1)
    else KeepGlyphs(ts[1..], k)
  }

  function VisibleLen(s: string): nat { |VisibleText(s)| }

  /** The line `overwriteAtCol` returns. */
  function Overwrite(s: string, col: int, r: char): string {
    if col >= VisibleLen(s) then s + Blanks(col - VisibleLen(s)) + [r]
    else Join(SetGlyph(Tokens(s), col, r))
  }

  /** The line `truncateAtCol` returns. */
  function Truncate(s: string, col: int): string {
    if col >= VisibleLen(s) then s else Join(KeepGlyphs(Tokens(s), col))
  }

  function Min(a: int, b: int): (r: int) { if a < b then a else b }
  function Max(a: int, b: int): int { if a < b then b else a }

  /** Cell `col` of a row set to `r`, the row first extended with blanks to reach it. */
  function PutCell(row: string, col: int, r: char): string {
    if col < 0 then row
    else (row + Blanks(Max(0, col + 1 - |row|)))[col := r]
  }

  // ---- the scanner by index, as the loops run it ----

  function CsiEnd(s: string, j: nat): (e: nat)
    requires j <= |s|
    ensures j <= e <= |s|
    decreases |s| - j
  {
    if j == |s| then j else if IsFinal(s[j]) then j + 1 else CsiEnd(s, j + 1)
  }

  function OscEnd(s: string, j: nat): (e: nat)
    requires j <= |s|
    ensures j <= e <= |s|
    decreases |s| - j
  {
    if j == |s| then j
    else if s[j] == BEL then j + 1
    else if s[j] == ESC && j + 1 < |s| && s[j + 1] == '\\' then j + 2
    else OscEnd(s, j + 1)
  }

  function EscEnd(s: string, i: nat): (e: nat)
    requires i < |s| && s[i] == ESC
    ensures i < e <= |s|
  {
    if i + 1 == |s| then i + 1
    else if s[i + 1] == '[' then CsiEnd(s, i + 2)
    else if s[i + 1] == ']' then OscEnd(s, i + 2)
    else if IsCharset(s[i + 1]) then Min(i + 3, |s|)
    else i + 2
  }

  lemma {:induction false} CsiEndIsLen(s: string, j: nat)
    requires j <= |s|
    ensures CsiEnd(s, j) == j + CsiLen(s[j..])
    decreases |s| - j
  {
    if j < |s| {
      CsiEndIsLen(s, j + 1);
      assert s[j..][1..] == s[j + 1..];
    }
  }

  lemma {:induction false} OscEndIsLen(s: string, j: nat)
    requires j <= |s|
    ensures OscEnd(s, j) == j + OscLen(s[j..])
    decreases |s| - j
  {
    if j < |s| {
      OscEndIsLen(s, j + 1);
      assert s[j..][1..] == s[j + 1..];
    }
  }

  /** The index form and the suffix form of the scanner agree. */
  lemma EscEndIsLen(s: string, i: nat)
    requires i < |s| && s[i] == ESC
    ensures EscEnd(s, i) == i + EscLen(s[i..])
  {
    if i + 1 < |s| {
      CsiEndIsLen(s, i + 2);
      OscEndIsLen(s, i + 2);
      assert s[i..][2..] == s[i + 2..];
    }
  }

  // ---- the loops ----

  /** The scan of `parseEscape`, from index `i`. */
  method ParseEscape(s: string, i: nat) returns (esc: string)
    ensures i >= |s| || s[i] != ESC ==> esc == ""
    ensures i < |s| && s[i] == ESC ==> esc == s[i..EscEnd(s, i)]
  {
    if i >= |s| || s[i] != ESC {
      return "";
    }
    var end := i + 1;
    if end < |s| {
      if s[end] == '[' {
        end := end + 1;
        while end < |s|
          invariant i + 2 <= end <= |s|
          invariant EscEnd(s, i) == CsiEnd(s, end)
        {
          var c := s[end];
          end := end + 1;
          if IsFinal(c) { break; }
        }
      } else if s[end] == ']' {
        end := end + 1;
        while end < |s|
          invariant i + 2 <= end <= |s|
          invariant EscEnd(s, i) == OscEnd(s, end)
        {
          if s[end] == BEL {
            end := end + 1;
            break;
          }
          if s[end] == ESC && end + 1 < |s| && s[end + 1] == '\\' {
            end := end + 2;
            break;
          }
          end := end + 1;
        }
      } else if IsCharset(s[end]) {
        end := if end + 1 < |s| then end + 2 else |s|;
      } else {
        end := end + 1;
      }
    }
    return s[i..end];
  }

  /** Visible characters of `s` from index `i` on. */
  ghost function VisibleFrom(s: string, i: nat): nat
    requires i <= |s|
    decreases |s| - i
  {
    if i == |s| then 0
    else if s[i] == ESC then VisibleFrom(s, EscEnd(s, i))
    else 1 + VisibleFrom(s, i + 1)
  }

  /** What the overwrite loop writes from index `i`, `k` glyphs before its target. */
  ghost function OverwriteFrom(s: string, i: nat, k: int, r: char): string
    requires i <= |s|
    decreases |s| - i
  {
    if i == |s| then ""
    else if s[i] == ESC then s[i..EscEnd(s, i)] + OverwriteFrom(s, EscEnd(s, i), k, r)
    else [if k == 0 then r else s[i]] + OverwriteFrom(s, i + 1, k - 1, r)
  }

  /** What the truncate loop writes from index `i`, with `k` glyphs to keep. */
  ghost function TruncateFrom(s: string, i: nat, k: int): string
    requires i <= |s|
    decreases |s| - i
  {
    if i == |s| then ""
    else if s[i] == ESC then s[i..EscEnd(s, i)] + TruncateFrom(s, EscEnd(s, i), k)
    else if k > 0 then [s[i]] + TruncateFrom(s, i + 1, k - 1)
    else TruncateFrom(s, i + 1, k)
  }

  /** The token at index `i`, and where the next one starts. */
  lemma NextToken(s: string, i: nat)
    requires i < |s|
    ensures s[i] == ESC ==> Tokens(s[i..]) == [Escape(s[i..EscEnd(s, i)])] + Tokens(s[EscEnd(s, i)..])
    ensures s[i] != ESC ==> Tokens(s[i..]) == [Glyph(s[i])] + Tokens(s[i + 1..])
  {
    if s[i] == ESC {
      EscEndIsLen(s, i);
      assert s[i..][..EscLen(s[i..])] == s[i..EscEnd(s, i)] && s[i..][EscLen(s[i..])..] == s[EscEnd(s, i)..];
    } else {
      assert s[i..][1..] == s[i + 1..];
    }
  }

  lemma {:induction false} FromIsTokens(s: string, i: nat, k: int, r: char)
    requires i <= |s|
    ensures VisibleFrom(s, i) == VisibleLen(s[i..])
    ensures OverwriteFrom(s, i, k, r) == Join(SetGlyph(Tokens(s[i..]), k, r))
    ensures TruncateFrom(s, i, k) == Join(KeepGlyphs(Tokens(s[i..]), k))
    decreases |s| - i
  {
    if i < |s| {
      NextToken(s, i);
      var t, e := s[i..], if s[i] == ESC then EscEnd(s, i) else i + 1;
      assert Tokens(t)[1..] == Tokens(s[e..]);
      FromIsTokens(s, e, if s[i] == ESC then k else k - 1, r);
      assert SetGlyph(Tokens(t), k, r)[1..] == SetGlyph(Tokens(s[e..]), if s[i] == ESC then k else k - 1, r);
      if s[i] == ESC || k > 0 {
        assert KeepGlyphs(Tokens(t), k)[1..] == KeepGlyphs(Tokens(s[e..]), if s[i] == ESC then k else k - 1);
      } else {
        FromIsTokens(s, e, k, r);
      }
    }
  }

  lemma FromStart(s: string, k: int, r: char)
    ensures VisibleFrom(s, 0) == VisibleLen(s)
    ensures OverwriteFrom(s, 0, k, r) == Join(SetGlyph(Tokens(s), k, r))
    ensures TruncateFrom(s, 0, k) == Join(KeepGlyphs(Tokens(s), k))
  {
    FromIsTokens(s, 0, k, r);
    assert s[0..] == s;
  }

  method CountVisible(s: string) returns (count: nat)
    ensures count == VisibleLen(s)
  {
    count := 0;
    var i := 0;
    while i < |s|
      invariant 0 <= i <= |s|
      invariant VisibleFrom(s, 0) == count + VisibleFrom(s, i)
    {
      if s[i] == ESC {
        var esc := ParseEscape(s, i);
        i := i + |esc|;
      } else {
        count, i := count + 1, i + 1;
      }
    }
    FromStart(s, 0, ' ');
  }

  method OverwriteAtCol(s: string, col: int, r: char) returns (line: string)
    ensures line == Overwrite(s, col, r)
  {
    var vLen := CountVisible(s);
    if col >= vLen {
      return s + Blanks(col - vLen) + [r];
    }
    line := RewriteGlyph(s, col, r);
    FromStart(s, col, r);
  }

  /** The rebuilding loop of `overwriteAtCol`. */
  method RewriteGlyph(s: string, col: int, r: char) returns (line: string)
    ensures line == OverwriteFrom(s, 0, col, r)
  {
    line := "";
    var i, visIdx := 0, 0;
    while i < |s|
      invariant 0 <= i <= |s|
      invariant line + OverwriteFrom(s, i, col - visIdx, r) == OverwriteFrom(s, 0, col, r)
    {
      if s[i] == ESC {
        var esc := ParseEscape(s, i);
        Assoc(line, esc, OverwriteFrom(s, i + |esc|, col - visIdx, r));
        line, i := line + esc, i + |esc|;
      } else {
        ghost var rest := OverwriteFrom(s, i + 1, col - (visIdx + 1), r);
        if visIdx == col {
          Assoc(line, [r], rest);
          line := line + [r];
        } else {
          Assoc(line, [s[i]], rest);
          line := line + [s[i]];
        }
        visIdx, i := visIdx + 1, i + 1;
      }
    }
  }

  method TruncateAtCol(s: string, col: int) returns (line: string)
    ensures line == Truncate(s, col)
  {
    var vLen := CountVisible(s);
    if col >= vLen {
      return s;
    }
    line := "";
    var i, visIdx := 0, 0;
    while i < |s|
      invariant 0 <= i <= |s|
      invariant line + TruncateFrom(s, i, col - visIdx) == TruncateFrom(s, 0, col)
    {
      if s[i] == ESC {
        var esc := ParseEscape(s, i);
        Assoc(line, esc, TruncateFrom(s, i + |esc|, col - visIdx));
        line, i := line + esc, i + |esc|;
      } else {
        if visIdx < col {
          Assoc(line, [s[i]], TruncateFrom(s, i + 1, col - visIdx - 1));
          line := line + [s[i]];
          visIdx := visIdx + 1;
        }
        i := i + 1;
      }
    }
    FromStart(s, col, ' ');
  }

  // ---- what they mean ----

  lemma {:induction false} TextAppend(a: seq<Token>, b: seq<Token>, n: nat)
    ensures Text(a + b) == Text(a) + Text(b)
    ensures Marks(a + b, n) == Marks(a, n) + Marks(b, n + |Text(a)|)
  {
    if a == [] {
      assert a + b == b;
    } else {
      assert (a + b)[1..] == a[1..] + b;
      TextAppend(a[1..], b, if a[0].Glyph? then n + 1 else n);
    }
  }

  /** A string without ESC is all glyphs. */
  lemma {:induction false} PlainTokens(s: string)
    requires ESC !in s
    ensures Closed(s) && VisibleText(s) == s
    ensures forall n: nat :: Marks(Tokens(s), n) == []
  {
    if s != "" {
      PlainTokens(s[1..]);
    }
  }

  lemma {:induction false} SetGlyphEffect(ts: seq<Token>, k: int, r: char, n: nat)
    requires Scannable(ts) && r != ESC
    ensures var us := SetGlyph(ts, k, r);
            && |us| == |ts| && Scannable(us)
            && AllClosed(us) == AllClosed(ts)
            && Marks(us, n) == Marks(ts, n)
            && Text(us) == if 0 <= k < |Text(ts)| then Text(ts)[k := r] else Text(ts)
  {
    if ts != [] {
      SetGlyphEffect(ts[1..], if ts[0].Glyph? then k - 1 else k, r, if ts[0].Glyph? then n + 1 else n);
    }
  }

  /** The escapes of a line cut at `col`: all of them, none further right than the cut. */
  function PullBack(marks: seq<(nat, string)>, col: nat): seq<(nat, string)> {
    if marks == [] then []
    else [(Min(marks[0].0, col), marks[0].1)] + PullBack(marks[1..], col)
  }

  lemma {:induction false} PullBackStart(ts: seq<Token>, n: nat, m: nat)
    requires n <= m
    ensures PullBack(Marks(ts, m), n) == PullBack(Marks(ts, n), n)
  {
    if ts != [] {
      if ts[0].Glyph? {
        PullBackStart(ts[1..], n, m + 1);
        PullBackStart(ts[1..], n, n + 1);
      } else {
        PullBackStart(ts[1..], n, m);
      }
    }
  }

  lemma {:induction false} KeepGlyphsEffect(ts: seq<Token>, k: nat, n: nat)
    requires Scannable(ts)
    ensures var us := KeepGlyphs(ts, k);
            && Scannable(us) && |us| <= |ts|
            && (AllClosed(ts) ==> AllClosed(us))
            && Marks(us, n) == PullBack(Marks(ts, n), n + k)
            && Text(us) == Text(ts)[..Min(k, |Text(ts)|)]
  {
    if ts != [] {
      if ts[0].Glyph? && k > 0 {
        KeepGlyphsEffect(ts[1..], k - 1, n + 1);
      } else {
        KeepGlyphsEffect(ts[1..], k, n);
        PullBackStart(ts[1..], n, n + 1);
      }
    }
  }

  /** Text appended to a line with an unclosed escape is swallowed by that escape. */
  lemma {:induction false} UnclosedSwallows(s: string, u: string, n: nat)
    requires !Closed(s) && u != ""
    ensures Marks(Tokens(s + u), n) != Marks(Tokens(s), n)
  {
    var k := if s[0] == ESC then EscLen(s) else 1;
    assert (s + u)[0] == s[0];
    if s[0] == ESC {
      EscAppend(s, u);
      if !EscClosed(s) {
        assert Marks(Tokens(s), n)[0] == (n, s[..k]);
        assert Marks(Tokens(s + u), n)[0] == (n, (s + u)[..EscLen(s + u)]);
        return;
      }
    }
    assert (s + u)[k..] == s[k..] + u && (s + u)[..k] == s[..k];
    UnclosedSwallows(s[k..], u, if s[0] == ESC then n else n + 1);
    assert Tokens(s)[1..] == Tokens(s[k..]) && Tokens(s + u)[1..] == Tokens((s + u)[k..]);
    if s[0] == ESC {
      assert Marks(Tokens(s), n)[1..] == Marks(Tokens(s[k..]), n);
      assert Marks(Tokens(s + u), n)[1..] == Marks(Tokens((s + u)[k..]), n);
    }
  }

  /** Overwriting sets one visible cell, padding with blanks, and moves no escape, as long as
      the character does not land behind an unclosed escape. */
  lemma {:induction false} OverwriteEffect(s: string, col: int, r: char)
    requires r != ESC
    requires Closed(s) || col < VisibleLen(s)
    ensures VisibleText(Overwrite(s, col, r)) == PutCell(VisibleText(s), col, r)
    ensures EscapeMarks(Overwrite(s, col, r)) == EscapeMarks(s)
    ensures Closed(Overwrite(s, col, r)) <==> Closed(s)
  {
    if col >= VisibleLen(s) {
      var u := Blanks(col - VisibleLen(s)) + [r];
      assert Overwrite(s, col, r) == s + u;
      PlainTokens(u);
      TokensAppend(s, u);
      TextAppend(Tokens(s), Tokens(u), 0);
      assert VisibleText(s) + u == PutCell(VisibleText(s), col, r);
    } else {
      TokensScannable(s);
      SetGlyphEffect(Tokens(s), col, r, 0);
      TokensJoin(SetGlyph(Tokens(s), col, r));
    }
  }

  /** `overwriteAtCol` leaves the escapes where they were exactly when the line is closed or
      the column is already occupied. */
  lemma OverwriteKeepsEscapesIff(s: string, col: int, r: char)
    requires r != ESC
    ensures EscapeMarks(Overwrite(s, col, r)) == EscapeMarks(s) <==> Closed(s) || col < VisibleLen(s)
  {
    if Closed(s) || col < VisibleLen(s) {
      OverwriteEffect(s, col, r);
    } else {
      var u := Blanks(col - VisibleLen(s)) + [r];
      Assoc(s, Blanks(col - VisibleLen(s)), [r]);
      UnclosedSwallows(s, u, 0);
    }
  }

  /** Truncation keeps the first `col` visible characters and every escape; an escape beyond
      the cut moves to the cut. This holds for closed and unclosed lines alike. */
  lemma TruncateEffect(s: string, col: int)
    ensures VisibleText(Truncate(s, col)) == VisibleText(s)[..Min(Max(col, 0), VisibleLen(s))]
    ensures EscapeMarks(Truncate(s, col)) == PullBack(EscapeMarks(s), Max(col, 0))
    ensures Closed(s) ==> Closed(Truncate(s, col))
  {
    TokensScannable(s);
    if col >= VisibleLen(s) {
      MarksWithinText(Tokens(s), 0, col);
    } else {
      NothingKept(Tokens(s), col);
      KeepGlyphsEffect(Tokens(s), Max(col, 0), 0);
      TokensJoin(KeepGlyphs(Tokens(s), col));
    }
  }

  lemma {:induction false} MarksWithinText(ts: seq<Token>, n: nat, m: nat)
    requires n + |Text(ts)| <= m
    ensures PullBack(Marks(ts, n), m) == Marks(ts, n)
  {
    if ts != [] {
      MarksWithinText(ts[1..], if ts[0].Glyph? then n + 1 else n, m);
    }
  }

  lemma {:induction false} NothingKept(ts: seq<Token>, k: int)
    ensures KeepGlyphs(ts, k) == KeepGlyphs(ts, Max(k, 0))
  {
    if ts != [] && k < 0 {
      NothingKept(ts[1..], k);
    }
  }
}
