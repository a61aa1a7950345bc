/**
 The second width measure, `runeLen`, which skips from ESC to the next letter without parsing
 the escape, and when it agrees with the visible length that column operations use.
 */
module LineWidth {
  import opened Sequences
  import opened AnsiTokens
  import opened TokenBoundaries
  import opened LineEdit

  /** The scan state after `s`: inside an escape or not. */
  function InEscape(s: string, inEsc: bool): bool {
    if s == "" then inEsc
    else InEscape(s[1..], if inEsc then !IsFinal(s[0]) else s[0] == ESC)
  }

  function RuneCount(s: string, inEsc: bool): nat {
    if s == "" then 0
    else if inEsc then RuneCount(s[1..], !IsFinal(s[0]))
    else if s[0] == ESC then RuneCount(s[1..], true)
    else 1 + RuneCount(s[1..], false)
  }

  /** The longest prefix of `s` holding at most `n` counted runes. */
  function Clip(s: string, inEsc: bool, n: int): string {
    if s == "" then ""
    else if inEsc then [s[0]] + Clip(s[1..], !IsFinal(s[0]), n)
    else if s[0] == ESC then [s[0]] + Clip(s[1..], true, n)
    else if n <= 0 then ""
    else [s[0]] + Clip(s[1..], false, n - 1)
  }

  method RuneLen(s: string) returns (count: nat)
    ensures count == RuneCount(s, false)
  {
    count := 0;
    var inEsc := false;
    for i := 0 to |s|
      invariant RuneCount(s, false) == count + RuneCount(s[i..], inEsc)
    {
      var r := s[i];
      assert s[i..][1..] == s[i + 1..];
      if inEsc {
        if IsFinal(r) {
          inEsc := false;
        }
      } else if r == ESC {
        inEsc := true;
      } else {
        count := count + 1;
      }
    }
  }

  method TruncateRunes(s: string, n: int) returns (result: string)
    ensures result == Clip(s, false, n)
  {
    result := "";
    var count, inEsc := 0, false;
    for i := 0 to |s|
      invariant result + Clip(s[i..], inEsc, n - count) == Clip(s, false, n)
    {
      var r := s[i];
      assert s[i..][1..] == s[i + 1..];
      if inEsc {
        Assoc(result, [r], Clip(s[i + 1..], !IsFinal(r), n - count));
        result := result + [r];
        if IsFinal(r) {
          inEsc := false;
        }
      } else if r == ESC {
        Assoc(result, [r], Clip(s[i + 1..], true, n - count));
        inEsc := true;
        result := result + [r];
      } else {
        if count >= n {
          break;
        }
        Assoc(result, [r], Clip(s[i + 1..], false, n - count - 1));
        result := result + [r];
        count := count + 1;
      }
    }
  }

  /** Clipping cuts `s` after as many counted runes as fit, and no earlier: every longer prefix
      counts more than `n`. */
  lemma {:induction false} ClipEffect(s: string, inEsc: bool, n: int)
    ensures Clip(s, inEsc, n) <= s
    ensures RuneCount(Clip(s, inEsc, n), inEsc) == Min(Max(n, 0), RuneCount(s, inEsc))
    ensures forall k | |Clip(s, inEsc, n)| < k <= |s| :: RuneCount(s[..k], inEsc) > n
  {
    if s != "" {
      var next := if inEsc then !IsFinal(s[0]) else s[0] == ESC;
      var left := if inEsc || s[0] == ESC then n else n - 1;
      ClipEffect(s[1..], next, left);
      var c := Clip(s, inEsc, n);
      assert c != "" ==> c[1..] == Clip(s[1..], next, left);
      forall k | |c| < k <= |s| ensures RuneCount(s[..k], inEsc) > n {
        assert s[..k][1..] == s[1..][..k - 1];
        if c != "" {
          assert RuneCount(s[1..][..k - 1], next) > left;
        }
      }
    }
  }

  // ---- agreement with the visible length ----

  predicate IsOsc(t: Token) {
    t.Escape? && |t.body| >= 2 && t.body[1] == ']'
  }

  predicate NoOsc(ts: seq<Token>) {
    forall t | t in ts :: !IsOsc(t)
  }

  /** An escape the letter scan does not see the end of: its last character is not a letter or `~`. */
  predicate Overruns(t: Token)
    requires WellFormed(t)
  {
    t.Escape? && !IsFinal(t.body[|t.body| - 1])
  }

  /** Somewhere a visible character directly follows an escape that the letter scan overruns. */
  predicate SwallowsText(ts: seq<Token>)
    requires Scannable(ts)
  {
    |ts| >= 2 && ((Overruns(ts[0]) && ts[1].Glyph?) || SwallowsText(ts[1..]))
  }

  lemma {:induction false} CsiRunes(body: string, rest: string)
    requires body != "" && CsiLen(body) == |body|
    ensures RuneCount(body + rest, true) == RuneCount(rest, !IsFinal(body[|body| - 1]))
  {
    assert (body + rest)[1..] == body[1..] + rest;
    if |body| == 1 {
      assert body[1..] + rest == rest;
    } else {
      CsiRunes(body[1..], rest);
    }
  }

  /** Past an escape that is not an OSC, the letter scan is back in text exactly when the
      escape ends in a letter or `~`. */
  lemma EscapeRunes(body: string, rest: string, inEsc: bool)
    requires WellFormed(Escape(body)) && !IsOsc(Escape(body))
    ensures RuneCount(body + rest, inEsc) == RuneCount(rest, Overruns(Escape(body)))
  {
    assert (body + rest)[1..] == body[1..] + rest;
    if |body| == 1 {
      assert body[1..] + rest == rest;
    } else {
      assert (body[1..] + rest)[1..] == body[2..] + rest;
      if |body| == 2 {
        assert body[2..] + rest == rest;
      } else if body[1] == '[' {
        CsiRunes(body[2..], rest);
      } else {
        assert |body| == 3 && (body[2..] + rest)[1..] == rest;
        assert RuneCount(body[2..] + rest, true) == RuneCount(rest, !IsFinal(body[2]));
      }
    }
  }

  lemma {:induction false} RunesAgainstText(s: string, inEsc: bool)
    requires NoOsc(Tokens(s))
    ensures Scannable(Tokens(s))
    ensures RuneCount(s, inEsc) <= VisibleLen(s)
    ensures RuneCount(s, inEsc) == VisibleLen(s) <==>
              !SwallowsText(Tokens(s)) && !(inEsc && s != "" && s[0] != ESC)
  {
    TokensScannable(s);
    if s != "" {
      var ts := Tokens(s);
      var n := if s[0] == ESC then EscLen(s) else 1;
      assert ts[1..] == Tokens(s[n..]);
      assert forall t | t in ts[1..] :: t in ts;
      assert s == s[..n] + s[n..];
      assert ts[0] in ts;
      if s[0] == ESC {
        EscapeRunes(s[..n], s[n..], inEsc);
        RunesAgainstText(s[n..], Overruns(ts[0]));
        assert s[n..] != "" ==> Tokens(s[n..])[0].Glyph? == (s[n] != ESC);
      } else {
        RunesAgainstText(s[n..], inEsc && !IsFinal(s[0]));
      }
    }
  }

  /** On lines without OSC sequences `runeLen` never exceeds the visible length, and it falls short
      exactly when a visible character directly follows an escape such as ESC ( 0 that does not
      end in a letter or `~`. */
  lemma WidthsAgreeIff(s: string)
    requires NoOsc(Tokens(s))
    ensures Scannable(Tokens(s))
    ensures RuneCount(s, false) <= VisibleLen(s)
    ensures RuneCount(s, false) == VisibleLen(s) <==> !SwallowsText(Tokens(s))
  {
    RunesAgainstText(s, false);
  }

  predicate ClosedCsi(t: Token) {
    t.Escape? ==> StartsEscape(t.body) && EscClosed(t.body) && t.body[1] == '['
  }

  lemma {:induction false} CsiLast(body: string)
    requires CsiClosed(body) && CsiLen(body) == |body|
    ensures IsFinal(body[|body| - 1])
  {
    if |body| > 1 {
      CsiLast(body[1..]);
    }
  }

  lemma {:induction false} CsiNeverSwallows(ts: seq<Token>)
    requires Scannable(ts) && forall t | t in ts :: ClosedCsi(t)
    ensures !SwallowsText(ts)
  {
    if ts != [] {
      assert ts[0] in ts && forall t | t in ts[1..] :: t in ts;
      if ts[0].Escape? {
        CsiLast(ts[0].body[2..]);
      }
      CsiNeverSwallows(ts[1..]);
    }
  }

  /** On lines whose only escapes are complete CSI sequences the two measures agree. */
  lemma WidthsAgreeOnCsi(s: string)
    requires forall t | t in Tokens(s) :: ClosedCsi(t)
    ensures RuneCount(s, false) == VisibleLen(s)
  {
    TokensScannable(s);
    CsiNeverSwallows(Tokens(s));
    WidthsAgreeIff(s);
  }
}
