/**
 What concatenation does to tokens, and where a text may be cut.
 */
module TokenBoundaries {
  import opened Sequences
  import opened AnsiTokens

  /** A string that is one escape is one token and shows nothing. */
  lemma OneEscape(s: string)
    requires StartsEscape(s) && EscLen(s) == |s|
    ensures Tokens(s) == [Escape(s)] && VisibleText(s) == ""
    ensures Closed(s) == EscClosed(s)
  {
    assert s[..EscLen(s)] == s;
    assert s[EscLen(s)..] == "";
    assert Tokens(s)[1..] == [];
    assert Text(Tokens(s)) == "";
  }

  // ---- scanner and concatenation ----

  lemma CsiAppend(t: string, u: string)
    ensures CsiClosed(t) ==> CsiLen(t + u) == CsiLen(t) && CsiClosed(t + u)
    ensures !CsiClosed(t) ==> CsiLen(t) == |t| && CsiLen(t + u) == |t| + CsiLen(u) && CsiClosed(t + u) == CsiClosed(u)
  {
    if t == "" {
      assert t + u == u;
    } else {
      assert (t + u)[1..] == t[1..] + u;
    }
  }

  lemma OscAppend(t: string, u: string)
    ensures OscClosed(t) ==> OscLen(t + u) == OscLen(t) && OscClosed(t + u)
    ensures !OscClosed(t) ==> OscLen(t) == |t| && (u != "" ==> OscLen(t + u) > |t|)
  {
    if t == "" {
      assert t + u == u;
    } else {
      assert (t + u)[1..] == t[1..] + u;
    }
  }

  /** A closed escape is not affected by what follows it; an unclosed one always swallows it. */
  lemma EscAppend(t: string, u: string)
    requires StartsEscape(t)
    ensures EscClosed(t) ==> EscLen(t + u) == EscLen(t) && EscClosed(t + u)
    ensures !EscClosed(t) ==> EscLen(t) == |t| && (u != "" ==> EscLen(t + u) > |t|)
  {
    if |t| >= 2 {
      assert (t + u)[2..] == t[2..] + u;
      CsiAppend(t[2..], u);
      OscAppend(t[2..], u);
    }
  }

  /** Cutting a closed escape off at its own end leaves it closed and of the same length. */
  lemma CutClosed(t: string)
    requires StartsEscape(t)
    ensures var e := t[..EscLen(t)];
            StartsEscape(e) && EscLen(e) == |e| && EscClosed(e) == EscClosed(t)
  {
    var e, u := t[..EscLen(t)], t[EscLen(t)..];
    assert t == e + u;
    EscAppend(e, u);
    assert u == "" ==> e == t;
  }

  // ---- Tokens and Join are inverse ----

  lemma JoinTokens(s: string)
    ensures Join(Tokens(s)) == s
  {
    if s != "" {
      var k := if s[0] == ESC then EscLen(s) else 1;
      JoinTokens(s[k..]);
      assert s == s[..k] + s[k..];
    }
  }

  lemma {:induction false} TokensScannable(s: string)
    ensures Scannable(Tokens(s))
    ensures AllClosed(Tokens(s)) <==> Closed(s)
  {
    if s == "" {
    } else if s[0] == ESC {
      var k := EscLen(s);
      CutClosed(s);
      TokensScannable(s[k..]);
      var ts := Tokens(s);
      assert ts[0] == Escape(s[..k]) && ts[1..] == Tokens(s[k..]);
      if !EscClosed(s) {
        EscAppend(s, "");
        assert s[k..] == "";
      }
    } else {
      TokensScannable(s[1..]);
      var ts := Tokens(s);
      assert ts[1..] == Tokens(s[1..]);
    }
  }

  lemma {:induction false} TokensJoin(ts: seq<Token>)
    requires Scannable(ts)
    ensures Tokens(Join(ts)) == ts
    ensures Closed(Join(ts)) <==> AllClosed(ts)
  {
    if ts != [] {
      var s, rest := Join(ts), Join(ts[1..]);
      TokensJoin(ts[1..]);
      match ts[0]
      case Glyph(c) =>
        assert s[1..] == rest;
      case Escape(body) =>
        EscAppend(body, rest);
        if |ts| == 1 {
          assert s == body;
        }
        assert s[..|body|] == body && s[|body|..] == rest;
    }
  }

  /** A closed prefix ends on a token boundary, whatever follows. */
  lemma {:induction false} TokensAppend(s: string, u: string)
    requires Closed(s)
    ensures Tokens(s + u) == Tokens(s) + Tokens(u)
    ensures Closed(s + u) <==> Closed(u)
  {
    if s == "" {
      assert s + u == u;
    } else {
      var k := if s[0] == ESC then EscLen(s) else 1;
      if s[0] == ESC {
        EscAppend(s, u);
      }
      assert (s + u)[k..] == s[k..] + u && (s + u)[..k] == s[..k];
      TokensAppend(s[k..], u);
    }
  }

  /** `|a|` is a token boundary of `a + b`: some prefix of its tokens spells `a`. */
  ghost predicate Boundary(a: string, b: string) {
    exists k | 0 <= k <= |Tokens(a + b)| :: Join(Tokens(a + b)[..k]) == a
  }

  lemma {:induction false} JoinPrefix(ts: seq<Token>, k: nat)
    requires Scannable(ts) && k <= |ts|
    ensures Join(ts) == Join(ts[..k]) + Join(ts[k..])
    ensures k < |ts| ==> AllClosed(ts[..k]) && Scannable(ts[..k])
  {
    if k == 0 {
      assert ts[..k] == [] && ts[k..] == ts;
    } else {
      JoinPrefix(ts[1..], k - 1);
      assert ts[..k][1..] == ts[1..][..k - 1];
      assert ts[1..][k - 1..] == ts[k..];
      Assoc(Spell(ts[0]), Join(ts[1..][..k - 1]), Join(ts[k..]));
    }
  }

  /** Exactly when a cut falls on a token boundary: nothing follows, or the prefix is closed. */
  lemma {:induction false} BoundaryIffClosed(a: string, b: string)
    ensures Boundary(a, b) <==> b == "" || Closed(a)
  {
    var ts := Tokens(a + b);
    JoinTokens(a + b);
    TokensScannable(a + b);
    if Closed(a) {
      TokensAppend(a, b);
      JoinTokens(a);
      assert ts[..|Tokens(a)|] == Tokens(a);
    } else if b == "" {
      assert a + b == a && ts[..|ts|] == ts;
    }
    if Boundary(a, b) && b != "" {
      var k :| 0 <= k <= |ts| && Join(ts[..k]) == a;
      assert k != |ts| by {
        assert ts[..|ts|] == ts;
        assert |a + b| > |a|;
      }
      JoinPrefix(ts, k);
      TokensJoin(ts[..k]);
    }
  }
}
