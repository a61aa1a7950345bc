/**
 Tokenisation of terminal text: a line or an output chunk is a sequence of visible
 characters and escape sequences, and the two are stored inline in one string.

 The scanner below is the meaning of `parseEscape`. An escape is *closed* when the scan
 met its terminator; an unclosed escape runs to the end of the string and would swallow
 whatever is appended to it.
 */
module AnsiTokens {
  const ESC: char := '\U{1B}'
  const BEL: char := '\U{7}'

  /** The bytes that end a CSI sequence. */
  predicate IsFinal(c: char) {
    'A' <= c <= 'Z' || 'a' <= c <= 'z' || c == '~'
  }

  // ---- the scanner ----

  /** Characters consumed by a CSI body: up to and including its final byte, or everything. */
  function CsiLen(t: string): (n: nat)
    ensures n <= |t|
  {
    if t == "" then 0
    else if IsFinal(t[0]) then 1
    else 1 + CsiLen(t[1..])
  }

  predicate CsiClosed(t: string) {
    t != "" && (IsFinal(t[0]) || CsiClosed(t[1..]))
  }

  predicate StartsWithSt(t: string) {
    |t| >= 2 && t[0] == ESC && t[1] == '\\'
  }

  /** Characters consumed by an OSC body: up to and including BEL or ESC-backslash. */
  function OscLen(t: string): (n: nat)
    ensures n <= |t|
  {
    if t == "" then 0
    else if t[0] == BEL then 1
    else if StartsWithSt(t) then 2
    else 1 + OscLen(t[1..])
  }

  predicate OscClosed(t: string) {
    t != "" && (t[0] == BEL || StartsWithSt(t) || OscClosed(t[1..]))
  }

  predicate IsCharset(c: char) {
    c == '(' || c == ')' || c == '#' || c == '%'
  }

  predicate StartsEscape(t: string) {
    t != "" && t[0] == ESC
  }

  /** Length of the escape sequence at the front of `t`. */
  function EscLen(t: string): (n: nat)
    requires StartsEscape(t)
    ensures 1 <= n <= |t|
  {
    if |t| == 1 then 1
    else if t[1] == '[' then 2 + CsiLen(t[2..])
    else if t[1] == ']' then 2 + OscLen(t[2..])
    else if IsCharset(t[1]) then if |t| > 2 then 3 else 2
    else 2
  }

  /** The escape sequence at the front of `t` has its terminator. */
  predicate EscClosed(t: string)
    requires StartsEscape(t)
  {
    |t| >= 2 &&
    if t[1] == '[' then CsiClosed(t[2..])
    else if t[1] == ']' then OscClosed(t[2..])
    else IsCharset(t[1]) ==> |t| >= 3
  }

  // ---- tokens ----

  datatype Token = Glyph(c: char) | Escape(body: string)

  function Tokens(s: string): (ts: seq<Token>) {
    if s == "" then []
    else if s[0] == ESC then [Escape(s[..EscLen(s)])] + Tokens(s[EscLen(s)..])
    else [Glyph(s[0])] + Tokens(s[1..])
  }

  /** Every escape in `s` is closed. */
  predicate Closed(s: string) {
    s == "" ||
    if s[0] == ESC then EscClosed(s) && Closed(s[EscLen(s)..])
    else Closed(s[1..])
  }

  function Spell(t: Token): string {
    match t
    case Glyph(c) => [c]
    case Escape(body) => body
  }

  function Join(ts: seq<Token>): string {
    if ts == [] then "" else Spell(ts[0]) + Join(ts[1..])
  }

  /** A token as the scanner produces it. */
  predicate WellFormed(t: Token) {
    match t
    case Glyph(c) => c != ESC
    case Escape(body) => StartsEscape(body) && EscLen(body) == |body|
  }

  predicate ClosedToken(t: Token) {
    WellFormed(t) && (t.Escape? ==> EscClosed(t.body))
  }

  /** Token lists the scanner can produce: only the last token may be unclosed. */
  predicate Scannable(ts: seq<Token>) {
    ts == [] || (WellFormed(ts[0]) && (|ts| > 1 ==> ClosedToken(ts[0])) && Scannable(ts[1..]))
  }

  predicate AllClosed(ts: seq<Token>) {
    ts == [] || (ClosedToken(ts[0]) && AllClosed(ts[1..]))
  }

  // ---- reading a token list ----

  /** The visible characters, in order. */
  function Text(ts: seq<Token>): string {
    if ts == [] then ""
    else if ts[0].Glyph? then [ts[0].c] + Text(ts[1..])
    else Text(ts[1..])
  }

  /** Each escape with the number of visible characters in front of it, counting from `n`. */
  function Marks(ts: seq<Token>, n: nat): seq<(nat, string)> {
    if ts == [] then []
    else if ts[0].Glyph? then Marks(ts[1..], n + 1)
    else [(n, ts[0].body)] + Marks(ts[1..], n)
  }

  function VisibleText(s: string): string { Text(Tokens(s)) }

  function EscapeMarks(s: string): seq<(nat, string)> { Marks(Tokens(s), 0) }
}
