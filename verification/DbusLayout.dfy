/**
 What a ListUnits reply is made of, for the scan: strings, zeros, header field structs and free
 words; and the proof that scanning any sequence of them finds its strings and nothing else.
 */
module DbusLayout {
  import opened Sequences
  import opened DbusWire
  import opened DbusScan

  /** A string the scan keeps. */
  predicate Collectable(s: Bytes) {
    3 <= |s| <= 512 && AllPrintable(s)
  }

  /** A string as it can stand in a message of at most 128 MiB: it has no NUL, but may be shorter or
      longer than what the scan keeps, and have control characters or bytes outside ASCII. */
  predicate NulFree(s: Bytes) {
    |s| <= 0x800_0000 && forall k | 0 <= k < |s| :: s[k] != 0
  }

  /** The last byte of a string reads as a length of 3 to 5, if two zeros follow its NUL. */
  predicate EndsAsLength(s: Bytes) {
    s != [] && 3 <= s[|s| - 1] <= 5
  }

  predicate Plain(s: Bytes) {
    NulFree(s) && !EndsAsLength(s)
  }

  /** What the scan sees of a string. */
  function Seen(s: Bytes): seq<Bytes> {
    if Collectable(s) then [s] else []
  }

  /** The byte groups of a reply: a string; a zero byte of padding, of an empty string or of a zero
      word; the front of a header field; the word 1, for the serial replied to; a type signature; and
      the two places where a free word can stand: a job id with the job type behind it, and the array
      length with its padding. */
  datatype Item =
    | Text(s: Bytes)
    | Zero
    | Head(code: Byte, sig: Byte)
    | Signature(s: Bytes)
    | Job(id: nat, kind: Bytes)
    | Count(n: nat)
    | Answer

  predicate HeadOk(code: Byte, sig: Byte) {
    1 <= code < 32 && sig >= 32
  }

  predicate ItemOk(it: Item) {
    match it
    case Text(s) => s != [] && Plain(s)
    case Head(code, sig) => HeadOk(code, sig)
    case Signature(s) => 1 <= |s| < 32 && Plain(s)
    case Job(_, kind) => Collectable(kind) && |kind| < 256
    case _ => true
  }

  function ItemBytes(it: Item): Bytes {
    match it
    case Text(s) => DbusString(s)
    case Zero => [0]
    case Head(code, sig) => [code, 1, sig, 0]
    case Signature(s) => [|s| % 256] + s + [0]
    case Job(id, kind) => Le32(id) + DbusString(kind)
    case Count(n) => Le32(n) + Zeros(4)
    case Answer => [1, 0, 0, 0]
  }

  function Layout(items: seq<Item>): Bytes {
    if items == [] then [] else ItemBytes(items[0]) + Layout(items[1..])
  }

  function ItemTexts(it: Item): seq<Bytes> {
    match it
    case Text(s) => Seen(s)
    case Job(_, kind) => [kind]
    case _ => []
  }

  function Texts(items: seq<Item>): seq<Bytes> {
    if items == [] then [] else ItemTexts(items[0]) + Texts(items[1..])
  }

  predicate AllOk(items: seq<Item>) {
    forall it | it in items :: ItemOk(it)
  }

  // ---- offsets at which the scan does not fire ----

  predicate Quiet(t: Bytes, i: nat) {
    i + 4 < |t| ==> !Fires(t, i)
  }

  ghost predicate QuietOver(t: Bytes, a: nat, b: nat) {
    forall i: nat | a <= i < b :: Quiet(t, i)
  }

  lemma {:induction false} QuietRun(t: Bytes, a: nat, b: nat)
    requires a <= b <= |t| && QuietOver(t, a, b)
    ensures ScanFrom(t, a) == ScanFrom(t, b)
    decreases b - a
  {
    if a < b {
      assert Quiet(t, a);
      QuietNext(t, a);
      QuietRun(t, a + 1, b);
    }
  }

  lemma QuietNext(t: Bytes, i: nat)
    requires i < |t| && Quiet(t, i)
    ensures ScanFrom(t, i) == ScanFrom(t, i + 1)
  {
  }

  lemma ScanAt(t: Bytes, k: nat)
    requires k <= |t|
    ensures ScanFrom(t, k) == Scan(t[k..])
  {
    ScanDrop(t, 0, k);
  }

  /** Where nothing fires, nothing is found. */
  lemma SkipOver(t: Bytes, a: nat, b: nat)
    requires a <= b <= |t| && QuietOver(t, a, b)
    ensures Scan(t[a..]) == Scan(t[b..])
  {
    QuietRun(t, a, b);
    ScanAt(t, a);
    ScanAt(t, b);
  }

  lemma SkipOne(t: Bytes, u: Bytes)
    requires t != [] && t[1..] == u && Quiet(t, 0)
    ensures Scan(t) == Scan(u)
  {
    SkipOver(t, 0, 1);
    assert t[0..] == t;
  }

  lemma SkipByte(c: Byte, u: Bytes)
    requires Quiet([c] + u, 0)
    ensures Scan([c] + u) == Scan(u)
  {
    SkipOne([c] + u, u);
  }

  lemma SkipFour(t: Bytes, u: Bytes)
    requires |t| >= 4 && t[4..] == u && Quiet(t, 0) && Quiet(t, 1) && Quiet(t, 2) && Quiet(t, 3)
    ensures Scan(t) == Scan(u)
  {
    SkipOver(t, 0, 4);
    assert t[0..] == t;
  }

  /** A length word with one of these bytes is more than 512. */
  lemma BigQuiet(t: Bytes, i: nat)
    requires i + 4 < |t| ==> t[i + 1] >= 3 || t[i + 2] >= 1 || t[i + 3] >= 1
    ensures Quiet(t, i)
  {
    if i + 4 < |t| {
      assert Read32(t, i) > 512;
    }
  }

  /** One of the bytes from `a` up to `b` is not printable. */
  ghost predicate Rough(t: Bytes, a: nat, b: nat)
    requires b <= |t|
  {
    exists k | a <= k < b :: !Printable(t[k])
  }

  /** A length in range whose string has an unprintable byte does not fire. */
  lemma RoughQuiet(t: Bytes, i: nat)
    requires i + 4 < |t| ==>
      var n := Read32(t, i); 3 <= n <= 512 && i + 4 + n < |t| ==> Rough(t, i + 4, i + 4 + n)
    ensures Quiet(t, i)
  {
    if i + 4 < |t| {
      var n := Read32(t, i);
      if 3 <= n <= 512 && i + 4 + n < |t| {
        var k :| i + 4 <= k < i + 4 + n && !Printable(t[k]);
        assert t[i + 4..i + 4 + n][k - i - 4] == t[k];
      }
    }
  }

  /** Nor does any length whose string has an unprintable byte among its first three. */
  lemma NearQuiet(t: Bytes, i: nat, k: nat)
    requires i + 4 <= k < i + 7 && k < |t| && !Printable(t[k])
    ensures Quiet(t, i)
  {
    RoughQuiet(t, i);
  }

  lemma RoughShift(t: Bytes, d: nat, a: nat, b: nat)
    requires d + b <= |t| && Rough(t[d..], a, b)
    ensures Rough(t, d + a, d + b)
  {
    var k :| a <= k < b && !Printable(t[d..][k]);
    assert t[d + k] == t[d..][k];
  }

  // ---- how a layout begins ----

  lemma ShortDigits(n: nat)
    requires n <= 0x800_0000
    ensures n / 16777216 % 256 <= 8 && n % WORD == n
    ensures n < 256 ==> n % 256 == n && n / 256 == 0 && n / 65536 == 0 && n / 16777216 == 0
  {
  }

  /** The bytes of a length word in a message of at most 128 MiB. */
  lemma ShortWord(n: nat)
    requires n <= 0x800_0000
    ensures Read32(Le32(n), 0) == n && Le32(n)[3] <= 8
    ensures n < 256 ==> Le32(n) == [n, 0, 0, 0]
  {
    ShortDigits(n);
    WordDigits(n);
  }

  lemma WordThen(w: Bytes, rest: Bytes)
    requires |w| == 4
    ensures var t := w + rest; Read32(t, 0) == Read32(w, 0) && t[4..] == rest
    ensures forall i | 0 <= i < 4 :: (w + rest)[i] == w[i]
  {
  }

  lemma CharsThen(s: Bytes, rest: Bytes)
    ensures var t := s + [0] + rest; t[..|s|] == s && t[|s|] == 0 && t[|s| + 1..] == rest
  {
  }

  /** The front of a string: its length word and its first characters. */
  lemma TextFront(s: Bytes, rest: Bytes)
    requires NulFree(s)
    ensures var t := DbusString(s) + rest;
            && |t| == |s| + 5 + |rest| && Read32(t, 0) == |s| && t[3] <= 8
            && (|s| < 256 ==> t[0] == |s| && t[1] == 0 && t[2] == 0 && t[3] == 0)
  {
    ShortWord(|s|);
    Assoc(Le32(|s|), s, [0]);
    Assoc(Le32(|s|), s + [0], rest);
    WordThen(Le32(|s|), s + [0] + rest);
  }

  /** Where its characters end. */
  lemma TextEnd(s: Bytes, rest: Bytes)
    ensures var t := DbusString(s) + rest;
            && 4 + |s| < |t| && t[4..4 + |s|] == s && t[4 + |s|] == 0 && t[5 + |s|..] == rest
            && t[4 + |s|..] == [0] + rest
  {
    var t := DbusString(s) + rest;
    assert t[4..] == s + [0] + rest;
    CharsThen(s, rest);
    assert t[4..4 + |s|] == t[4..][..|s|];
  }

  /** A word item has an unprintable byte behind its word. */
  predicate IsWord(it: Item) {
    it.Job? || it.Count?
  }

  lemma WordFront(it: Item, rest: Bytes)
    requires ItemOk(it) && IsWord(it)
    ensures var t := ItemBytes(it) + rest;
            && |t| >= 8 && t[4..] == ItemBytes(it)[4..] + rest && !Printable(t[5])
  {
    var t := ItemBytes(it) + rest;
    assert t[4..] == ItemBytes(it)[4..] + rest;
    match it
    case Job(id, kind) =>
      assert ItemBytes(it)[4..] == DbusString(kind);
      TextFront(kind, rest);
      assert t[5] == t[4..][1];
    case Count(n) =>
  }

  /** How the first item shows in the first bytes of a layout. */
  lemma Front(it: Item, rest: Bytes)
    requires ItemOk(it)
    ensures var t := ItemBytes(it) + rest;
            && (it.Text? ==> |t| >= 6 && t[3] <= 8)
            && (it.Zero? ==> t[0] == 0 && t[1..] == rest)
            && (it.Head? || it.Signature? ==> |t| >= 3 && 1 <= t[0] < 32 && t[1] >= 1)
            && (it.Answer? ==> |t| >= 4 && t[0] == 1 && t[1] == 0 && t[2] == 0 && t[3] == 0)
            && (IsWord(it) ==> |t| >= 8 && !Printable(t[5]))
  {
    match it
    case Text(s) => TextFront(s, rest);
    case Zero =>
    case Answer =>
    case Head(_, _) =>
    case Signature(s) =>
      assert ((([|s| % 256] + s) + [0]) + rest)[1] == s[0];
    case _ => WordFront(it, rest);
  }

  /** Within its first six bytes every layout has one that is not printable. */
  lemma LayoutRough(items: seq<Item>)
    requires AllOk(items) && |Layout(items)| >= 6
    ensures Rough(Layout(items), 0, 6)
  {
    var t := Layout(items);
    assert items[0] in items;
    Front(items[0], Layout(items[1..]));
    assert !Printable(t[0]) || !Printable(t[3]) || !Printable(t[5]);
  }

  lemma OffWord(a: Byte, b: Byte, c: Byte)
    requires 3 <= WordOf(0, a, b, c) <= 512
    ensures WordOf(0, a, b, c) >= 256 && b == 0
  {
  }

  /** Behind a zero byte, a layout does not read as a length whose string is printable. */
  lemma BehindZero(items: seq<Item>)
    requires AllOk(items) && |Layout(items)| >= 4
    ensures var t := Layout(items);
            var n := WordOf(0, t[0], t[1], t[2]);
            3 <= n <= 512 && 3 + n < |t| ==> Rough(t, 3, 3 + n)
  {
    var t := Layout(items);
    var n := WordOf(0, t[0], t[1], t[2]);
    assert items[0] in items;
    Front(items[0], Layout(items[1..]));
    if 3 <= n <= 512 && 3 + n < |t| {
      OffWord(t[0], t[1], t[2]);
      assert !Printable(t[3]) || !Printable(t[5]);
    }
  }

  /** A zero byte at the front of a layout is not followed by text. */
  lemma BehindOneZero(items: seq<Item>)
    requires AllOk(items)
    requires var t := Layout(items); |t| >= 7 && t[0] == 0
    ensures Rough(Layout(items), 1, 7)
  {
    var t := Layout(items);
    assert items[0] in items;
    Front(items[0], Layout(items[1..]));
    if items[0].Zero? {
      var u := Layout(items[1..]);
      assert forall k | 0 <= k < |u| :: t[k + 1] == t[1..][k] == u[k];
      assert AllOk(items[1..]);
      LayoutRough(items[1..]);
      var k :| 0 <= k < 6 && !Printable(u[k]);
      assert t[k + 1] == u[k];
    } else {
      assert !Printable(t[3]) || !Printable(t[5]);
    }
  }

  /** Nor are two. */
  lemma BehindTwoZeros(items: seq<Item>)
    requires AllOk(items)
    requires var t := Layout(items); |t| >= 8 && t[0] == 0 && t[1] == 0
    ensures Rough(Layout(items), 2, 8)
  {
    var t := Layout(items);
    assert items[0] in items;
    Front(items[0], Layout(items[1..]));
    if items[0].Zero? {
      var more := items[1..];
      var u := Layout(more);
      assert forall k | 0 <= k < |u| :: t[k + 1] == t[1..][k] == u[k];
      assert AllOk(more) && more[0] in more;
      Front(more[0], Layout(more[1..]));
      if more[0].Zero? {
        var v := Layout(more[1..]);
        assert forall k | 0 <= k < |v| :: u[k + 1] == u[1..][k] == v[k];
        LayoutRough(more[1..]);
        var k :| 0 <= k < 6 && !Printable(v[k]);
        assert t[k + 2] == v[k];
      } else {
        assert !Printable(t[4]) || !Printable(t[6]);
      }
    } else {
      assert !Printable(t[3]) || !Printable(t[5]);
    }
  }

  // ---- one item at a time ----

  lemma ZeroQuiet(t: Bytes, items: seq<Item>)
    requires AllOk(items) && t == [0] + Layout(items)
    ensures Quiet(t, 0)
  {
    var u := Layout(items);
    assert t[1..] == u;
    if |t| > 4 {
      assert t[1] == u[0] && t[2] == u[1] && t[3] == u[2];
      var n := Read32(t, 0);
      BehindZero(items);
      if 3 <= n <= 512 && 4 + n < |t| {
        RoughShift(t, 1, 3, 3 + n);
      }
    }
    RoughQuiet(t, 0);
  }

  lemma ZeroStep(items: seq<Item>)
    requires AllOk(items)
    ensures Scan([0] + Layout(items)) == Scan(Layout(items))
  {
    ZeroQuiet([0] + Layout(items), items);
    SkipByte(0, Layout(items));
  }

  /** A last character that is not taken for a length of 3 to 5. */
  predicate LastOk(c: Byte) {
    1 <= c && !(3 <= c <= 5)
  }

  lemma LastQuiet(c: Byte, items: seq<Item>)
    requires LastOk(c) && AllOk(items)
    ensures Quiet([c] + ([0] + Layout(items)), 0)
  {
    var u := Layout(items);
    var t := [c] + ([0] + u);
    assert t[2..] == u;
    if |t| > 4 {
      var n := Read32(t, 0);
      assert t[2] == u[0] && t[3] == u[1];
      if 3 <= n <= 512 && 4 + n < |t| {
        BehindTwoZeros(items);
        RoughShift(t, 2, 2, 8);
      }
    }
    RoughQuiet(t, 0);
  }

  /** The last character of a string and its NUL. */
  lemma LastStep(c: Byte, items: seq<Item>)
    requires LastOk(c) && AllOk(items)
    ensures Scan([c] + ([0] + Layout(items))) == Scan(Layout(items))
  {
    LastQuiet(c, items);
    SkipByte(c, [0] + Layout(items));
    ZeroStep(items);
  }

  /** A character, or the last byte of a length word, in front of the last one. */
  lemma LastTwoQuiet(d: Byte, c: Byte, items: seq<Item>)
    requires c != 0 && AllOk(items)
    ensures Quiet([d] + ([c] + ([0] + Layout(items))), 0)
  {
    var u := Layout(items);
    var t := [d] + ([c] + ([0] + u));
    assert t[3..] == u;
    if |t| > 4 {
      var n := Read32(t, 0);
      assert t[3] == u[0];
      if 3 <= n <= 512 && 4 + n < |t| {
        assert n >= 256 && u[0] == 0;
        BehindOneZero(items);
        RoughShift(t, 3, 1, 7);
      }
    }
    RoughQuiet(t, 0);
  }

  lemma LastTwoStep(d: Byte, c: Byte, items: seq<Item>)
    requires LastOk(c) && AllOk(items)
    ensures Scan([d] + ([c] + ([0] + Layout(items)))) == Scan(Layout(items))
  {
    LastTwoQuiet(d, c, items);
    SkipByte(d, [c] + ([0] + Layout(items)));
    LastStep(c, items);
  }

  /** Where one of the two upper bytes is a character, the length word is big. */
  lemma CharsQuiet(t: Bytes, i: nat, p: nat, s: Bytes)
    requires s != [] && NulFree(s) && p + |s| <= |t| && t[p..p + |s|] == s
    requires p <= i + 3 && i + 2 < p + |s|
    ensures Quiet(t, i)
  {
    var k := if i + 2 >= p then i + 2 else p;
    assert t[k] == t[p..p + |s|][k - p];
    BigQuiet(t, i);
  }

  /** From offset `a` on, at most three bytes before the characters `s`, nothing fires before
      the byte in front of their last one. */
  lemma CharsRun(t: Bytes, a: nat, p: nat, s: Bytes)
    requires s != [] && NulFree(s) && a < p <= a + 3 && p + |s| <= |t| && t[p..p + |s|] == s
    ensures QuietOver(t, a, p + |s| - 2)
  {
    forall i: nat | a <= i < p + |s| - 2 ensures Quiet(t, i) {
      CharsQuiet(t, i, p, s);
    }
  }

  lemma CharsSkip(t: Bytes, a: nat, p: nat, s: Bytes)
    requires s != [] && Plain(s) && a < p <= a + 3 && p + |s| <= |t| && t[p..p + |s|] == s
    ensures Scan(t[a..]) == Scan(t[p + |s| - 2..])
  {
    CharsRun(t, a, p, s);
    SkipOver(t, a, p + |s| - 2);
  }

  /** The characters and the NUL behind them are passed over. */
  lemma CharsStep(t: Bytes, a: nat, p: nat, s: Bytes, items: seq<Item>)
    requires s != [] && Plain(s) && AllOk(items)
    requires a < p <= a + 3 && p + |s| <= |t| && t[p..p + |s|] == s && t[p + |s|..] == [0] + Layout(items)
    ensures Scan(t[a..]) == Scan(Layout(items))
  {
    CharsSkip(t, a, p, s);
    LastOf(t, p, s, Layout(items));
    LastTwoStep(t[p + |s| - 2], t[p + |s| - 1], items);
  }

  lemma LastOf(t: Bytes, p: nat, s: Bytes, u: Bytes)
    requires s != [] && Plain(s) && 0 < p && p + |s| <= |t| && t[p..p + |s|] == s && t[p + |s|..] == [0] + u
    ensures var last := p + |s| - 1;
            LastOk(t[last]) && t[last - 1..] == [t[last - 1]] + ([t[last]] + ([0] + u))
  {
    var last := p + |s| - 1;
    assert t[last] == t[p..p + |s|][|s| - 1];
    assert t[last..] == [t[last]] + t[last + 1..];
    assert t[last - 1..] == [t[last - 1]] + t[last..];
  }

  /** A length word with its string behind it is collected. */
  lemma StringScans(t: Bytes, s: Bytes)
    requires Collectable(s) && |t| >= 5 + |s| && Read32(t, 0) == |s|
    requires t[4..4 + |s|] == s && t[4 + |s|] == 0
    ensures Scan(t) == [s] + Scan(t[5 + |s|..])
  {
    assert Fires(t, 0);
    ScanDrop(t, 0, 5 + |s|);
  }

  lemma TextKept(s: Bytes, rest: Bytes)
    requires Collectable(s)
    ensures Scan(DbusString(s) + rest) == [s] + Scan(rest)
  {
    TextFront(s, rest);
    TextEnd(s, rest);
    StringScans(DbusString(s) + rest, s);
  }

  lemma TextQuiet(s: Bytes, rest: Bytes)
    requires NulFree(s) && !Collectable(s)
    ensures Quiet(DbusString(s) + rest, 0)
  {
    TextFront(s, rest);
    TextEnd(s, rest);
  }

  lemma TextPassed(s: Bytes, items: seq<Item>)
    requires s != [] && Plain(s) && !Collectable(s) && AllOk(items)
    ensures Scan(DbusString(s) + Layout(items)) == Scan(Layout(items))
  {
    var t := DbusString(s) + Layout(items);
    TextQuiet(s, Layout(items));
    SkipOne(t, t[1..]);
    TextEnd(s, Layout(items));
    CharsStep(t, 1, 4, s, items);
  }

  /** A string that is kept or, as a whole, passed over. */
  lemma TextStep(s: Bytes, items: seq<Item>)
    requires s != [] && Plain(s) && AllOk(items)
    ensures Scan(DbusString(s) + Layout(items)) == Seen(s) + Scan(Layout(items))
  {
    if Collectable(s) {
      TextKept(s, Layout(items));
    } else {
      TextPassed(s, items);
    }
  }

  /** Characters behind at most three other bytes. */
  lemma CharsPass(pre: Bytes, s: Bytes, items: seq<Item>)
    requires 1 <= |pre| <= 3 && s != [] && Plain(s) && AllOk(items)
    ensures Scan(pre + s + [0] + Layout(items)) == Scan(Layout(items))
  {
    var t := pre + s + [0] + Layout(items);
    CharsEnd(pre, s, Layout(items));
    CharsStep(t, 0, |pre|, s, items);
  }

  lemma CharsEnd(pre: Bytes, s: Bytes, u: Bytes)
    ensures var t, p := pre + s + [0] + u, |pre|;
            p + |s| <= |t| && t[p..p + |s|] == s && t[p + |s|..] == [0] + u && t[0..] == t
  {
  }

  lemma HeadStep(code: Byte, sig: Byte, items: seq<Item>)
    requires HeadOk(code, sig) && AllOk(items)
    ensures Scan([code, 1, sig, 0] + Layout(items)) == Scan(Layout(items))
  {
    CharsPass([code, 1], [sig], items);
    assert [code, 1] + [sig] + [0] == [code, 1, sig, 0];
  }

  lemma SignatureStep(s: Bytes, items: seq<Item>)
    requires ItemOk(Signature(s)) && AllOk(items)
    ensures Scan([|s| % 256] + s + [0] + Layout(items)) == Scan(Layout(items))
  {
    CharsPass([|s| % 256], s, items);
  }

  /** No window of a word fires when a short length word follows it. */
  lemma JobQuiet(t: Bytes)
    requires |t| >= 8 && t[4] >= 3 && t[5] == 0 && t[6] == 0 && t[7] == 0
    ensures Quiet(t, 0) && Quiet(t, 1) && Quiet(t, 2) && Quiet(t, 3)
  {
    NearQuiet(t, 0, 5);
    BigQuiet(t, 1);
    BigQuiet(t, 2);
    BigQuiet(t, 3);
  }

  lemma JobStep(id: nat, kind: Bytes, items: seq<Item>)
    requires ItemOk(Job(id, kind)) && AllOk(items)
    ensures Scan(ItemBytes(Job(id, kind)) + Layout(items)) == [kind] + Scan(Layout(items))
  {
    var u := DbusString(kind) + Layout(items);
    TextFront(kind, Layout(items));
    Assoc(Le32(id), DbusString(kind), Layout(items));
    JobSkip(Le32(id), u);
    TextStep(kind, items);
  }

  lemma JobSkip(w: Bytes, u: Bytes)
    requires |w| == 4 && |u| >= 4 && u[0] >= 3 && u[1] == 0 && u[2] == 0 && u[3] == 0
    ensures Scan(w + u) == Scan(u)
  {
    JobQuiet(w + u);
    SkipFour(w + u, u);
  }

  /** Nor when zeros do. */
  lemma CountQuiet(t: Bytes)
    requires |t| >= 8 && t[4] == 0 && t[5] == 0 && t[6] == 0 && t[7] == 0
    ensures Quiet(t, 0) && Quiet(t, 1) && Quiet(t, 2) && Quiet(t, 3)
  {
    NearQuiet(t, 0, 4);
    NearQuiet(t, 1, 5);
    NearQuiet(t, 2, 6);
    NearQuiet(t, 3, 7);
  }

  lemma CountStep(n: nat, items: seq<Item>)
    requires AllOk(items)
    ensures Scan(ItemBytes(Count(n)) + Layout(items)) == Scan(Layout(items))
  {
    Assoc(Le32(n), Zeros(4), Layout(items));
    CountSkip(Le32(n), Zeros(4) + Layout(items));
    FourZeros(items);
  }

  lemma CountSkip(w: Bytes, u: Bytes)
    requires |w| == 4 && |u| >= 4 && u[0] == 0 && u[1] == 0 && u[2] == 0 && u[3] == 0
    ensures Scan(w + u) == Scan(u)
  {
    CountQuiet(w + u);
    SkipFour(w + u, u);
  }

  lemma ZeroFirst(items: seq<Item>)
    requires AllOk(items)
    ensures Layout([Zero] + items) == [0] + Layout(items)
    ensures Scan(Layout([Zero] + items)) == Scan(Layout(items))
  {
    assert ([Zero] + items)[1..] == items;
    ZeroStep(items);
  }

  lemma FourZeros(items: seq<Item>)
    requires AllOk(items)
    ensures Scan(Zeros(4) + Layout(items)) == Scan(Layout(items))
  {
    ZeroFirst(items);
    ZeroFirst([Zero] + items);
    ZeroFirst([Zero] + ([Zero] + items));
    ZeroStep([Zero] + ([Zero] + ([Zero] + items)));
    FourBytes(Layout(items));
  }

  lemma FourBytes(u: Bytes)
    ensures Zeros(4) + u == [0] + ([0] + ([0] + ([0] + u)))
  {
  }

  /** The word 1 reads like a last character with three zeros behind it. */
  lemma AnswerStep(items: seq<Item>)
    requires AllOk(items)
    ensures Scan([1, 0, 0, 0] + Layout(items)) == Scan(Layout(items))
  {
    ZeroFirst(items);
    ZeroFirst([Zero] + items);
    LastStep(1, [Zero] + ([Zero] + items));
    assert [1, 0, 0, 0] + Layout(items) == [1] + ([0] + ([0] + ([0] + Layout(items))));
  }

  lemma ItemStep(it: Item, rest: seq<Item>)
    requires ItemOk(it) && AllOk(rest)
    ensures Scan(ItemBytes(it) + Layout(rest)) == ItemTexts(it) + Scan(Layout(rest))
  {
    match it
    case Text(s) => TextStep(s, rest);
    case Zero => ZeroStep(rest);
    case Head(code, sig) => HeadStep(code, sig, rest);
    case Signature(s) => SignatureStep(s, rest);
    case Job(id, kind) => JobStep(id, kind, rest);
    case Count(n) => CountStep(n, rest);
    case Answer => AnswerStep(rest);
  }

  /** The scan recovers exactly the strings of a layout that it should keep, in order. */
  lemma {:induction false} ScanLayout(items: seq<Item>)
    requires AllOk(items)
    ensures Scan(Layout(items)) == Texts(items)
  {
    if items != [] {
      assert items[0] in items && AllOk(items[1..]);
      ScanLayout(items[1..]);
      ItemStep(items[0], items[1..]);
    }
  }
}
