/**
 A reply that is read wrong: a unit whose description is its own name makes two records.
 */
module DbusMisread {
  import opened Options
  import opened Sequences
  import opened DbusWire
  import opened DbusScan
  import opened DbusLayout
  import opened DbusReply
  import opened DbusEnvelope
  import opened DbusRoundTrip

  /** The second of the two records: the description is the load state, and so on. */
  function ShiftedRecord(u: UnitStruct): UnitInfo {
    UnitInfo(u.name, u.load, u.active, u.sub, u.path)
  }

  /** A unit without a job or a following unit, whose description is its name. */
  predicate NamedTwice(u: UnitStruct) {
    && Complete(u) && IsUnitName(u.name) && u.description == u.name
    && u.following == [] && Collectable(u.path) && u.job == None
  }

  lemma SixTexts(u: UnitStruct)
    requires NamedTwice(u)
    ensures UnitTexts(u) == [u.name, u.name, u.load, u.active, u.sub, u.path]
  {
    CompleteTexts(u);
    assert [[], u.path][1..] == [u.path] && [u.path][1..] == [];
    assert SeenAll([u.path]) == [u.path] && SeenAll([[], u.path]) == [u.path];
  }

  lemma SixGrouped(n: Bytes, l: Bytes, a: Bytes, s: Bytes, p: Bytes)
    requires IsUnitName(n) && l != [] && a != [] && s != []
    ensures var names := [n, n, l, a, s, p];
            GroupFrom(names, 0) == [UnitInfo(n, n, l, a, s), UnitInfo(n, l, a, s, p)]
  {
    var names := [n, n, l, a, s, p];
    assert GroupFrom(names, 2) == [];
    assert GroupFrom(names, 1) == [UnitInfo(n, l, a, s, p)];
  }

  /** Such a unit, alone in its reply, comes out twice. */
  lemma ReadTwice(h: ReplyHeader, u: UnitStruct)
    requires ReplyFits(h, [u]) && HeaderTexts(h.fields) == [] && NamedTwice(u)
    ensures Extract(Envelope(h, Reply([u]))) == [Record(u), ShiftedRecord(u)]
    ensures !ReadsRight(h, [u])
  {
    MessageScan(h, [u]);
    SixTexts(u);
    OneUnit(u);
    Nothing(UnitTexts(u));
    SixGrouped(u.name, u.load, u.active, u.sub, u.path);
    ReplyRoundTripIff(h, [u]);
  }

  lemma OneUnit(u: UnitStruct)
    ensures AllTexts([u]) == UnitTexts(u)
    ensures |Records(Known([u]))| <= 1
  {
    assert [u][1..] == [];
    Nothing(UnitTexts(u));
  }

  // ---- there is one ----

  predicate Legible(s: string) {
    forall i | 0 <= i < |s| :: ' ' <= s[i] <= '~'
  }

  lemma AsciiPrintable(s: string)
    requires Legible(s)
    ensures AllPrintable(Ascii(s))
  {
  }

  lemma ScopeName(s: string)
    ensures IsUnitName(Ascii(s + ".scope"))
  {
    assert Ascii(s + ".scope")[|s|..] == Ascii(".scope");
    assert UNIT_SUFFIXES[6] == Ascii(".scope");
    assert HasSuffix(Ascii(s + ".scope"), UNIT_SUFFIXES[6]);
  }

  /** A scope with a one-letter name, running. */
  function Scope(): UnitStruct {
    var name := Ascii("a" + ".scope");
    UnitStruct(name, name, Ascii("loaded"), Ascii("active"), Ascii("running"), [], Ascii("/a1"), None)
  }

  function ScopeHeader(): ReplyHeader {
    ReplyHeader(1, 2, [ReplySerial, Other(Field(8, SIG_SIGNATURE, Ascii("a(ssssssouso)")))])
  }

  lemma ScopeNamedTwice()
    ensures NamedTwice(Scope())
  {
    ScopeName("a");
    AsciiPrintable("a" + ".scope");
    AsciiPrintable("loaded");
    AsciiPrintable("active");
    AsciiPrintable("running");
    AsciiPrintable("/a1");
  }

  lemma NamedTwiceOk(u: UnitStruct)
    requires NamedTwice(u)
    ensures UnitOk(u)
  {
  }

  predicate SmallStrings(u: UnitStruct) {
    u.job == None && forall s | s in HeadStrings(u) :: |s| <= 100
  }

  lemma {:induction false} PutStringsSize(b: Bytes, ss: seq<Bytes>)
    requires forall s | s in ss :: |s| <= 100
    ensures |PutStrings(b, ss)| <= |b| + 108 * |ss|
    decreases |ss|
  {
    if ss != [] {
      assert ss[0] in ss && forall s | s in ss[1..] :: s in ss;
      PutStringsSize(PutString(b, ss[0]), ss[1..]);
    }
  }

  lemma UnitSize(b: Bytes, u: UnitStruct)
    requires SmallStrings(u)
    ensures |PutUnit(b, u)| <= |b| + 1000
  {
    var head := PutStrings(PadTo(b, 8), HeadStrings(u));
    PutStringsSize(PadTo(b, 8), HeadStrings(u));
    PutStringsSize(PadTo(head, 4) + Le32(0), [[], [47]]);
  }

  lemma OneUnitSize(n: nat, u: UnitStruct)
    requires SmallStrings(u)
    ensures |ReplyWithLength(n, [u])| <= 1008
  {
    var b := Le32(n) + Zeros(4);
    UnitSize(b, u);
    assert [u][1..] == [] && PutUnits(b, [u]) == PutUnits(PutUnit(b, u), []);
  }

  lemma TwoFieldHeader(f: ReplyField, g: ReplyField)
    ensures PutReplyFields([], [f, g]) == PutReplyField(PutReplyField([], f), g)
    ensures HeaderTexts([f, g]) == FieldTexts(f) + FieldTexts(g)
  {
    assert [f, g][1..] == [g] && [g][1..] == [];
    assert PutReplyFields(PutReplyField([], f), [g]) == PutReplyFields(PutReplyField(PutReplyField([], f), g), []);
    Nothing(FieldTexts(g));
    assert HeaderTexts([g]) == FieldTexts(g) + HeaderTexts([]) == FieldTexts(g);
  }

  lemma ScopeHeaderOk()
    ensures HeaderOk(ScopeHeader()) && HeaderTexts(ScopeHeader().fields) == []
  {
    AsciiPrintable("a(ssssssouso)");
    assert Le32(2)[3] == 0;
    TwoFieldHeader(ReplySerial, Other(Field(8, SIG_SIGNATURE, Ascii("a(ssssssouso)"))));
  }

  lemma SmallFits(h: ReplyHeader, u: UnitStruct)
    requires HeaderOk(h) && NamedTwice(u) && SmallStrings(u)
    ensures ReplyFits(h, [u])
  {
    NamedTwiceOk(u);
    var size := |ReplyWithLength(0, [u])|;
    OneUnitSize(if size < 8 then 0 else size - 8, u);
  }

  lemma ScopeSmall()
    ensures SmallStrings(Scope())
  {
  }

  /** There is such a reply: a scope named "a.scope", running, with a header of two fields. */
  lemma ScopeReadTwice() returns (h: ReplyHeader, u: UnitStruct)
    ensures h == ScopeHeader() && u == Scope()
    ensures ReplyFits(h, [u]) && !ReadsRight(h, [u])
    ensures Extract(Envelope(h, Reply([u]))) == [Record(u), ShiftedRecord(u)]
  {
    h, u := ScopeHeader(), Scope();
    ScopeHeaderOk();
    ScopeNamedTwice();
    ScopeSmall();
    SmallFits(h, u);
    ReadTwice(h, u);
  }

  // ---- why a string must not end in a byte of 3 to 5 ----

  /** Where `PutStrings` puts the two strings. */
  lemma TwoStringsPlaced(s: Bytes, x: Bytes)
    requires |s| % 4 == 1
    ensures PutStrings([], [s, x]) == DbusString(s) + Zeros(2) + DbusString(x)
  {
    assert [s, x][1..] == [x] && [x][1..] == [];
    assert PadTo([], 4) == [] && [] + DbusString(s) == DbusString(s);
    assert PutStrings([], [s, x]) == PutStrings(DbusString(s), [x]) == PutStrings(PutString(DbusString(s), x), []);
    assert RoundUp(|s| + 5, 4) == |s| + 7;
  }

  lemma WordOfSpaces()
    ensures Le32(0x20_2020) == [32, 32, 32, 0]
  {
  }

  lemma EtxTail(x: Bytes)
    requires |x| == 0x20_2020
    ensures var t := [3, 0] + Zeros(2) + DbusString(x);
            |t| >= 8 && Read32(t, 0) == 3 && t[4..7] == [32, 32, 32] && t[7] == 0
  {
    WordOfSpaces();
    var t, rest := [3, 0] + Zeros(2) + DbusString(x), [32, 32, 32, 0] + (x + [0]);
    assert t == [3, 0, 0, 0] + rest;
    WordThen([3, 0, 0, 0], rest);
    assert t[4..7] == rest[..3] && t[7] == rest[3];
  }

  /** A string that ends in the control character 3, two zeros of padding, and the length word of a
      string of about 2 MiB: the scan takes them for a string of three spaces. */
  lemma EtxReadAsString(s: Bytes, x: Bytes)
    requires NulFree(s) && |s| % 4 == 1 && s[|s| - 1] == 3 && |x| == 0x20_2020
    ensures SeenAll([s, x]) == [] && Scan(PutStrings([], [s, x])) != []
  {
    var tail := [3, 0] + Zeros(2) + DbusString(x);
    NoneSeen(s, x);
    TwoStringsPlaced(s, x);
    EtxQuiet(s, Zeros(2) + DbusString(x));
    Assoc(DbusString(s), Zeros(2), DbusString(x));
    Assoc([3, 0], Zeros(2), DbusString(x));
    EtxTail(x);
    StringScans(tail, [32, 32, 32]);
  }

  lemma NoneSeen(s: Bytes, x: Bytes)
    requires s != [] && s[|s| - 1] == 3 && |x| > 512
    ensures SeenAll([s, x]) == []
  {
    assert !Printable(s[|s| - 1]);
    assert Seen(s) == [] && Seen(x) == [];
    assert [s, x][1..] == [x] && [x][1..] == [];
    assert SeenAll([x]) == [];
  }

  lemma EtxQuiet(s: Bytes, rest: Bytes)
    requires NulFree(s) && s != [] && s[|s| - 1] == 3
    ensures Scan(DbusString(s) + rest) == Scan([3, 0] + rest)
  {
    var t, last := DbusString(s) + rest, |s| + 3;
    TextQuiet(s, rest);
    TextEnd(s, rest);
    CharsRun(t, 1, 4, s);
    assert t[last] == t[4..4 + |s|][|s| - 1];
    BigQuiet(t, last - 1);
    assert QuietOver(t, 0, last);
    SkipOver(t, 0, last);
    assert t[0..] == t && t[last..] == [3, 0] + rest;
  }
}
