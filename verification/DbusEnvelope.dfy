/**
 The message around a ListUnits reply: the fixed header, the header fields (the serial replied
 to, sender, destination, signature) and the body, and what the scan finds in all of it.
 */
module DbusEnvelope {
  import opened Sequences
  import opened DbusWire
  import opened DbusScan
  import opened DbusLayout
  import opened DbusReply

  /** A header field of the reply: the serial of the call it answers, which is 1 for the only call
      that this client reads a reply to, or a field with a string or a signature. */
  datatype ReplyField = ReplySerial | Other(f: Field)

  datatype ReplyHeader = ReplyHeader(flags: Byte, serial: nat, fields: seq<ReplyField>)

  const SIG_WORD: Byte := 'u' as int

  function PutReplyField(b: Bytes, rf: ReplyField): (r: Bytes)
    ensures b <= r
  {
    match rf
    case ReplySerial => PadTo(b, 8) + ([5, 1, SIG_WORD, 0] + Le32(1))
    case Other(f) => PutField(b, f)
  }

  function PutReplyFields(b: Bytes, fs: seq<ReplyField>): (r: Bytes)
    ensures b <= r
    decreases |fs|
  {
    if fs == [] then b else PutReplyFields(PutReplyField(b, fs[0]), fs[1..])
  }

  function HeaderBytes(h: ReplyHeader): Bytes {
    PutReplyFields([], h.fields)
  }

  function FixedPart(flags: Byte, bodySize: nat, serial: nat, headerSize: nat): (r: Bytes)
    ensures |r| == 16
  {
    [LITTLE_ENDIAN, 2, flags, 1] + Le32(bodySize) + Le32(serial) + Le32(headerSize)
  }

  /** A method return, as the parser gets it. */
  function Envelope(h: ReplyHeader, body: Bytes): Bytes {
    FixedPart(h.flags, |body|, h.serial, |HeaderBytes(h)|) + (PadTo(HeaderBytes(h), 8) + body)
  }

  predicate FieldOk(rf: ReplyField) {
    rf.Other? ==>
      && HeadOk(rf.f.code, rf.f.sig) && Plain(rf.f.value)
      && (rf.f.sig == SIG_SIGNATURE ==> 1 <= |rf.f.value| < 32)
  }

  /** Fields, in any order, of less than 8 KiB together; the top byte of the serial is not that of a
      printable character. */
  predicate HeaderOk(h: ReplyHeader) {
    && h.fields != [] && (forall f | f in h.fields :: FieldOk(f))
    && |HeaderBytes(h)| < 8192 && !Printable(Le32(h.serial)[3])
  }

  function FieldTexts(rf: ReplyField): seq<Bytes> {
    if rf.ReplySerial? || rf.f.sig == SIG_SIGNATURE then [] else Seen(rf.f.value)
  }

  /** The strings of the header that the scan takes along: sender and destination. */
  function HeaderTexts(fs: seq<ReplyField>): seq<Bytes> {
    if fs == [] then [] else FieldTexts(fs[0]) + HeaderTexts(fs[1..])
  }

  // ---- the header fields as a layout ----

  lemma ValueGrows(b: Bytes, f: Field)
    requires FieldOk(Other(f))
    ensures Grows(b, b + FieldValue(f), FieldTexts(Other(f)))
  {
    if f.sig == SIG_SIGNATURE {
      OneItem(Signature(f.value));
      GrowsBy(b, b + FieldValue(f), [Signature(f.value)]);
    } else {
      StringGrows(b, f.value);
    }
  }

  /** The front of a field, aligned. */
  lemma FrontGrows(b: Bytes, code: Byte, sig: Byte)
    requires HeadOk(code, sig)
    ensures Grows(b, PadTo(b, 8) + [code, 1, sig, 0], [])
  {
    var p := PadTo(b, 8);
    PadGrows(b, 8);
    OneItem(Head(code, sig));
    GrowsBy(p, p + [code, 1, sig, 0], [Head(code, sig)]);
    GrowsThen(b, p, p + [code, 1, sig, 0], [], []);
  }

  lemma SerialGrows(b: Bytes)
    ensures Grows(b, PutReplyField(b, ReplySerial), [])
  {
    var p, front: Bytes := PadTo(b, 8), [5, 1, SIG_WORD, 0];
    assert Le32(1) == [1, 0, 0, 0];
    FrontGrows(b, 5, SIG_WORD);
    OneItem(Answer);
    GrowsBy(p + front, (p + front) + Le32(1), [Answer]);
    Assoc(p, front, Le32(1));
    GrowsThen(b, p + front, PutReplyField(b, ReplySerial), [], []);
  }

  lemma FieldGrows(b: Bytes, rf: ReplyField)
    requires FieldOk(rf)
    ensures Grows(b, PutReplyField(b, rf), FieldTexts(rf))
  {
    match rf
    case ReplySerial => SerialGrows(b);
    case Other(f) =>
      var p, front: Bytes := PadTo(b, 8), [f.code, 1, f.sig, 0];
      FrontGrows(b, f.code, f.sig);
      ValueGrows(p + front, f);
      Assoc(p, front, FieldValue(f));
      GrowsThen(b, p + front, PutField(b, f), [], FieldTexts(rf));
      Nothing(FieldTexts(rf));
  }

  lemma {:induction false} FieldsGrow(b: Bytes, fs: seq<ReplyField>)
    requires forall f | f in fs :: FieldOk(f)
    ensures Grows(b, PutReplyFields(b, fs), HeaderTexts(fs))
    decreases |fs|
  {
    if fs == [] {
      GrowsNothing(b);
    } else {
      assert fs[0] in fs && forall f | f in fs[1..] :: f in fs;
      FieldGrows(b, fs[0]);
      FieldsGrow(PutReplyField(b, fs[0]), fs[1..]);
      GrowsThen(b, PutReplyField(b, fs[0]), PutReplyFields(b, fs), FieldTexts(fs[0]), HeaderTexts(fs[1..]));
    }
  }

  lemma HeaderGrows(h: ReplyHeader)
    requires HeaderOk(h)
    ensures Grows([], PadTo(HeaderBytes(h), 8), HeaderTexts(h.fields))
  {
    FieldsGrow([], h.fields);
    PadGrows(HeaderBytes(h), 8);
    GrowsThen([], HeaderBytes(h), PadTo(HeaderBytes(h), 8), HeaderTexts(h.fields), []);
    Nothing(HeaderTexts(h.fields));
  }

  /** A layout can stand behind another. */
  lemma GrowsBehind(x: Bytes, y: Bytes, t1: seq<Bytes>, t2: seq<Bytes>)
    requires Grows([], x, t1) && Grows([], y, t2)
    ensures Grows([], x + y, t1 + t2)
  {
    var items :| AllOk(items) && y == [] + Layout(items) && Texts(items) == t2;
    assert y == Layout(items);
    GrowsBy(x, x + y, items);
    GrowsThen([], x, x + y, t1, t2);
  }

  lemma GrownScans(r: Bytes, texts: seq<Bytes>)
    requires Grows([], r, texts)
    ensures Scan(r) == texts
  {
    var items :| AllOk(items) && r == [] + Layout(items) && Texts(items) == texts;
    assert r == Layout(items);
    ScanLayout(items);
  }

  // ---- the fixed part ----

  lemma FixedDigits(bodySize: nat, serial: nat, headerSize: nat)
    requires 8 <= bodySize <= 0x800_0000 && !Printable(Le32(serial)[3]) && headerSize < 8192
    ensures bodySize % WORD == bodySize
    ensures headerSize / 256 % 256 < 32 && headerSize / 16777216 % 256 == 0
  {
  }

  lemma FixedBytes(flags: Byte, bodySize: nat, serial: nat, headerSize: nat)
    requires 8 <= bodySize <= 0x800_0000 && !Printable(Le32(serial)[3]) && headerSize < 8192
    ensures var t := FixedPart(flags, bodySize, serial, headerSize);
            && t[0] == LITTLE_ENDIAN && t[1] == 2 && t[2] == flags && t[3] == 1
            && Read32(t, 4) == bodySize && !Printable(t[11]) && t[13] < 32 && t[15] == 0
  {
    FixedDigits(bodySize, serial, headerSize);
    WordDigits(bodySize);
  }

  /** A length that spans the byte at `k`, which is not printable. */
  lemma SpanQuiet(t: Bytes, i: nat, k: nat)
    requires i + 4 <= k < |t| && !Printable(t[k])
    requires Read32(t, i) < 3 || k < i + 4 + Read32(t, i)
    ensures Quiet(t, i)
  {
    RoughQuiet(t, i);
  }

  /** No window that starts in the body length or before it fires. */
  lemma FixedQuietFront(t: Bytes)
    requires |t| >= 16 && t[0] == LITTLE_ENDIAN && t[1] == 2 && t[3] == 1
    requires 8 <= Read32(t, 4) && !Printable(t[11]) && t[13] < 32
    ensures QuietOver(t, 0, 8)
  {
    BigQuiet(t, 0);
    BigQuiet(t, 1);
    SpanQuiet(t, 2, 13);
    SpanQuiet(t, 3, 13);
    SpanQuiet(t, 4, 13);
    NearQuiet(t, 5, 11);
    NearQuiet(t, 6, 11);
    NearQuiet(t, 7, 11);
  }

  lemma FixedQuietBack(t: Bytes)
    requires |t| >= 18 && t[13] < 32 && t[15] == 0 && 1 <= t[16] < 32 && t[17] == 1
    ensures QuietOver(t, 8, 16)
  {
    NearQuiet(t, 8, 13);
    NearQuiet(t, 9, 13);
    NearQuiet(t, 10, 15);
    NearQuiet(t, 11, 15);
    NearQuiet(t, 12, 16);
    BigQuiet(t, 13);
    BigQuiet(t, 14);
    BigQuiet(t, 15);
  }

  lemma FixedQuiet(t: Bytes)
    requires |t| >= 18 && t[0] == LITTLE_ENDIAN && t[1] == 2 && t[3] == 1
    requires 8 <= Read32(t, 4) && !Printable(t[11]) && t[13] < 32 && t[15] == 0 && 1 <= t[16] < 32 && t[17] == 1
    ensures Scan(t) == Scan(t[16..])
  {
    FixedQuietFront(t);
    FixedQuietBack(t);
    assert QuietOver(t, 0, 16);
    SkipOver(t, 0, 16);
    assert t[0..] == t;
  }

  lemma FixedSkipped(flags: Byte, bodySize: nat, serial: nat, headerSize: nat, rest: Bytes)
    requires 8 <= bodySize <= 0x800_0000 && !Printable(Le32(serial)[3]) && headerSize < 8192
    requires |rest| >= 2 && 1 <= rest[0] < 32 && rest[1] == 1
    ensures Scan(FixedPart(flags, bodySize, serial, headerSize) + rest) == Scan(rest)
  {
    var f := FixedPart(flags, bodySize, serial, headerSize);
    FixedBytes(flags, bodySize, serial, headerSize);
    FixedThen(f, rest);
    FixedQuiet(f + rest);
  }

  lemma FixedThen(f: Bytes, rest: Bytes)
    requires |f| == 16 && |rest| >= 2
    ensures var t := f + rest;
            && t[16..] == rest && Read32(t, 4) == Read32(f, 4)
            && t[0] == f[0] && t[1] == f[1] && t[3] == f[3] && t[11] == f[11] && t[13] == f[13] && t[15] == f[15]
            && t[16] == rest[0] && t[17] == rest[1]
  {
  }

  // ---- the whole message ----

  /** A reply of at most 128 MiB. */
  predicate ReplyFits(h: ReplyHeader, us: seq<UnitStruct>) {
    HeaderOk(h) && (forall u | u in us :: UnitOk(u)) && |Reply(us)| <= 0x800_0000
  }

  lemma {:induction false} UnitsBehind(b: Bytes, us: seq<UnitStruct>)
    ensures |PutUnits(b, us)| >= |b|
    decreases |us|
  {
    if us != [] {
      UnitsBehind(PutUnit(b, us[0]), us[1..]);
    }
  }

  lemma FirstField(rf: ReplyField)
    requires FieldOk(rf)
    ensures var r := PutReplyField([], rf); |r| >= 2 && 1 <= r[0] < 32 && r[1] == 1
  {
    assert PadTo([], 8) == [];
  }

  lemma HeaderStarts(h: ReplyHeader)
    requires HeaderOk(h)
    ensures |HeaderBytes(h)| >= 2 && 1 <= HeaderBytes(h)[0] < 32 && HeaderBytes(h)[1] == 1
  {
    assert h.fields[0] in h.fields;
    FirstField(h.fields[0]);
    assert PutReplyField([], h.fields[0]) <= HeaderBytes(h);
  }

  /** The scan of a whole reply returns its strings in order, those of the header and those of the
      units: nothing of the fixed header, the words, the signature and the padding, and nothing
      for the strings it passes over. */
  lemma MessageScan(h: ReplyHeader, us: seq<UnitStruct>)
    requires ReplyFits(h, us)
    ensures Scan(Envelope(h, Reply(us))) == HeaderTexts(h.fields) + AllTexts(us)
  {
    var front, body := PadTo(HeaderBytes(h), 8), Reply(us);
    var size := |ReplyWithLength(0, us)|;
    var n := if size < 8 then 0 else size - 8;
    HeaderGrows(h);
    ReplyGrows(n, us);
    GrowsBehind(front, body, HeaderTexts(h.fields), AllTexts(us));
    GrownScans(front + body, HeaderTexts(h.fields) + AllTexts(us));
    HeaderStarts(h);
    UnitsBehind(Le32(n) + Zeros(4), us);
    FixedSkipped(h.flags, |body|, h.serial, |HeaderBytes(h)|, front + body);
  }
}
