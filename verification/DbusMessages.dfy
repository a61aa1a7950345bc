/**
 What a decoder that follows the D-Bus Specification makes of the two messages the client builds.
 */
module DbusMessages {
  import opened Options
  import opened DbusWire
  import opened DbusDecode

  // ---- the action message ----

  /** The two lengths the 32-bit words of an action message must hold. */
  predicate ActionFits(name: Bytes, unitName: Bytes, mode: Bytes) {
    RoundUp(97 + |name|, 8) + 48 < WORD && RoundUp(|unitName| + 5, 4) + |mode| + 5 < WORD
  }

  /** A framed header that fits its word and reads as fields makes a message that decodes. */
  lemma FramedDecodes(m: Bytes, serial: nat, hdr: Bytes, body: Bytes, fs: seq<Field>, padInside: bool)
    requires serial < WORD && |hdr| < WORD && |body| < WORD && Aligned(|hdr|, 8)
    requires Framed(m, serial, hdr, body)
    requires ReadFields(hdr, 0, padInside) == Some(fs)
    ensures Decode(m, padInside) == Some(Message(1, 0, serial, fs, body))
  {
    AlignedNear(|hdr|);
    Untruncated(|hdr|);
    Untruncated(|body|);
    Untruncated(serial);
    DecodeFromParts(m, serial, hdr, body, fs, padInside);
  }

  lemma Untruncated(n: nat)
    requires n < WORD
    ensures n % WORD == n
  {
  }

  lemma DecodeFromParts(m: Bytes, serial: nat, hdr: Bytes, body: Bytes, fs: seq<Field>, padInside: bool)
    requires |m| == 16 + |hdr| + |body| && m[0] == LITTLE_ENDIAN && m[1] == 1 && m[2] == 0 && m[3] == 1
    requires Read32(m, 4) == |body| && Read32(m, 8) == serial && Read32(m, 12) == |hdr|
    requires At(m, 16, hdr) && At(m, 16 + |hdr|, body) && Aligned(16 + |hdr|, 8)
    requires ReadFields(hdr, 0, padInside) == Some(fs)
    ensures Decode(m, padInside) == Some(Message(1, 0, serial, fs, body))
  {
    assert RoundUp(16 + |hdr|, 8) == 16 + |hdr|;
    assert m[16 + |hdr|..] == body;
  }

  /** A truncated length contradicts the size of the message. */
  lemma TruncatedFails(m: Bytes, serial: nat, hdr: Bytes, body: Bytes, padInside: bool)
    requires |hdr| >= WORD || |body| >= WORD
    requires Aligned(|hdr|, 8) && Framed(m, serial, hdr, body)
    ensures Decode(m, padInside) == None
  {
    WrappedIsShorter(|hdr|, |body|);
  }

  lemma FieldsFit(name: Bytes)
    requires |name| < WORD
    ensures forall f | f in ActionFields(name) :: Fits(f)
    ensures forall f | f in CallFields(name) :: Fits(f)
  {
  }

  lemma TwoStringsRead(first: Bytes, second: Bytes)
    requires |first| < WORD && |second| < WORD
    ensures ReadTwoStrings(ActionBody(first, second)) == Some((first, second))
  {
    var body := ActionBody(first, second);
    var pad := PadTo(DbusString(first), 4);
    PrefixAt(body, body);
    AtSplit(body, 0, pad, DbusString(second));
    PadAt(body, DbusString(first), 4);
    StringAt(body, 0, first);
    StringAt(body, |pad|, second);
  }

  lemma WrappedIsShorter(h: nat, b: nat)
    requires h >= WORD || b >= WORD
    requires Aligned(h, 8)
    ensures RoundUp(16 + h % WORD, 8) + b % WORD < 16 + h + b
  {
    var k := h % WORD;
    assert h == WORD * (h / WORD) + k;
    assert k % 8 == 0;
  }

  /** Decoding an action message gives back its five header fields and both strings exactly
      when the header and the body fit their 32-bit length words; otherwise a length is
      truncated and the message does not decode at all. The header needs no padding inside
      its declared length, so a decoder that follows the specification accepts it. */
  lemma ActionRoundTripIff(name: Bytes, unitName: Bytes, mode: Bytes)
    ensures ActionFits(name, unitName, mode) ==>
      && Decode(ActionMsg(name, unitName, mode), false) ==
           Some(Message(1, 0, 2, ActionFields(name), ActionBody(unitName, mode)))
      && ReadTwoStrings(ActionBody(unitName, mode)) == Some((unitName, mode))
    ensures !ActionFits(name, unitName, mode) ==> Decode(ActionMsg(name, unitName, mode), false) == None
  {
    var hdr, body := ActionHeader(name), ActionBody(unitName, mode);
    ActionHeaderSize(name);
    ActionBodySize(unitName, mode);
    FrameIsFramed(2, hdr, body);
    if ActionFits(name, unitName, mode) {
      FieldsFit(name);
      FieldsRead([], ActionFields(name), hdr, false);
      FramedDecodes(ActionMsg(name, unitName, mode), 2, hdr, body, ActionFields(name), false);
      TwoStringsRead(unitName, mode);
    } else {
      TruncatedFails(ActionMsg(name, unitName, mode), 2, hdr, body, false);
    }
  }

  lemma PiecesAt(m: Bytes, p: nat, x: Bytes, y: Bytes)
    requires At(m, p, PadTo(x, 4) + y)
    ensures At(m, p, x) && At(m, p + RoundUp(|x|, 4), y)
  {
    AtSplit(m, p, PadTo(x, 4), y);
    AtSplit(m, p, x, Zeros(RoundUp(|x|, 4) - |x|));
  }

  lemma AlignedHeader(name: Bytes)
    ensures Aligned(16 + |ActionHeader(name)|, 8)
  {
    ActionHeaderSize(name);
    AlignedNear(|ActionHeader(name)|);
  }

  /** The bytes of a header field struct. */
  function FieldStruct(f: Field): Bytes {
    [f.code, 1, f.sig, 0] + FieldValue(f)
  }

  /** Where the `k`-th header field struct starts in the header array. */
  function FieldOffset(n: nat, fs: seq<Field>, k: nat): nat
    requires k < |fs|
  {
    RoundUp(FieldsEnd(n, fs[..k]), 8)
  }

  /** A header struct stands at `p`, and it and its value are aligned. */
  predicate StructAt(m: Bytes, p: nat, f: Field) {
    && Aligned(p, 8) && At(m, p, FieldStruct(f))
    && Aligned(p + 4, 4) && At(m, p + 4, FieldValue(f))
  }

  lemma {:induction false} PutFieldsSplit(b: Bytes, fs: seq<Field>, k: nat)
    requires k <= |fs|
    ensures PutFields(b, fs) == PutFields(PutFields(b, fs[..k]), fs[k..])
    decreases k
  {
    if k > 0 {
      PutFieldsSplit(PutField(b, fs[0]), fs[1..], k - 1);
      assert fs[..k][1..] == fs[1..][..k - 1] && fs[1..][k - 1..] == fs[k..];
    }
  }

  lemma FirstStands(b: Bytes, f: Field, h: Bytes)
    requires PutField(b, f) <= h
    ensures At(h, RoundUp(|b|, 8), FieldStruct(f))
  {
    PrefixAt(h, PutField(b, f));
    AtSplit(h, 0, PadTo(b, 8), FieldStruct(f));
  }

  lemma FieldStands(fs: seq<Field>, k: nat)
    requires k < |fs|
    ensures At(PutFields([], fs), FieldOffset(0, fs, k), FieldStruct(fs[k]))
  {
    var b := PutFields([], fs[..k]);
    PutFieldsSplit([], fs, k);
    FieldsSize([], fs[..k]);
    assert PutField(b, fs[k]) <= PutFields(b, fs[k..]);
    FirstStands(b, fs[k], PutFields([], fs));
  }

  lemma AtWithin(m: Bytes, p: nat, h: Bytes, q: nat, x: Bytes)
    requires At(m, p, h) && At(h, q, x)
    ensures At(m, p + q, x)
  {
    forall k | 0 <= k < |x| ensures m[p + q + k] == x[k] {
      AtByte(m, p, h, q + k);
      AtByte(h, q, x, k);
    }
  }

  lemma StructStands(m: Bytes, h: Bytes, fs: seq<Field>, k: nat)
    requires At(m, 16, h) && h == PutFields([], fs) && k < |fs|
    ensures StructAt(m, 16 + FieldOffset(0, fs, k), fs[k])
  {
    var q := FieldOffset(0, fs, k);
    FieldStands(fs, k);
    AtWithin(m, 16, h, q, FieldStruct(fs[k]));
    StructParts(m, q, fs[k]);
  }

  lemma StructParts(m: Bytes, q: nat, f: Field)
    requires Aligned(q, 8) && At(m, 16 + q, FieldStruct(f))
    ensures StructAt(m, 16 + q, f)
  {
    AtSplit(m, 16 + q, [f.code, 1, f.sig, 0], FieldValue(f));
    AlignedNear(q);
    AlignedNear(16 + q);
  }

  /** The header structs of a message whose header array starts at offset 16. */
  ghost predicate HeaderAligned(m: Bytes, fs: seq<Field>) {
    forall k | 0 <= k < |fs| :: StructAt(m, 16 + FieldOffset(0, fs, k), fs[k])
  }

  /** A body of two strings at the end of a message. */
  ghost predicate BodyAligned(m: Bytes, first: Bytes, second: Bytes) {
    var size, next := |ActionBody(first, second)|, RoundUp(|first| + 5, 4);
    && size <= |m| && Aligned(|m| - size, 8) && At(m, |m| - size, DbusString(first))
    && Aligned(|m| - size + next, 4) && At(m, |m| - size + next, DbusString(second))
  }

  lemma HeaderStands(m: Bytes, h: Bytes, fs: seq<Field>)
    requires At(m, 16, h) && h == PutFields([], fs)
    ensures HeaderAligned(m, fs)
  {
    forall k | 0 <= k < |fs| ensures StructAt(m, 16 + FieldOffset(0, fs, k), fs[k]) {
      StructStands(m, h, fs, k);
    }
  }

  lemma AlignedSum(a: nat, b: nat)
    requires Aligned(a, 8) && Aligned(b, 4)
    ensures Aligned(a + b, 4)
  {
    AlignedNear(a);
  }

  lemma BodyStands(m: Bytes, p: nat, first: Bytes, second: Bytes)
    requires Aligned(p, 8) && |m| == p + |ActionBody(first, second)| && At(m, p, ActionBody(first, second))
    ensures BodyAligned(m, first, second)
  {
    AlignedSum(p, RoundUp(|first| + 5, 4));
    PiecesAt(m, p, DbusString(first), DbusString(second));
  }

  lemma FrameAligned(serial: nat, h: Bytes, fs: seq<Field>, first: Bytes, second: Bytes)
    requires h == PutFields([], fs) && Aligned(16 + |h|, 8)
    ensures HeaderAligned(Frame(serial, h, ActionBody(first, second)), fs)
    ensures BodyAligned(Frame(serial, h, ActionBody(first, second)), first, second)
  {
    var m := Frame(serial, h, ActionBody(first, second));
    FrameIsFramed(serial, h, ActionBody(first, second));
    HeaderStands(m, h, fs);
    BodyStands(m, 16 + |h|, first, second);
  }

  /** Every part of an action message lies where its type must be aligned: each of the five header
      structs on an 8-byte offset of the message and its value on a 4-byte offset (with its length
      word, but for the signature), the body behind them on an 8-byte offset, and the second
      string of the body on a 4-byte offset. */
  lemma ActionAlignment(name: Bytes, unitName: Bytes, mode: Bytes)
    ensures HeaderAligned(ActionMsg(name, unitName, mode), ActionFields(name))
    ensures BodyAligned(ActionMsg(name, unitName, mode), unitName, mode)
  {
    AlignedHeader(name);
    ActionHeaderSize(name);
    FrameAligned(2, ActionHeader(name), ActionFields(name), unitName, mode);
  }

  /** Nothing of the three arguments is lost: different calls are different messages. */
  lemma ActionMessagesDiffer(n1: Bytes, u1: Bytes, m1: Bytes, n2: Bytes, u2: Bytes, m2: Bytes)
    requires ActionFits(n1, u1, m1) && ActionFits(n2, u2, m2)
    requires ActionMsg(n1, u1, m1) == ActionMsg(n2, u2, m2)
    ensures n1 == n2 && u1 == u2 && m1 == m2
  {
    ActionRoundTripIff(n1, u1, m1);
    ActionRoundTripIff(n2, u2, m2);
    assert ActionFields(n1)[2] == ActionFields(n2)[2];
  }

  // ---- the ListUnits message ----

  lemma ListUnitsSize()
    ensures |PutFields([], CallFields(LIST_UNITS))| == 145 && |ListUnitsHeader()| == 152
  {
    CallFieldsEnd(LIST_UNITS);
    FieldsSize([], CallFields(LIST_UNITS));
  }

  /** A header whose padding its declared length counts is read by a decoder that allows it. */
  lemma PaddedReads(fs: seq<Field>, serial: nat, hdr: Bytes)
    requires hdr == PadTo(PutFields([], fs), 8) && |hdr| < WORD && serial < WORD
    requires forall f | f in fs :: Fits(f)
    ensures Decode(Frame(serial, hdr, []), true) == Some(Message(1, 0, serial, fs, []))
  {
    FieldsRead([], fs, hdr, true);
    FrameIsFramed(serial, hdr, []);
    FramedDecodes(Frame(serial, hdr, []), serial, hdr, [], fs, true);
  }

  /** A decoder that follows the specification rejects it. */
  lemma PaddedRejected(fs: seq<Field>, serial: nat, hdr: Bytes)
    requires hdr == PadTo(PutFields([], fs), 8) && |PutFields([], fs)| < |hdr| < WORD
    requires forall f | f in fs :: Fits(f)
    ensures Decode(Frame(serial, hdr, []), false) == None
  {
    FrameIsFramed(serial, hdr, []);
    StrictStopsAtPad([], fs, hdr);
    Untruncated(|hdr|);
    assert Frame(serial, hdr, [])[16..16 + |hdr|] == hdr;
  }

  /** The ListUnits header ends in 7 bytes of padding that its declared length counts: a
      decoder that follows the specification finds no field there and rejects the message,
      one that allows padding inside the array reads the four fields and the empty body. */
  lemma ListUnitsNeedsLeniency()
    ensures |ListUnitsHeader()| == |PutFields([], CallFields(LIST_UNITS))| + 7
    ensures Decode(ListUnitsMsg(), true) == Some(Message(1, 0, 1, CallFields(LIST_UNITS), []))
    ensures Decode(ListUnitsMsg(), false) == None
  {
    ListUnitsSize();
    FieldsFit(LIST_UNITS);
    PaddedReads(CallFields(LIST_UNITS), 1, ListUnitsHeader());
    PaddedRejected(CallFields(LIST_UNITS), 1, ListUnitsHeader());
  }
}
