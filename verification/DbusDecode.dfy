/**
 A decoder for D-Bus method calls, written from the D-Bus Specification (sections "Message
 Format" and "Marshaling (Wire Format)") and not from the client's code, and the proof that
 it reads back what the client writes.
 */
module DbusDecode {
  import opened Options
  import opened DbusWire

  datatype Message = Message(kind: Byte, flags: Byte, serial: nat, fields: seq<Field>, body: Bytes)

  predicate ZeroRange(m: Bytes, from: nat, to: nat)
    requires from <= to <= |m|
  {
    forall k | from <= k < to :: m[k] == 0
  }

  /** A string at the 4-aligned offset `p`, and the offset after its NUL. */
  function ReadString(m: Bytes, p: nat): Option<(Bytes, nat)> {
    if !Aligned(p, 4) || p + 4 > |m| then None
    else
      var n := Read32(m, p);
      if p + 5 + n > |m| || m[p + 4 + n] != 0 then None
      else Some((m[p + 4..p + 4 + n], p + 5 + n))
  }

  /** A header field struct (BYTE, VARIANT) at offset `p`, and the offset after it. */
  function ReadField(h: Bytes, p: nat): (r: Option<(Field, nat)>)
    ensures r.Some? ==> p < r.value.1 <= |h|
  {
    if p + 5 > |h| || h[p + 1] != 1 || h[p + 3] != 0 then None
    else if h[p + 2] == SIG_SIGNATURE then
      var n := h[p + 4];
      if p + 6 + n > |h| || h[p + 5 + n] != 0 then None
      else Some((Field(h[p], h[p + 2], h[p + 5..p + 5 + n]), p + 6 + n))
    else if h[p + 2] == SIG_STRING || h[p + 2] == SIG_PATH then
      match ReadString(h, p + 4)
      case None => None
      case Some((value, next)) => Some((Field(h[p], h[p + 2], value), next))
    else None
  }

  /** The header field array from offset `p` to the end of its declared length. The array
      starts at a multiple of 8, so offsets in it align like offsets in the message. The
      specification leaves the padding behind the last field out of that length; with
      `padInside` the array may end in padding instead. */
  function ReadFields(h: Bytes, p: nat, padInside: bool): Option<seq<Field>>
    requires p <= |h|
    decreases |h| - p
  {
    if p == |h| then Some([])
    else
      var q := RoundUp(p, 8);
      if q > |h| || !ZeroRange(h, p, q) then None
      else if q == |h| then if padInside then Some([]) else None
      else
        match ReadField(h, q)
        case None => None
        case Some((f, next)) =>
          match ReadFields(h, next, padInside)
          case None => None
          case Some(fs) => Some([f] + fs)
  }

  function Decode(m: Bytes, padInside: bool): Option<Message> {
    if |m| < 16 || m[0] != LITTLE_ENDIAN || m[3] != 1 then None
    else
      var (bodyLen, serial, hdrLen) := (Read32(m, 4), Read32(m, 8), Read32(m, 12));
      var bodyAt := RoundUp(16 + hdrLen, 8);
      if |m| != bodyAt + bodyLen || !ZeroRange(m, 16 + hdrLen, bodyAt) then None
      else
        match ReadFields(m[16..16 + hdrLen], 0, padInside)
        case None => None
        case Some(fields) => Some(Message(m[1], m[2], serial, fields, m[bodyAt..]))
  }

  /** A body of signature "ss". */
  function ReadTwoStrings(body: Bytes): Option<(Bytes, Bytes)> {
    match ReadString(body, 0)
    case None => None
    case Some((first, next)) =>
      var q := RoundUp(next, 4);
      if q > |body| || !ZeroRange(body, next, q) then None
      else
        match ReadString(body, q)
        case None => None
        case Some((second, end)) => if end == |body| then Some((first, second)) else None
  }

  // ---- where the encoded pieces lie ----

  /** `x` stands at offset `p` of `m`. */
  predicate At(m: Bytes, p: nat, x: Bytes) {
    p + |x| <= |m| && m[p..p + |x|] == x
  }

  lemma AtSplit(m: Bytes, p: nat, x: Bytes, y: Bytes)
    requires At(m, p, x + y)
    ensures At(m, p, x) && At(m, p + |x|, y)
  {
    var xy := m[p..p + |x + y|];
    assert m[p..p + |x|] == xy[..|x|] && m[p + |x|..p + |x| + |y|] == xy[|x|..];
  }

  lemma AtByte(m: Bytes, p: nat, x: Bytes, k: nat)
    requires At(m, p, x) && k < |x|
    ensures m[p + k] == x[k]
  {
    assert m[p..p + |x|][k] == m[p + k];
  }

  lemma WordAt(m: Bytes, p: nat, v: nat)
    requires At(m, p, Le32(v))
    ensures Read32(m, p) == v % WORD
  {
    var x := Le32(v);
    AtByte(m, p, x, 0);
    AtByte(m, p, x, 1);
    AtByte(m, p, x, 2);
    AtByte(m, p, x, 3);
    WordDigits(v);
  }

  lemma AlignedNear(n: nat)
    requires Aligned(n, 8)
    ensures Aligned(n, 4) && Aligned(n + 4, 4) && Aligned(n + 16, 8)
  {
    assert n == 8 * (n / 8);
  }

  /** A string whose length word is `w`. */
  lemma WordStringAt(m: Bytes, p: nat, w: Bytes, s: Bytes)
    requires Aligned(p, 4) && |w| == 4 && At(m, p, w + s + [0])
    requires At(m, p, w) && Read32(m, p) == |s|
    ensures ReadString(m, p) == Some((s, p + 5 + |s|))
  {
    AtSplit(m, p, w + s, [0]);
    AtSplit(m, p, w, s);
    AtByte(m, p + 4 + |s|, [0], 0);
  }

  lemma StringAt(m: Bytes, p: nat, s: Bytes)
    requires Aligned(p, 4) && |s| < WORD && At(m, p, DbusString(s))
    ensures ReadString(m, p) == Some((s, p + 5 + |s|))
  {
    AtSplit(m, p, Le32(|s|) + s, [0]);
    AtSplit(m, p, Le32(|s|), s);
    WordAt(m, p, |s|);
    WordStringAt(m, p, Le32(|s|), s);
  }

  lemma ZerosAt(m: Bytes, p: nat, n: nat)
    requires At(m, p, Zeros(n))
    ensures ZeroRange(m, p, p + n)
  {
    forall k | p <= k < p + n ensures m[k] == 0 {
      AtByte(m, p, Zeros(n), k - p);
    }
  }

  lemma PadAt(m: Bytes, b: Bytes, k: nat)
    requires (k == 4 || k == 8) && At(m, 0, PadTo(b, k))
    ensures At(m, 0, b) && ZeroRange(m, |b|, RoundUp(|b|, k))
  {
    AtSplit(m, 0, b, Zeros(RoundUp(|b|, k) - |b|));
    ZerosAt(m, |b|, RoundUp(|b|, k) - |b|);
  }

  // ---- reading back one field ----

  /** A field whose value fits its length prefix. */
  predicate Fits(f: Field) {
    if f.sig == SIG_SIGNATURE then |f.value| < 256
    else (f.sig == SIG_STRING || f.sig == SIG_PATH) && |f.value| < WORD
  }

  lemma SignatureAt(h: Bytes, q: nat, code: Byte, value: Bytes)
    requires |value| < 256 && At(h, q, [code, 1, SIG_SIGNATURE, 0] + ([|value|] + value + [0]))
    ensures ReadField(h, q) == Some((Field(code, SIG_SIGNATURE, value), q + 6 + |value|))
  {
    var head: Bytes := [code, 1, SIG_SIGNATURE, 0];
    AtSplit(h, q, head, [|value|] + value + [0]);
    AtByte(h, q, head, 0);
    AtByte(h, q, head, 1);
    AtByte(h, q, head, 2);
    AtByte(h, q, head, 3);
    AtSplit(h, q + 4, [|value|] + value, [0]);
    AtSplit(h, q + 4, [|value|], value);
    AtByte(h, q + 4, [|value|], 0);
    AtByte(h, q + 5 + |value|, [0], 0);
  }

  lemma StringFieldAt(h: Bytes, q: nat, code: Byte, sig: Byte, value: Bytes)
    requires Aligned(q, 8) && |value| < WORD && (sig == SIG_STRING || sig == SIG_PATH)
    requires At(h, q, [code, 1, sig, 0] + DbusString(value))
    ensures ReadField(h, q) == Some((Field(code, sig, value), q + 9 + |value|))
  {
    var head: Bytes := [code, 1, sig, 0];
    AtSplit(h, q, head, DbusString(value));
    AtByte(h, q, head, 0);
    AtByte(h, q, head, 1);
    AtByte(h, q, head, 2);
    AtByte(h, q, head, 3);
    AlignedNear(q);
    StringAt(h, q + 4, value);
  }

  lemma FieldAt(h: Bytes, q: nat, f: Field)
    requires Fits(f) && Aligned(q, 8) && At(h, q, [f.code, 1, f.sig, 0] + FieldValue(f))
    ensures ReadField(h, q) == Some((f, q + 4 + |FieldValue(f)|))
  {
    if f.sig == SIG_SIGNATURE {
      assert |f.value| % 256 == |f.value|;
      SignatureAt(h, q, f.code, f.value);
    } else {
      StringFieldAt(h, q, f.code, f.sig, f.value);
    }
  }

  lemma FieldReads(b: Bytes, f: Field, h: Bytes)
    requires Fits(f) && At(h, 0, PutField(b, f))
    ensures var q := RoundUp(|b|, 8);
            q < |PutField(b, f)| && ZeroRange(h, |b|, q) && ReadField(h, q) == Some((f, |PutField(b, f)|))
  {
    AtSplit(h, 0, PadTo(b, 8), [f.code, 1, f.sig, 0] + FieldValue(f));
    PadAt(h, b, 8);
    FieldAt(h, RoundUp(|b|, 8), f);
  }

  // ---- reading back the header ----

  lemma PrefixAt(m: Bytes, x: Bytes)
    requires x <= m
    ensures At(m, 0, x)
  {
  }

  lemma FieldsReadEnd(b: Bytes, h: Bytes, padInside: bool)
    requires h == b || (padInside && h == PadTo(b, 8))
    ensures ReadFields(h, |b|, padInside) == Some([])
  {
    if h != b {
      PrefixAt(h, h);
      PadAt(h, b, 8);
    }
  }

  lemma FieldsReadStep(b: Bytes, f: Field, h: Bytes, fs: seq<Field>, padInside: bool)
    requires Fits(f) && PutField(b, f) <= h
    requires ReadFields(h, |PutField(b, f)|, padInside) == Some(fs)
    ensures ReadFields(h, |b|, padInside) == Some([f] + fs)
  {
    PrefixAt(h, PutField(b, f));
    FieldReads(b, f, h);
  }

  lemma FieldsStart(b: Bytes, fs: seq<Field>, h: Bytes)
    requires h == PutFields(b, fs) || h == PadTo(PutFields(b, fs), 8)
    ensures b <= h
  {
  }

  lemma {:induction false} FieldsRead(b: Bytes, fs: seq<Field>, h: Bytes, padInside: bool)
    requires forall f | f in fs :: Fits(f)
    requires h == PutFields(b, fs) || (padInside && h == PadTo(PutFields(b, fs), 8))
    ensures ReadFields(h, |b|, padInside) == Some(fs)
    decreases |fs|
  {
    if fs == [] {
      FieldsReadEnd(b, h, padInside);
    } else {
      assert fs[0] in fs && forall f | f in fs[1..] :: f in fs;
      var b' := PutField(b, fs[0]);
      assert PutFields(b, fs) == PutFields(b', fs[1..]);
      FieldsStart(b', fs[1..], h);
      FieldsRead(b', fs[1..], h, padInside);
      FieldsReadStep(b, fs[0], h, fs[1..], padInside);
      assert [fs[0]] + fs[1..] == fs;
    }
  }

  /** Padding counted in the array length stops a strict reader. */
  lemma {:induction false} StrictStopsAtPad(b: Bytes, fs: seq<Field>, h: Bytes)
    requires forall f | f in fs :: Fits(f)
    requires h == PadTo(PutFields(b, fs), 8) && |h| > |PutFields(b, fs)|
    ensures ReadFields(h, |b|, false) == None
    decreases |fs|
  {
    if fs != [] {
      assert fs[0] in fs && forall f | f in fs[1..] :: f in fs;
      var b' := PutField(b, fs[0]);
      assert PutFields(b, fs) == PutFields(b', fs[1..]);
      PrefixAt(h, b');
      FieldReads(b, fs[0], h);
      StrictStopsAtPad(b', fs[1..], h);
    }
  }

  // ---- sizes ----

  function FieldEnd(n: nat, f: Field): nat {
    RoundUp(n, 8) + |f.value| + if f.sig == SIG_SIGNATURE then 6 else 9
  }

  function FieldsEnd(n: nat, fs: seq<Field>): nat
    decreases |fs|
  {
    if fs == [] then n else FieldsEnd(FieldEnd(n, fs[0]), fs[1..])
  }

  lemma {:induction false} FieldsSize(b: Bytes, fs: seq<Field>)
    ensures |PutFields(b, fs)| == FieldsEnd(|b|, fs)
    decreases |fs|
  {
    if fs != [] {
      FieldsSize(PutField(b, fs[0]), fs[1..]);
    }
  }

  lemma {:induction false} FieldsEndAppend(n: nat, fs: seq<Field>, f: Field)
    ensures FieldsEnd(n, fs + [f]) == FieldEnd(FieldsEnd(n, fs), f)
    decreases |fs|
  {
    if fs == [] {
      assert fs + [f] == [f] && [f][1..] == [];
    } else {
      assert (fs + [f])[1..] == fs[1..] + [f];
      FieldsEndAppend(FieldEnd(n, fs[0]), fs[1..], f);
    }
  }

  /** Where the header of a call ends before padding: the name is the only free part. */
  lemma CallFieldsEnd(name: Bytes)
    ensures FieldsEnd(0, CallFields(name)) == RoundUp(97 + |name|, 8) + 33
  {
    var path, iface, member, dest :=
      Field(1, SIG_PATH, PATH), Field(2, SIG_STRING, IFACE), Field(3, SIG_STRING, name), Field(6, SIG_STRING, DEST);
    FieldsEndAppend(0, [], path);
    FieldsEndAppend(0, [path], iface);
    FieldsEndAppend(0, [path, iface], member);
    FieldsEndAppend(0, [path, iface, member], dest);
    assert [] + [path] == [path] && [path] + [iface] == [path, iface];
    assert [path, iface] + [member] == [path, iface, member];
    assert [path, iface, member] + [dest] == CallFields(name);
    assert FieldEnd(0, path) == 34 && FieldEnd(34, iface) == 81;
  }

  /** The size of the action header. The signature field is last and takes exactly 8 bytes from
      an 8-byte offset, so no padding follows it. */
  lemma ActionHeaderSize(name: Bytes)
    ensures |ActionHeader(name)| == RoundUp(97 + |name|, 8) + 48
    ensures ActionHeader(name) == PutFields([], ActionFields(name))
  {
    CallFieldsEnd(name);
    FieldsSize([], ActionFields(name));
    FieldsEndAppend(0, CallFields(name), Field(8, SIG_SIGNATURE, Ascii("ss")));
    SignatureEnd(RoundUp(97 + |name|, 8));
    AlignedIsPadded(PutFields([], ActionFields(name)));
  }

  lemma SignatureEnd(n: nat)
    requires Aligned(n, 8)
    ensures RoundUp(n + 33, 8) == n + 40 && Aligned(n + 48, 8)
  {
    assert n == 8 * (n / 8);
  }

  lemma AlignedIsPadded(b: Bytes)
    requires Aligned(|b|, 8)
    ensures PadTo(b, 8) == b
  {
    assert b + [] == b;
  }

  lemma ActionBodySize(unitName: Bytes, mode: Bytes)
    ensures |ActionBody(unitName, mode)| == RoundUp(|unitName| + 5, 4) + |mode| + 5
  {
  }

  /** Where the parts of a frame lie, whatever its three words are. */
  lemma FrameParts(m: Bytes, w1: Bytes, w2: Bytes, w3: Bytes, hdr: Bytes, body: Bytes)
    requires |w1| == |w2| == |w3| == 4
    requires m == [LITTLE_ENDIAN, 1, 0, 1] + w1 + w2 + w3 + hdr + body
    ensures |m| == 16 + |hdr| + |body|
    ensures m[0] == LITTLE_ENDIAN && m[1] == 1 && m[2] == 0 && m[3] == 1
    ensures At(m, 4, w1) && At(m, 8, w2) && At(m, 12, w3) && At(m, 16, hdr) && At(m, 16 + |hdr|, body)
  {
    var h0: Bytes := [LITTLE_ENDIAN, 1, 0, 1];
    PrefixAt(m, m);
    AtSplit(m, 0, h0 + w1 + w2 + w3 + hdr, body);
    AtSplit(m, 0, h0 + w1 + w2 + w3, hdr);
    AtSplit(m, 0, h0 + w1 + w2, w3);
    AtSplit(m, 0, h0 + w1, w2);
    AtSplit(m, 0, h0, w1);
    AtByte(m, 0, h0, 0);
    AtByte(m, 0, h0, 1);
    AtByte(m, 0, h0, 2);
    AtByte(m, 0, h0, 3);
  }

  /** What a reader of the fixed header sees. */
  predicate Framed(m: Bytes, serial: nat, hdr: Bytes, body: Bytes) {
    && |m| == 16 + |hdr| + |body|
    && m[0] == LITTLE_ENDIAN && m[1] == 1 && m[2] == 0 && m[3] == 1
    && Read32(m, 4) == |body| % WORD && Read32(m, 8) == serial % WORD && Read32(m, 12) == |hdr| % WORD
    && At(m, 16, hdr) && At(m, 16 + |hdr|, body)
  }

  lemma FrameIsFramed(serial: nat, hdr: Bytes, body: Bytes)
    ensures Framed(Frame(serial, hdr, body), serial, hdr, body)
  {
    var m := Frame(serial, hdr, body);
    FrameParts(m, Le32(|body|), Le32(serial), Le32(|hdr|), hdr, body);
    WordAt(m, 4, |body|);
    WordAt(m, 8, serial);
    WordAt(m, 12, |hdr|);
  }
}
