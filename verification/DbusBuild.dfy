/**
 The code that appends the bytes of a message, loop by loop.
 */
module DbusBuild {
  import opened Sequences
  import opened DbusWire

  method AppendZerosTo(b: Bytes, k: nat) returns (r: Bytes)
    requires k == 4 || k == 8
    ensures r == PadTo(b, k)
  {
    r := b;
    ghost var total := RoundUp(|b|, k);
    while !Aligned(|r|, k)
      invariant |b| <= |r| <= total
      invariant r == b + Zeros(|r| - |b|)
      decreases total - |r|
    {
      r := r + [0];
    }
    RoundUpLeast(|b|, |r|, k);
  }

  lemma RoundUpLeast(n: nat, m: nat, k: nat)
    requires k == 4 || k == 8
    requires n <= m <= RoundUp(n, k) && Aligned(m, k)
    ensures m == RoundUp(n, k)
  {
  }

  lemma AppendString(b: Bytes, s: Bytes)
    ensures b + Le32(|s|) + s + [0] == b + DbusString(s)
  {
    Assoc(b, Le32(|s|), s);
    Assoc(b, Le32(|s|) + s, [0]);
  }

  method AppendHeaderField(b: Bytes, code: Byte, sigChar: Byte, value: Bytes) returns (r: Bytes)
    ensures r == PadTo(b, 8) + ([code, 1, sigChar, 0] + DbusString(value))
    ensures sigChar != SIG_SIGNATURE ==> r == PutField(b, Field(code, sigChar, value))
  {
    r := AppendZerosTo(b, 8);
    r := r + [code];
    r := r + [1, sigChar, 0];
    r := r + Le32(|value|);
    r := r + value;
    r := r + [0];
  }

  lemma SignatureParts(p: Bytes, n: Byte, sig: Bytes)
    ensures ((((p + [8]) + [1, SIG_SIGNATURE, 0]) + [n]) + sig) + [0] == p + ([8, 1, SIG_SIGNATURE, 0] + ([n] + sig + [0]))
  {
    var head := [8, 1, SIG_SIGNATURE, 0];
    assert (p + [8]) + [1, SIG_SIGNATURE, 0] == p + head;
    Assoc(p + head, [n], sig);
    Assoc(p + head, [n] + sig, [0]);
    Assoc(p, head, [n] + sig + [0]);
  }

  method AppendSignatureField(b: Bytes, sig: Bytes) returns (r: Bytes)
    ensures r == PutField(b, Field(8, SIG_SIGNATURE, sig))
  {
    r := AppendZerosTo(b, 8);
    SignatureParts(r, |sig| % 256, sig);
    r := r + [8];
    r := r + [1, SIG_SIGNATURE, 0];
    r := r + [|sig| % 256];
    r := r + sig;
    r := r + [0];
  }

  /** The fixed header and the parts behind it, written alike by both builders. */
  method WriteFrame(serial: nat, hdr: Bytes, body: Bytes) returns (buf: Bytes)
    ensures buf == Frame(serial, hdr, body)
  {
    buf := [LITTLE_ENDIAN];
    buf := buf + [1];
    buf := buf + [0];
    buf := buf + [1];
    assert buf == [LITTLE_ENDIAN, 1, 0, 1];
    buf := buf + Le32(|body|);
    buf := buf + Le32(serial);
    buf := buf + Le32(|hdr|);
    buf := buf + hdr;
    buf := buf + body;
  }

  method BuildUnitActionMsg(name: Bytes, unitName: Bytes, mode: Bytes) returns (buf: Bytes)
    ensures buf == ActionMsg(name, unitName, mode)
  {
    var body: Bytes := Le32(|unitName|);
    body := body + unitName;
    body := body + [0];
    body := AppendZerosTo(body, 4);
    AppendString(body, mode);
    body := body + Le32(|mode|);
    body := body + mode;
    body := body + [0];

    var h1 := AppendHeaderField([], 1, SIG_PATH, PATH);
    var h2 := AppendHeaderField(h1, 2, SIG_STRING, IFACE);
    var h3 := AppendHeaderField(h2, 3, SIG_STRING, name);
    var h4 := AppendHeaderField(h3, 6, SIG_STRING, DEST);
    var h5 := AppendSignatureField(h4, Ascii("ss"));
    FourFields(Field(1, SIG_PATH, PATH), Field(2, SIG_STRING, IFACE),
        Field(3, SIG_STRING, name), Field(6, SIG_STRING, DEST));
    PutFieldsAppend([], CallFields(name), Field(8, SIG_SIGNATURE, Ascii("ss")));
    var hdr := AppendZerosTo(h5, 8);

    buf := WriteFrame(2, hdr, body);
  }

  method BuildListUnitsMsg() returns (buf: Bytes)
    ensures buf == ListUnitsMsg()
  {
    var h1 := AppendHeaderField([], 1, SIG_PATH, PATH);
    var h2 := AppendHeaderField(h1, 2, SIG_STRING, IFACE);
    var h3 := AppendHeaderField(h2, 3, SIG_STRING, LIST_UNITS);
    var h4 := AppendHeaderField(h3, 6, SIG_STRING, DEST);
    FourFields(Field(1, SIG_PATH, PATH), Field(2, SIG_STRING, IFACE),
        Field(3, SIG_STRING, LIST_UNITS), Field(6, SIG_STRING, DEST));
    var hdr := AppendZerosTo(h4, 8);

    buf := WriteFrame(1, hdr, []);
  }

  lemma FourFields(f0: Field, f1: Field, f2: Field, f3: Field)
    ensures PutFields([], [f0, f1, f2, f3]) == PutField(PutField(PutField(PutField([], f0), f1), f2), f3)
  {
    PutFieldsAppend([], [], f0);
    PutFieldsAppend([], [f0], f1);
    PutFieldsAppend([], [f0, f1], f2);
    PutFieldsAppend([], [f0, f1, f2], f3);
    assert [] + [f0] == [f0] && [f0] + [f1] == [f0, f1];
    assert [f0, f1] + [f2] == [f0, f1, f2] && [f0, f1, f2] + [f3] == [f0, f1, f2, f3];
  }

  lemma {:induction false} PutFieldsAppend(b: Bytes, fs: seq<Field>, f: Field)
    ensures PutFields(b, fs + [f]) == PutField(PutFields(b, fs), f)
    decreases |fs|
  {
    if fs == [] {
      assert fs + [f] == [f] && [f][1..] == [];
    } else {
      assert (fs + [f])[1..] == fs[1..] + [f];
      PutFieldsAppend(PutField(b, fs[0]), fs[1..], f);
    }
  }
}
