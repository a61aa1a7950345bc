/**
 The D-Bus messages the service manager client writes, as byte sequences, in the terms of the
 D-Bus Specification (sections "Message Format" and "Marshaling (Wire Format)"): little-endian
 words, string and struct alignment, zero padding.
 */
module DbusWire {
  type Byte = b: int | 0 <= b < 256
  type Bytes = seq<Byte>

  const WORD := 0x1_0000_0000

  // ---- words, padding, text ----

  /** `uint32(v)` in little-endian order: a length that does not fit is truncated. */
  function Le32(v: nat): (r: Bytes)
    ensures |r| == 4
  {
    [v % 256, v / 256 % 256, v / 65536 % 256, v / 16777216 % 256]
  }

  /** The value of four bytes, least significant first. */
  function WordOf(b0: int, b1: int, b2: int, b3: int): int {
    b0 + 256 * b1 + 65536 * b2 + 16777216 * b3
  }

  function Read32(b: Bytes, i: nat): nat
    requires i + 4 <= |b|
  {
    WordOf(b[i], b[i + 1], b[i + 2], b[i + 3])
  }

  lemma WordDigits(v: nat)
    ensures WordOf(v % 256, v / 256 % 256, v / 65536 % 256, v / 16777216 % 256) == v % WORD
  {
    var q1, q2, q3, q4 := v / 256, v / 65536, v / 16777216, v / WORD;
    assert q2 == q1 / 256 && q3 == q2 / 256 && q4 == q3 / 256;
  }

  /** `n` is a multiple of `k`, for the two alignments the messages use. */
  predicate Aligned(n: nat, k: nat)
    requires k == 4 || k == 8
  {
    if k == 8 then n % 8 == 0 else n % 4 == 0
  }

  /** The least aligned number from `n` on. */
  function RoundUp(n: nat, k: nat): (r: nat)
    requires k == 4 || k == 8
    ensures n <= r < n + k && Aligned(r, k)
    ensures Aligned(n, k) ==> r == n
  {
    if k == 8 then
      UpToEight(n);
      (n + 7) / 8 * 8
    else
      UpToFour(n);
      (n + 3) / 4 * 4
  }

  lemma UpToEight(n: nat)
    ensures var r := (n + 7) / 8 * 8; n <= r < n + 8 && r % 8 == 0 && (n % 8 == 0 ==> r == n)
  {
  }

  lemma UpToFour(n: nat)
    ensures var r := (n + 3) / 4 * 4; n <= r < n + 4 && r % 4 == 0 && (n % 4 == 0 ==> r == n)
  {
  }

  function Zeros(n: nat): (r: Bytes)
    ensures |r| == n && forall k | 0 <= k < n :: r[k] == 0
  {
    seq(n, _ => 0)
  }

  function PadTo(b: Bytes, k: nat): (r: Bytes)
    requires k == 4 || k == 8
    ensures b <= r && |r| == RoundUp(|b|, k)
  {
    b + Zeros(RoundUp(|b|, k) - |b|)
  }

  function Ascii(s: string): (r: Bytes)
    ensures |r| == |s|
  {
    seq(|s|, i requires 0 <= i < |s| => s[i] as int % 256)
  }

  // ---- encoding ----

  datatype Field = Field(code: Byte, sig: Byte, value: Bytes)

  const SIG_STRING: Byte := 's' as int
  const SIG_PATH: Byte := 'o' as int
  const SIG_SIGNATURE: Byte := 'g' as int
  const LITTLE_ENDIAN: Byte := 'l' as int

  /** A D-Bus string: length word, bytes, NUL. */
  function DbusString(s: Bytes): (r: Bytes)
    ensures |r| == |s| + 5
  {
    Le32(|s|) + s + [0]
  }

  /** The value of a variant. A signature has a one-byte length, the other two types a word. */
  function FieldValue(f: Field): (r: Bytes)
    ensures |r| == |f.value| + if f.sig == SIG_SIGNATURE then 2 else 5
  {
    if f.sig == SIG_SIGNATURE then [|f.value| % 256] + f.value + [0] else DbusString(f.value)
  }

  /** `appendHeaderField` and `appendSignatureField`: a header field struct at the next 8-byte
      offset. */
  function PutField(b: Bytes, f: Field): (r: Bytes)
    ensures PadTo(b, 8) <= r
    ensures |r| == RoundUp(|b|, 8) + 4 + |FieldValue(f)|
  {
    PadTo(b, 8) + ([f.code, 1, f.sig, 0] + FieldValue(f))
  }

  function PutFields(b: Bytes, fs: seq<Field>): (r: Bytes)
    ensures b <= r
    decreases |fs|
  {
    if fs == [] then b else PutFields(PutField(b, fs[0]), fs[1..])
  }

  function Frame(serial: nat, hdr: Bytes, body: Bytes): Bytes {
    [LITTLE_ENDIAN, 1, 0, 1] + Le32(|body|) + Le32(serial) + Le32(|hdr|) + hdr + body
  }

  const DEST := Ascii("org.freedesktop.systemd1")
  const PATH := Ascii("/org/freedesktop/systemd1")
  const IFACE := Ascii("org.freedesktop.systemd1.Manager")
  const LIST_UNITS := Ascii("ListUnits")

  function CallFields(name: Bytes): seq<Field> {
    [Field(1, SIG_PATH, PATH), Field(2, SIG_STRING, IFACE), Field(3, SIG_STRING, name), Field(6, SIG_STRING, DEST)]
  }

  function ActionFields(name: Bytes): seq<Field> {
    CallFields(name) + [Field(8, SIG_SIGNATURE, Ascii("ss"))]
  }

  function ActionBody(unitName: Bytes, mode: Bytes): Bytes {
    PadTo(DbusString(unitName), 4) + DbusString(mode)
  }

  function ActionHeader(name: Bytes): Bytes {
    PadTo(PutFields([], ActionFields(name)), 8)
  }

  function ActionMsg(name: Bytes, unitName: Bytes, mode: Bytes): Bytes {
    Frame(2, ActionHeader(name), ActionBody(unitName, mode))
  }

  function ListUnitsHeader(): Bytes {
    PadTo(PutFields([], CallFields(LIST_UNITS)), 8)
  }

  function ListUnitsMsg(): Bytes {
    Frame(1, ListUnitsHeader(), [])
  }
}
