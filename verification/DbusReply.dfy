/**
 The ListUnits reply the parser is written for: an array of unit structs, marshalled with the
 alignment rules of the D-Bus Specification (section "Marshaling (Wire Format)"), as a layout
 for the heuristic scan.
 */
module DbusReply {
  import opened Options
  import opened Sequences
  import opened DbusWire
  import opened DbusLayout

  /** A queued job of a unit: its id, its type such as "start", and its object path. */
  datatype JobInfo = JobInfo(id: nat, kind: Bytes, path: Bytes)

  /** One struct of the reply. `following` is empty for almost every unit. */
  datatype UnitStruct = UnitStruct(name: Bytes, description: Bytes, load: Bytes, active: Bytes, sub: Bytes,
                                   following: Bytes, path: Bytes, job: Option<JobInfo>)

  function PutString(b: Bytes, s: Bytes): (r: Bytes)
    ensures b <= r
  {
    PadTo(b, 4) + DbusString(s)
  }

  function PutStrings(b: Bytes, ss: seq<Bytes>): (r: Bytes)
    ensures b <= r
    decreases |ss|
  {
    if ss == [] then b else PutStrings(PutString(b, ss[0]), ss[1..])
  }

  /** The job id word, the job type and the job path ("/" without a job). */
  function PutJob(b: Bytes, job: Option<JobInfo>): Bytes {
    match job
    case None => PutStrings(PadTo(b, 4) + Le32(0), [[], [47]])
    case Some(j) => PutStrings(PadTo(b, 4) + Le32(j.id), [j.kind, j.path])
  }

  function HeadStrings(u: UnitStruct): seq<Bytes> {
    [u.name, u.description, u.load, u.active, u.sub, u.following, u.path]
  }

  /** A struct at the next 8-byte offset: seven strings and the job. */
  function PutUnit(b: Bytes, u: UnitStruct): Bytes {
    PutJob(PutStrings(PadTo(b, 8), HeadStrings(u)), u.job)
  }

  function PutUnits(b: Bytes, us: seq<UnitStruct>): Bytes
    decreases |us|
  {
    if us == [] then b else PutUnits(PutUnit(b, us[0]), us[1..])
  }

  /** A reply body whose array length word is `n`: the word, padding to the first struct, the
      structs. */
  function ReplyWithLength(n: nat, us: seq<UnitStruct>): Bytes {
    PutUnits(Le32(n) + Zeros(4), us)
  }

  /** The marshalled body: the array length counts the bytes behind the padding. */
  function Reply(us: seq<UnitStruct>): Bytes
  {
    var size := |ReplyWithLength(0, us)|;
    ReplyWithLength(if size < 8 then 0 else size - 8, us)
  }

  // ---- a reply as a layout ----

  function ZeroItems(n: nat): (r: seq<Item>)
    ensures |r| == n && forall k | 0 <= k < n :: r[k] == Zero
  {
    seq(n, _ => Zero)
  }

  lemma {:induction false} ZerosLayout(n: nat)
    ensures Layout(ZeroItems(n)) == Zeros(n)
    ensures Texts(ZeroItems(n)) == []
  {
    if n > 0 {
      assert ZeroItems(n)[1..] == ZeroItems(n - 1);
      ZerosLayout(n - 1);
      assert [0] + Zeros(n - 1) == Zeros(n);
    }
  }

  lemma {:induction false} LayoutAppend(a: seq<Item>, b: seq<Item>)
    ensures Layout(a + b) == Layout(a) + Layout(b)
    ensures Texts(a + b) == Texts(a) + Texts(b)
  {
    if a == [] {
      assert a + b == b;
    } else {
      assert (a + b)[1..] == a[1..] + b;
      LayoutAppend(a[1..], b);
      Assoc(ItemBytes(a[0]), Layout(a[1..]), Layout(b));
      Assoc(ItemTexts(a[0]), Texts(a[1..]), Texts(b));
    }
  }

  lemma OneItem(it: Item)
    ensures Layout([it]) == ItemBytes(it)
    ensures Texts([it]) == ItemTexts(it)
  {
    assert [it][1..] == [];
    assert ItemBytes(it) + [] == ItemBytes(it);
  }

  /** `r` is `b` with a layout appended that holds the strings `texts`. */
  ghost predicate Grows(b: Bytes, r: Bytes, texts: seq<Bytes>) {
    exists items :: AllOk(items) && r == b + Layout(items) && Texts(items) == texts
  }

  lemma GrowsBy(b: Bytes, r: Bytes, items: seq<Item>)
    requires AllOk(items) && r == b + Layout(items)
    ensures Grows(b, r, Texts(items))
  {
  }

  lemma GrowsNothing(b: Bytes)
    ensures Grows(b, b, [])
  {
    assert b + Layout([]) == b;
    GrowsBy(b, b, []);
  }

  lemma GrowsThen(b: Bytes, c: Bytes, d: Bytes, t1: seq<Bytes>, t2: seq<Bytes>)
    requires Grows(b, c, t1) && Grows(c, d, t2)
    ensures Grows(b, d, t1 + t2)
  {
    var i1 :| AllOk(i1) && c == b + Layout(i1) && Texts(i1) == t1;
    var i2 :| AllOk(i2) && d == c + Layout(i2) && Texts(i2) == t2;
    LayoutAppend(i1, i2);
    Assoc(b, Layout(i1), Layout(i2));
    assert d == b + Layout(i1 + i2);
    GrowsBy(b, d, i1 + i2);
  }

  lemma ZerosGrow(b: Bytes, n: nat)
    ensures Grows(b, b + Zeros(n), [])
  {
    ZerosLayout(n);
    GrowsBy(b, b + Zeros(n), ZeroItems(n));
  }

  lemma PadGrows(b: Bytes, k: nat)
    requires k == 4 || k == 8
    ensures Grows(b, PadTo(b, k), [])
  {
    ZerosGrow(b, RoundUp(|b|, k) - |b|);
  }

  lemma EmptyString()
    ensures Le32(0) == Zeros(4) && DbusString([]) == Zeros(5)
  {
  }

  lemma StringGrows(b: Bytes, s: Bytes)
    requires Plain(s)
    ensures Grows(b, b + DbusString(s), Seen(s))
  {
    if s == [] {
      EmptyString();
      ZerosGrow(b, 5);
    } else {
      OneItem(Text(s));
      GrowsBy(b, b + DbusString(s), [Text(s)]);
    }
  }

  lemma PutStringGrows(b: Bytes, s: Bytes)
    requires Plain(s)
    ensures Grows(b, PutString(b, s), Seen(s))
  {
    PadGrows(b, 4);
    StringGrows(PadTo(b, 4), s);
    GrowsThen(b, PadTo(b, 4), PutString(b, s), [], Seen(s));
    assert [] + Seen(s) == Seen(s);
  }

  function SeenAll(ss: seq<Bytes>): seq<Bytes> {
    if ss == [] then [] else Seen(ss[0]) + SeenAll(ss[1..])
  }

  lemma {:induction false} PutStringsGrow(b: Bytes, ss: seq<Bytes>)
    requires forall s | s in ss :: Plain(s)
    ensures Grows(b, PutStrings(b, ss), SeenAll(ss))
    decreases |ss|
  {
    if ss == [] {
      GrowsNothing(b);
    } else {
      assert ss[0] in ss && forall s | s in ss[1..] :: s in ss;
      PutStringGrows(b, ss[0]);
      PutStringsGrow(PutString(b, ss[0]), ss[1..]);
      GrowsThen(b, PutString(b, ss[0]), PutStrings(b, ss), Seen(ss[0]), SeenAll(ss[1..]));
    }
  }

  // ---- one struct ----

  predicate JobOk(job: Option<JobInfo>) {
    job.Some? ==> Collectable(job.value.kind) && |job.value.kind| < 256 && Plain(job.value.path)
  }

  /** No string of the struct has control characters; a job type is a short word. */
  predicate UnitOk(u: UnitStruct) {
    (forall s | s in HeadStrings(u) :: Plain(s)) && JobOk(u.job)
  }

  function JobTexts(job: Option<JobInfo>): seq<Bytes> {
    match job case None => [] case Some(j) => [j.kind] + Seen(j.path)
  }

  /** The strings of a struct that the scan should see. */
  function UnitTexts(u: UnitStruct): seq<Bytes> {
    SeenAll(HeadStrings(u)) + JobTexts(u.job)
  }

  lemma NoJobGrows(b: Bytes)
    ensures Grows(b, PutStrings(PadTo(b, 4) + Le32(0), [[], [47]]), [])
  {
    var w := PadTo(b, 4) + Le32(0);
    EmptyString();
    PadGrows(b, 4);
    ZerosGrow(PadTo(b, 4), 4);
    GrowsThen(b, PadTo(b, 4), w, [], []);
    PutStringsGrow(w, [[], [47]]);
    assert [[], [47]][1..] == [[47]] && [[47]][1..] == [];
    assert SeenAll([[], [47]]) == [];
    GrowsThen(b, w, PutStrings(w, [[], [47]]), [], []);
  }

  /** The job id and the job type behind it. */
  lemma JobKindGrows(b: Bytes, job: JobInfo)
    requires Collectable(job.kind) && |job.kind| < 256
    ensures Grows(b, (PadTo(b, 4) + Le32(job.id)) + DbusString(job.kind), [job.kind])
  {
    var p := PadTo(b, 4);
    PadGrows(b, 4);
    Assoc(p, Le32(job.id), DbusString(job.kind));
    OneItem(Job(job.id, job.kind));
    GrowsBy(p, p + Layout([Job(job.id, job.kind)]), [Job(job.id, job.kind)]);
    GrowsThen(b, p, p + Layout([Job(job.id, job.kind)]), [], [job.kind]);
    Nothing([job.kind]);
  }

  lemma TwoStrings(b: Bytes, first: Bytes, second: Bytes)
    ensures PutStrings(b, [first, second]) == PutString(PutString(b, first), second)
  {
    var c := PutString(b, first);
    assert [first, second][1..] == [second] && [second][1..] == [];
    assert PutStrings(b, [first, second]) == PutStrings(c, [second]) == PutStrings(PutString(c, second), []);
  }

  /** Behind a word no padding comes before the next string. */
  lemma StringBehindWord(w: Bytes, s: Bytes)
    requires Aligned(|w|, 4)
    ensures PutString(w, s) == w + DbusString(s)
  {
    Nothing(w);
    assert PadTo(w, 4) == w;
  }

  lemma JobGrows(b: Bytes, job: JobInfo)
    requires Collectable(job.kind) && |job.kind| < 256 && Plain(job.path)
    ensures Grows(b, PutStrings(PadTo(b, 4) + Le32(job.id), [job.kind, job.path]), [job.kind] + Seen(job.path))
  {
    var w := PadTo(b, 4) + Le32(job.id);
    var k := w + DbusString(job.kind);
    JobKindGrows(b, job);
    TwoStrings(w, job.kind, job.path);
    StringBehindWord(w, job.kind);
    PutStringGrows(k, job.path);
    GrowsThen(b, k, PutString(k, job.path), [job.kind], Seen(job.path));
  }

  lemma PutJobGrows(b: Bytes, job: Option<JobInfo>)
    requires JobOk(job)
    ensures Grows(b, PutJob(b, job), JobTexts(job))
  {
    match job
    case None => NoJobGrows(b);
    case Some(j) => JobGrows(b, j);
  }

  lemma PutHeadGrows(b: Bytes, u: UnitStruct)
    requires UnitOk(u)
    ensures Grows(b, PutStrings(PadTo(b, 8), HeadStrings(u)), SeenAll(HeadStrings(u)))
  {
    var ss := HeadStrings(u);
    PadGrows(b, 8);
    PutStringsGrow(PadTo(b, 8), ss);
    GrowsThen(b, PadTo(b, 8), PutStrings(PadTo(b, 8), ss), [], SeenAll(ss));
    assert [] + SeenAll(ss) == SeenAll(ss);
  }

  lemma PutUnitGrows(b: Bytes, u: UnitStruct)
    requires UnitOk(u)
    ensures Grows(b, PutUnit(b, u), UnitTexts(u))
  {
    var head := PutStrings(PadTo(b, 8), HeadStrings(u));
    PutHeadGrows(b, u);
    PutJobGrows(head, u.job);
    GrowsThen(b, head, PutUnit(b, u), SeenAll(HeadStrings(u)), JobTexts(u.job));
  }

  // ---- the whole body ----

  function AllTexts(us: seq<UnitStruct>): seq<Bytes> {
    if us == [] then [] else UnitTexts(us[0]) + AllTexts(us[1..])
  }

  lemma {:induction false} PutUnitsGrow(b: Bytes, us: seq<UnitStruct>)
    requires forall u | u in us :: UnitOk(u)
    ensures Grows(b, PutUnits(b, us), AllTexts(us))
    decreases |us|
  {
    if us == [] {
      GrowsNothing(b);
    } else {
      assert us[0] in us && forall u | u in us[1..] :: u in us;
      PutUnitGrows(b, us[0]);
      PutUnitsGrow(PutUnit(b, us[0]), us[1..]);
      GrowsThen(b, PutUnit(b, us[0]), PutUnits(b, us), UnitTexts(us[0]), AllTexts(us[1..]));
    }
  }

  lemma CountGrows(n: nat)
    ensures Grows([], Le32(n) + Zeros(4), [])
  {
    OneItem(Count(n));
    assert [] + Layout([Count(n)]) == Le32(n) + Zeros(4);
    GrowsBy([], Le32(n) + Zeros(4), [Count(n)]);
  }

  /** A body is a layout of the strings of its units, whatever the array length word is. */
  lemma ReplyGrows(n: nat, us: seq<UnitStruct>)
    requires forall u | u in us :: UnitOk(u)
    ensures Grows([], ReplyWithLength(n, us), AllTexts(us))
  {
    CountGrows(n);
    PutUnitsGrow(Le32(n) + Zeros(4), us);
    GrowsThen([], Le32(n) + Zeros(4), ReplyWithLength(n, us), [], AllTexts(us));
    assert [] + AllTexts(us) == AllTexts(us);
  }
}
