/**
 Marshalling a reply and parsing it again: what the grouping returns, and exactly when that is
 one record for each unit of a known kind.
 */
module DbusRoundTrip {
  import opened Sequences
  import opened DbusWire
  import opened DbusScan
  import opened DbusLayout
  import opened DbusReply
  import opened DbusEnvelope

  lemma {:induction false} SeenAllIsAll(ss: seq<Bytes>)
    requires forall s | s in ss :: Collectable(s)
    ensures SeenAll(ss) == ss
  {
    if ss != [] {
      assert ss[0] in ss && forall s | s in ss[1..] :: s in ss;
      SeenAllIsAll(ss[1..]);
    }
  }

  /** Printable strings of 3 to 512 characters, marshalled one after the other, are recovered
      exactly: the scan never fires on padding or inside a length word. */
  lemma StringsRoundTrip(ss: seq<Bytes>)
    requires forall s | s in ss :: Collectable(s)
    ensures Scan(PadTo(PutStrings([], ss), 4)) == ss
  {
    var b := PutStrings([], ss);
    PutStringsGrow([], ss);
    PadGrows(b, 4);
    GrowsThen([], b, PadTo(b, 4), SeenAll(ss), []);
    SeenAllIsAll(ss);
    assert ss + [] == ss;
    GrownScans(PadTo(b, 4), ss);
  }

  // ---- what the strings of a unit are ----

  /** The five strings that make the record of a unit are all ones the scan keeps. */
  predicate Complete(u: UnitStruct) {
    && Collectable(u.name) && Collectable(u.description) && Collectable(u.load)
    && Collectable(u.active) && Collectable(u.sub)
  }

  lemma SeenOne(s: Bytes, ss: seq<Bytes>)
    requires Collectable(s)
    ensures SeenAll([s] + ss) == [s] + SeenAll(ss)
  {
    assert ([s] + ss)[1..] == ss;
  }

  lemma SeenFive(a: Bytes, b: Bytes, c: Bytes, d: Bytes, e: Bytes, ss: seq<Bytes>)
    requires Collectable(a) && Collectable(b) && Collectable(c) && Collectable(d) && Collectable(e)
    ensures SeenAll([a, b, c, d, e] + ss) == [a, b, c, d, e] + SeenAll(ss)
  {
    SeenOne(e, ss);
    SeenOne(d, [e] + ss);
    SeenOne(c, [d] + ([e] + ss));
    SeenOne(b, [c] + ([d] + ([e] + ss)));
    SeenOne(a, [b] + ([c] + ([d] + ([e] + ss))));
    assert [a] + ([b] + ([c] + ([d] + ([e] + ss)))) == [a, b, c, d, e] + ss;
    assert [a] + ([b] + ([c] + ([d] + ([e] + SeenAll(ss))))) == [a, b, c, d, e] + SeenAll(ss);
  }

  /** The strings of a complete unit behind the five of its record. */
  function OtherTexts(u: UnitStruct): seq<Bytes> {
    SeenAll([u.following, u.path]) + JobTexts(u.job)
  }

  lemma CompleteTexts(u: UnitStruct)
    requires Complete(u)
    ensures UnitTexts(u) == [u.name, u.description, u.load, u.active, u.sub] + OtherTexts(u)
  {
    var five, last := [u.name, u.description, u.load, u.active, u.sub], [u.following, u.path];
    SeenFive(u.name, u.description, u.load, u.active, u.sub, last);
    assert five + last == HeadStrings(u);
    Assoc(five, SeenAll(last), JobTexts(u.job));
  }

  lemma {:induction false} SeenCollectable(ss: seq<Bytes>)
    ensures forall s | s in SeenAll(ss) :: Collectable(s)
  {
    if ss != [] {
      SeenCollectable(ss[1..]);
    }
  }

  lemma {:induction false} AllCollectable(us: seq<UnitStruct>)
    requires forall u | u in us :: UnitOk(u)
    ensures forall s | s in AllTexts(us) :: Collectable(s)
  {
    if us != [] {
      assert us[0] in us && forall u | u in us[1..] :: u in us;
      AllCollectable(us[1..]);
      SeenCollectable(HeadStrings(us[0]));
    }
  }

  lemma {:induction false} HeaderCollectable(fs: seq<ReplyField>)
    ensures forall s | s in HeaderTexts(fs) :: Collectable(s)
  {
    if fs != [] {
      HeaderCollectable(fs[1..]);
    }
  }

  // ---- grouping ----

  /** The units the parser is for: those of the seven kinds. */
  function Known(us: seq<UnitStruct>): seq<UnitStruct> {
    if us == [] then [] else (if IsUnitName(us[0].name) then [us[0]] else []) + Known(us[1..])
  }

  function Record(u: UnitStruct): UnitInfo {
    UnitInfo(u.name, u.description, u.load, u.active, u.sub)
  }

  function Records(us: seq<UnitStruct>): (r: seq<UnitInfo>)
    ensures |r| == |us| && forall i | 0 <= i < |us| :: r[i] == Record(us[i])
  {
    seq(|us|, i requires 0 <= i < |us| => Record(us[i]))
  }

  /** None of the strings from `a` up to `b` would start a record. */
  predicate NoneStarts(names: seq<Bytes>, a: nat, b: nat)
    requires b <= |names|
  {
    forall j | a <= j < b && j + 4 < |names| :: !IsUnitName(names[j])
  }

  /** Apart from the names of known units, no string that is followed by four more ends in a
      unit suffix. */
  predicate OnlyNamesStart(names: seq<Bytes>, at: nat, us: seq<UnitStruct>)
    requires at + |AllTexts(us)| == |names|
    decreases |us|
  {
    us == [] ||
    (var next := at + |UnitTexts(us[0])|;
     NoneStarts(names, if IsUnitName(us[0].name) then at + 1 else at, next) && OnlyNamesStart(names, next, us[1..]))
  }

  lemma {:induction false} GroupSkips(names: seq<Bytes>, a: nat, b: nat)
    requires a <= b <= |names| && forall k | 0 <= k < |names| :: names[k] != []
    ensures NoneStarts(names, a, b) ==> GroupFrom(names, a) == GroupFrom(names, b)
    ensures !NoneStarts(names, a, b) ==> |GroupFrom(names, a)| > |GroupFrom(names, b)|
    ensures |GroupFrom(names, a)| >= |GroupFrom(names, b)|
    decreases b - a
  {
    if a < b {
      GroupSkips(names, a + 1, b);
    }
  }

  /** One more entry on both sides; nothing in between, or too much. */
  lemma OneMoreRecord<T>(x: T, found: seq<T>, rest: seq<T>, records: seq<T>, none: bool)
    requires if none then found == rest else |found| > |rest|
    requires |rest| >= |records|
    ensures [x] + found == [x] + records <==> none && rest == records
  {
    assert ([x] + found)[1..] == found && ([x] + records)[1..] == records;
  }

  lemma OnlyNamesFirst(names: seq<Bytes>, at: nat, us: seq<UnitStruct>)
    requires us != [] && at + |AllTexts(us)| == |names|
    ensures var next, known := at + |UnitTexts(us[0])|, IsUnitName(us[0].name);
            && next + |AllTexts(us[1..])| == |names|
            && (OnlyNamesStart(names, at, us) <==>
                  NoneStarts(names, if known then at + 1 else at, next) && OnlyNamesStart(names, next, us[1..]))
            && Records(Known(us)) == (if known then [Record(us[0])] else []) + Records(Known(us[1..]))
  {
  }

  /** At the name of a complete unit the next record starts. */
  lemma GroupFirst(names: seq<Bytes>, at: nat, u: UnitStruct, rest: seq<Bytes>)
    requires at <= |names| && names[at..] == UnitTexts(u) + rest
    requires IsUnitName(u.name) && Complete(u)
    ensures at + 5 <= at + |UnitTexts(u)| <= |names|
    ensures GroupFrom(names, at) == [Record(u)] + GroupFrom(names, at + 1)
  {
    var tail := names[at..];
    CompleteTexts(u);
    assert names[at] == tail[0] && names[at + 1] == tail[1] && names[at + 2] == tail[2];
    assert names[at + 3] == tail[3] && names[at + 4] == tail[4];
  }

  /** With every known unit complete, grouping returns exactly the records of the known units when
      no other string starts one, and otherwise returns more entries than there are such units. */
  lemma {:induction false} GroupRecordsIff(names: seq<Bytes>, at: nat, us: seq<UnitStruct>)
    requires at <= |names| && names[at..] == AllTexts(us)
    requires forall k | 0 <= k < |names| :: names[k] != []
    requires forall k | 0 <= k < |us| :: IsUnitName(us[k].name) ==> Complete(us[k])
    ensures GroupFrom(names, at) == Records(Known(us)) <==> OnlyNamesStart(names, at, us)
    ensures |GroupFrom(names, at)| >= |Known(us)|
    decreases |us|
  {
    if us == [] {
      assert |names[at..]| == 0;
    } else {
      var next := at + |UnitTexts(us[0])|;
      assert names[next..] == names[at..][|UnitTexts(us[0])|..] == AllTexts(us[1..]);
      GroupRecordsIff(names, next, us[1..]);
      GroupRecordsStep(names, at, us);
    }
  }

  /** The step, when it holds behind the first unit. */
  lemma GroupRecordsStep(names: seq<Bytes>, at: nat, us: seq<UnitStruct>)
    requires us != [] && at <= |names| && names[at..] == AllTexts(us)
    requires forall k | 0 <= k < |names| :: names[k] != []
    requires IsUnitName(us[0].name) ==> Complete(us[0])
    requires var next := at + |UnitTexts(us[0])|;
             && next + |AllTexts(us[1..])| == |names|
             && (GroupFrom(names, next) == Records(Known(us[1..])) <==> OnlyNamesStart(names, next, us[1..]))
             && |GroupFrom(names, next)| >= |Known(us[1..])|
    ensures GroupFrom(names, at) == Records(Known(us)) <==> OnlyNamesStart(names, at, us)
    ensures |GroupFrom(names, at)| >= |Known(us)|
  {
    OnlyNamesFirst(names, at, us);
    GroupUnit(names, at, us);
  }

  /** One unit: its own record if it is of a known kind, and nothing else if nothing else starts. */
  lemma GroupUnit(names: seq<Bytes>, at: nat, us: seq<UnitStruct>)
    requires us != [] && at <= |names| && names[at..] == AllTexts(us)
    requires forall k | 0 <= k < |names| :: names[k] != []
    requires IsUnitName(us[0].name) ==> Complete(us[0])
    requires |GroupFrom(names, at + |UnitTexts(us[0])|)| >= |Known(us[1..])|
    ensures var next, known := at + |UnitTexts(us[0])|, IsUnitName(us[0].name);
            var records := (if known then [Record(us[0])] else []) + Records(Known(us[1..]));
            && (GroupFrom(names, at) == records <==>
                  NoneStarts(names, if known then at + 1 else at, next) && GroupFrom(names, next) == Records(Known(us[1..])))
            && |GroupFrom(names, at)| >= |records|
  {
    var next, rest := at + |UnitTexts(us[0])|, Records(Known(us[1..]));
    if IsUnitName(us[0].name) {
      GroupFirst(names, at, us[0], AllTexts(us[1..]));
      GroupSkips(names, at + 1, next);
      OneMoreRecord(Record(us[0]), GroupFrom(names, at + 1), GroupFrom(names, next), rest, NoneStarts(names, at + 1, next));
    } else {
      GroupSkips(names, at, next);
      Nothing(rest);
    }
  }

  /** Only strings the scan found get into a record. */
  lemma {:induction false} GroupsCollectable(names: seq<Bytes>, j: nat, e: UnitInfo)
    requires forall s | s in names :: Collectable(s)
    requires e in GroupFrom(names, j)
    ensures Collectable(e.name) && Collectable(e.description) && Collectable(e.loadState)
    ensures Collectable(e.activeState) && Collectable(e.subState)
    decreases |names| - j
  {
    if e in GroupFrom(names, j + 1) {
      GroupsCollectable(names, j + 1, e);
    } else {
      assert names[j] in names && names[j + 1] in names && names[j + 2] in names;
      assert names[j + 3] in names && names[j + 4] in names;
    }
  }

  lemma {:induction false} KnownMember(us: seq<UnitStruct>, u: UnitStruct)
    requires u in us && IsUnitName(u.name)
    ensures u in Known(us)
  {
    if u != us[0] {
      KnownMember(us[1..], u);
    }
  }

  /** A unit with a string that the scan passes over never gets its record. */
  lemma IncompleteMissing(names: seq<Bytes>, u: UnitStruct)
    requires (forall s | s in names :: Collectable(s)) && !Complete(u)
    ensures Record(u) !in GroupFrom(names, 0)
  {
    if Record(u) in GroupFrom(names, 0) {
      GroupsCollectable(names, 0, Record(u));
    }
  }

  lemma RecordMember(us: seq<UnitStruct>, u: UnitStruct)
    requires u in us && IsUnitName(u.name)
    ensures Record(u) in Records(Known(us))
  {
    KnownMember(us, u);
    var i :| 0 <= i < |Known(us)| && Known(us)[i] == u;
    assert Records(Known(us))[i] == Record(u);
  }

  /** When the parser is right: the five strings of each known unit are printable and 3 to 512
      characters long, and no string of the message in record position ends in a unit suffix but
      the names of the known units. */
  predicate ReadsRight(h: ReplyHeader, us: seq<UnitStruct>) {
    var names := HeaderTexts(h.fields) + AllTexts(us);
    && (forall u | u in us && IsUnitName(u.name) :: Complete(u))
    && NoneStarts(names, 0, |HeaderTexts(h.fields)|)
    && OnlyNamesStart(names, |HeaderTexts(h.fields)|, us)
  }

  /** The whole parser on a whole message: for every header and every list of units whose strings
      are those of a message (of any kind of unit, with or without queued jobs, in any script, with
      control characters, of any length, but see `EndsAsLength`), the parser returns exactly one record for each unit of a known kind if
      and only if `ReadsRight` holds. */
  lemma ReplyRoundTripIff(h: ReplyHeader, us: seq<UnitStruct>)
    requires ReplyFits(h, us)
    ensures Extract(Envelope(h, Reply(us))) == Records(Known(us)) <==> ReadsRight(h, us)
  {
    MessageScan(h, us);
    AllCollectable(us);
    HeaderCollectable(h.fields);
    GroupMessageIff(HeaderTexts(h.fields), us);
  }

  /** Grouping the strings of a message, those in front of the units included. */
  lemma GroupMessageIff(front: seq<Bytes>, us: seq<UnitStruct>)
    requires forall s | s in front || s in AllTexts(us) :: Collectable(s)
    ensures var names := front + AllTexts(us);
            GroupFrom(names, 0) == Records(Known(us)) <==>
              && (forall u | u in us && IsUnitName(u.name) :: Complete(u))
              && NoneStarts(names, 0, |front|) && OnlyNamesStart(names, |front|, us)
  {
    var names := front + AllTexts(us);
    if u :| u in us && IsUnitName(u.name) && !Complete(u) {
      IncompleteMissing(names, u);
      RecordMember(us, u);
    } else {
      assert forall k | 0 <= k < |names| :: names[k] in names;
      assert forall k | 0 <= k < |us| :: us[k] in us;
      assert names[|front|..] == AllTexts(us);
      GroupRecordsIff(names, |front|, us);
      GroupSkips(names, 0, |front|);
    }
  }
}
