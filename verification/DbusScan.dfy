/**
 The heuristic reply parser: it tries a length prefix at every byte offset, keeps what looks
 like a printable string, and groups the strings into unit records.
 */
module DbusScan {
  import opened Sequences
  import opened DbusWire

  datatype UnitInfo = UnitInfo(name: Bytes, description: Bytes, loadState: Bytes, activeState: Bytes, subState: Bytes)

  predicate Printable(c: Byte) { 32 <= c <= 126 }

  predicate AllPrintable(s: Bytes) {
    forall k | 0 <= k < |s| :: Printable(s[k])
  }

  /** A length word at `i` is taken for the start of a string. */
  predicate Fires(data: Bytes, i: nat)
    requires i + 4 < |data|
  {
    var n := Read32(data, i);
    && 3 <= n <= 512
    && i + 4 + n < |data| && data[i + 4 + n] == 0
    && AllPrintable(data[i + 4..i + 4 + n])
  }

  /** The strings the scan collects from offset `i` on. */
  function ScanFrom(data: Bytes, i: nat): seq<Bytes>
    decreases |data| - i
  {
    if i + 4 >= |data| then []
    else if Fires(data, i) then
      var n := Read32(data, i);
      [data[i + 4..i + 4 + n]] + ScanFrom(data, i + 5 + n)
    else ScanFrom(data, i + 1)
  }

  function Scan(data: Bytes): seq<Bytes> { ScanFrom(data, 0) }

  predicate HasSuffix(s: Bytes, suffix: Bytes) {
    |suffix| <= |s| && s[|s| - |suffix|..] == suffix
  }

  const UNIT_SUFFIXES := [Ascii(".service"), Ascii(".socket"), Ascii(".timer"), Ascii(".mount"),
                          Ascii(".target"), Ascii(".slice"), Ascii(".scope")]

  predicate IsUnitName(s: Bytes) {
    exists k | 0 <= k < |UNIT_SUFFIXES| :: HasSuffix(s, UNIT_SUFFIXES[k])
  }

  /** The records grouped from the strings at index `j` on. */
  function GroupFrom(names: seq<Bytes>, j: nat): seq<UnitInfo>
    decreases |names| - j
  {
    if j + 4 >= |names| then []
    else
      (if IsUnitName(names[j]) && names[j + 2] != [] && names[j + 3] != []
       then [UnitInfo(names[j], names[j + 1], names[j + 2], names[j + 3], names[j + 4])] else [])
      + GroupFrom(names, j + 1)
  }

  function Extract(data: Bytes): seq<UnitInfo> { GroupFrom(Scan(data), 0) }

  // ---- the loops ----

  method CheckPrintable(s: Bytes) returns (printable: bool)
    ensures printable == AllPrintable(s)
  {
    printable := true;
    for k := 0 to |s|
      invariant printable && forall m | 0 <= m < k :: Printable(s[m])
    {
      if s[k] < 32 || s[k] > 126 {
        return false;
      }
    }
  }

  /** The three tests the scan makes at one offset. */
  method LooksLikeString(data: Bytes, i: nat) returns (ok: bool)
    requires i + 4 < |data|
    ensures ok == Fires(data, i)
  {
    var length := Read32(data, i);
    if length <= 0 || length > 512 || i + 4 + length >= |data| || data[i + 4 + length] != 0 {
      return false;
    }
    var s := data[i + 4..i + 4 + length];
    var printable := CheckPrintable(s);
    return printable && |s| >= 3;
  }

  method CollectStrings(data: Bytes) returns (names: seq<Bytes>)
    ensures names == Scan(data)
  {
    names := [];
    var i := 0;
    while i < |data| - 4
      invariant i >= 0
      invariant names + ScanFrom(data, i) == Scan(data)
      decreases |data| - i
    {
      var ok := LooksLikeString(data, i);
      if !ok {
        i := i + 1;
        continue;
      }
      var length := Read32(data, i);
      var s := data[i + 4..i + 4 + length];
      Assoc(names, [s], ScanFrom(data, i + 5 + length));
      names := names + [s];
      i := i + 4 + length + 1;
    }
  }

  method CheckUnitName(n: Bytes) returns (isUnit: bool)
    ensures isUnit == IsUnitName(n)
  {
    isUnit := false;
    for k := 0 to |UNIT_SUFFIXES|
      invariant isUnit <==> exists m | 0 <= m < k :: HasSuffix(n, UNIT_SUFFIXES[m])
    {
      isUnit := isUnit || HasSuffix(n, UNIT_SUFFIXES[k]);
    }
  }

  method ExtractUnitsFromBytes(data: Bytes) returns (units: seq<UnitInfo>)
    ensures units == Extract(data)
  {
    var names := CollectStrings(data);
    units := [];
    var j := 0;
    while j + 4 < |names|
      invariant j >= 0
      invariant units + GroupFrom(names, j) == GroupFrom(names, 0)
    {
      var n := names[j];
      var isUnit := CheckUnitName(n);
      var load, active := names[j + 2], names[j + 3];
      if isUnit && load != [] && active != [] {
        var unit := UnitInfo(n, names[j + 1], load, active, names[j + 4]);
        Assoc(units, [unit], GroupFrom(names, j + 1));
        units := units + [unit];
      } else {
        assert [] + GroupFrom(names, j + 1) == GroupFrom(names, j + 1);
      }
      j := j + 1;
    }
    assert units + [] == units;
  }

  // ---- scanning from an offset is scanning the rest ----

  lemma FiresDrop(t: Bytes, i: nat, k: nat)
    requires i + k + 4 < |t|
    ensures Read32(t[k..], i) == Read32(t, i + k)
    ensures Fires(t[k..], i) == Fires(t, i + k)
    ensures Fires(t, i + k) ==>
      var n := Read32(t, i + k); t[k..][i + 4..i + 4 + n] == t[i + k + 4..i + k + 4 + n]
  {
    var u, n := t[k..], Read32(t, i + k);
    assert u[i] == t[i + k] && u[i + 1] == t[i + k + 1] && u[i + 2] == t[i + k + 2] && u[i + 3] == t[i + k + 3];
    if i + 4 + n < |u| {
      assert u[i + 4..i + 4 + n] == t[i + k + 4..i + k + 4 + n];
      assert u[i + 4 + n] == t[i + k + 4 + n];
    }
  }

  lemma ScanDropFires(t: Bytes, i: nat, k: nat)
    requires i + k + 4 < |t| && Fires(t, i + k)
    requires ScanFrom(t, i + k + 5 + Read32(t, i + k)) == ScanFrom(t[k..], i + 5 + Read32(t, i + k))
    ensures ScanFrom(t, i + k) == ScanFrom(t[k..], i)
  {
    FiresDrop(t, i, k);
  }

  lemma ScanDropQuiet(t: Bytes, i: nat, k: nat)
    requires i + k + 4 < |t| && !Fires(t, i + k) && ScanFrom(t, i + k + 1) == ScanFrom(t[k..], i + 1)
    ensures ScanFrom(t, i + k) == ScanFrom(t[k..], i)
  {
    FiresDrop(t, i, k);
  }

  /** The scans agree at `i` if they agree behind it. */
  lemma ScanDropStep(t: Bytes, i: nat, k: nat)
    requires i + k <= |t|
    requires forall j: nat | i < j && j + k <= |t| :: ScanFrom(t, j + k) == ScanFrom(t[k..], j)
    ensures ScanFrom(t, i + k) == ScanFrom(t[k..], i)
  {
    if i + k + 4 < |t| {
      if Fires(t, i + k) {
        ScanDropFires(t, i, k);
      } else {
        ScanDropQuiet(t, i, k);
      }
    }
  }

  lemma {:induction false} ScanDrop(t: Bytes, i: nat, k: nat)
    requires i + k <= |t|
    ensures ScanFrom(t, i + k) == ScanFrom(t[k..], i)
    decreases |t| - i
  {
    forall j: nat | i < j && j + k <= |t| ensures ScanFrom(t, j + k) == ScanFrom(t[k..], j) {
      ScanDrop(t, j, k);
    }
    ScanDropStep(t, i, k);
  }
}
