/**
 The dashboard layout, rows of panels, and what dropping one panel on another does to it.
 */
module PanelLayout {
  import opened Sequences

  type Rows<T> = seq<seq<T>>

  /** Where on the target panel the drop happened. A drop in the middle acts as `Left`. */
  datatype Zone = Left | Right | Top | Bottom

  /** A row without the panel `src`. */
  function Without<T(==)>(row: seq<T>, src: T): seq<T> {
    if row == [] then []
    else
      var front, last := Without(row[..|row| - 1], src), row[|row| - 1];
      if last == src then front else front + [last]
  }

  /** The layout without `src`, and without the row this may have emptied. */
  function Removed<T(==)>(rows: Rows<T>, src: T): Rows<T> {
    if rows == [] then []
    else
      var front, last := Removed(rows[..|rows| - 1], src), Without(rows[|rows| - 1], src);
      if last == [] then front else front + [last]
  }

  function Beside<T(==)>(col: T, src: T, dst: T, zone: Zone): seq<T> {
    if col == dst && zone == Left then [src, col]
    else if col == dst && zone == Right then [col, src]
    else [col]
  }

  function RowInserted<T(==)>(row: seq<T>, src: T, dst: T, zone: Zone): seq<T> {
    if row == [] then [] else RowInserted(row[..|row| - 1], src, dst, zone) + Beside(row[|row| - 1], src, dst, zone)
  }

  function Around<T(==)>(row: seq<T>, src: T, dst: T, zone: Zone): Rows<T> {
    var row' := RowInserted(row, src, dst, zone);
    if dst in row && zone == Top then [[src], row']
    else if dst in row && zone == Bottom then [row', [src]]
    else [row']
  }

  function Inserted<T(==)>(rows: Rows<T>, src: T, dst: T, zone: Zone): Rows<T> {
    if rows == [] then [] else Inserted(rows[..|rows| - 1], src, dst, zone) + Around(rows[|rows| - 1], src, dst, zone)
  }

  /** The panels of a layout in reading order. */
  function Flat<T>(rows: Rows<T>): seq<T> {
    if rows == [] then [] else Flat(rows[..|rows| - 1]) + rows[|rows| - 1]
  }

  /** What a drop does. If `src` is not there at all, only empty rows go. */
  function Dropped<T(==)>(rows: Rows<T>, src: T, dst: T, zone: Zone): Rows<T> {
    if src !in Flat(rows) then Removed(rows, src) else Inserted(Removed(rows, src), src, dst, zone)
  }

  // ---- what a layout has to be ----

  predicate Distinct<T(==)>(s: seq<T>) {
    forall i, j | 0 <= i < j < |s| :: s[i] != s[j]
  }

  /** Every panel once, no empty row. */
  predicate Good<T(==)>(rows: Rows<T>) {
    Distinct(Flat(rows)) && forall r | 0 <= r < |rows| :: rows[r] != []
  }

  // ---- sequences ----

  /** What is distinct as a whole is distinct in its parts, and they share nothing. */
  lemma DistinctParts<T>(a: seq<T>, b: seq<T>)
    ensures Distinct(a + b) <==> Distinct(a) && Distinct(b) && forall x | x in b :: x !in a
  {
    if Distinct(a + b) {
      forall i | 0 <= i < |a| ensures (a + b)[i] == a[i] {}
      forall i | 0 <= i < |b| ensures (a + b)[|a| + i] == b[i] {}
      forall i, j | 0 <= i < |a| && 0 <= j < |b| ensures a[i] != b[j] {
        assert (a + b)[i] != (a + b)[|a| + j];
      }
    } else {
      var i, j :| 0 <= i < j < |a + b| && (a + b)[i] == (a + b)[j];
      if i < |a| <= j {
        assert b[j - |a|] in b && a[i] in a;
      } else if i >= |a| {
        assert b[i - |a|] == b[j - |a|];
      }
    }
  }

  // ---- each operation on a concatenation ----

  lemma {:induction false} WithoutAppend<T>(a: seq<T>, b: seq<T>, src: T)
    ensures Without(a + b, src) == Without(a, src) + Without(b, src)
    decreases |b|
  {
    if b == [] {
      Nothing(a);
      Nothing(Without(a, src));
    } else {
      FrontLast(a, b);
      WithoutAppend(a, b[..|b| - 1], src);
      Assoc(Without(a, src), Without(b[..|b| - 1], src), [b[|b| - 1]]);
    }
  }

  lemma {:induction false} RowInsertedAppend<T>(a: seq<T>, b: seq<T>, src: T, dst: T, zone: Zone)
    ensures RowInserted(a + b, src, dst, zone) == RowInserted(a, src, dst, zone) + RowInserted(b, src, dst, zone)
    decreases |b|
  {
    if b == [] {
      Nothing(a);
      Nothing(RowInserted(a, src, dst, zone));
    } else {
      FrontLast(a, b);
      RowInsertedAppend(a, b[..|b| - 1], src, dst, zone);
      Assoc(RowInserted(a, src, dst, zone), RowInserted(b[..|b| - 1], src, dst, zone), Beside(b[|b| - 1], src, dst, zone));
    }
  }

  lemma {:induction false} InsertedAppend<T>(a: Rows<T>, b: Rows<T>, src: T, dst: T, zone: Zone)
    ensures Inserted(a + b, src, dst, zone) == Inserted(a, src, dst, zone) + Inserted(b, src, dst, zone)
    decreases |b|
  {
    if b == [] {
      Nothing(a);
      Nothing(Inserted(a, src, dst, zone));
    } else {
      FrontLast(a, b);
      InsertedAppend(a, b[..|b| - 1], src, dst, zone);
      Assoc(Inserted(a, src, dst, zone), Inserted(b[..|b| - 1], src, dst, zone), Around(b[|b| - 1], src, dst, zone));
    }
  }

  lemma {:induction false} FlatAppend<T>(a: Rows<T>, b: Rows<T>)
    ensures Flat(a + b) == Flat(a) + Flat(b)
    decreases |b|
  {
    if b == [] {
      Nothing(a);
      Nothing(Flat(a));
    } else {
      FrontLast(a, b);
      FlatAppend(a, b[..|b| - 1]);
      Assoc(Flat(a), Flat(b[..|b| - 1]), b[|b| - 1]);
    }
  }

  lemma FlatOne<T>(row: seq<T>)
    ensures Flat([row]) == row
  {
    Nothing(row);
  }

  // ---- taking a panel out ----

  lemma {:induction false} WithoutNone<T>(row: seq<T>, src: T)
    requires src !in row
    ensures Without(row, src) == row
  {
    if row != [] {
      FrontLast([], row);
      WithoutNone(row[..|row| - 1], src);
    }
  }

  lemma {:induction false} WithoutMembers<T>(row: seq<T>, src: T)
    ensures forall x :: x in Without(row, src) <==> x in row && x != src
  {
    if row != [] {
      var front, last := row[..|row| - 1], row[|row| - 1];
      assert row == front + [last];
      WithoutMembers(front, src);
    }
  }

  lemma WithoutAt<T>(u: seq<T>, v: seq<T>, src: T)
    requires src !in u && src !in v
    ensures Without((u + [src]) + v, src) == u + v
  {
    WithoutAppend(u + [src], v, src);
    WithoutAppend(u, [src], src);
    WithoutNone(u, src);
    WithoutNone(v, src);
    Nothing(u);
  }

  /** The panels before and behind one that occurs once. */
  lemma Split<T>(s: seq<T>, x: T) returns (u: seq<T>, v: seq<T>)
    requires Distinct(s) && x in s
    ensures s == (u + [x]) + v && x !in u && x !in v && Distinct(u + v)
  {
    var i :| 0 <= i < |s| && s[i] == x;
    u, v := s[..i], s[i + 1..];
    Cut(s, i);
    DistinctParts(u + [x], v);
    DistinctParts(u, [x]);
    DistinctParts(u, v);
    assert [x][0] in [x];
    assert forall y | y in v :: y !in u + [x];
  }

  /** Exactly one panel less, if it was there once. */
  lemma WithoutOne<T>(s: seq<T>, src: T)
    requires Distinct(s) && src in s
    ensures multiset(s) == multiset(Without(s, src)) + multiset{src}
    ensures Distinct(Without(s, src))
  {
    var u, v := Split(s, src);
    WithoutAt(u, v, src);
    assert multiset((u + [src]) + v) == multiset(u + v) + multiset{src};
  }

  lemma {:induction false} RemovedFlat<T>(rows: Rows<T>, src: T)
    ensures Flat(Removed(rows, src)) == Without(Flat(rows), src)
    ensures forall r | 0 <= r < |Removed(rows, src)| :: Removed(rows, src)[r] != []
  {
    if rows != [] {
      var front, last := rows[..|rows| - 1], rows[|rows| - 1];
      RemovedFlat(front, src);
      WithoutAppend(Flat(front), last, src);
      var f, l := Removed(front, src), Without(last, src);
      FlatAppend(f, [l]);
      FlatOne(l);
      Nothing(Flat(f));
    }
  }

  // ---- putting it back ----

  lemma {:induction false} RowInsertedNone<T>(row: seq<T>, src: T, dst: T, zone: Zone)
    requires dst !in row
    ensures RowInserted(row, src, dst, zone) == row
  {
    if row != [] {
      RowInsertedNone(row[..|row| - 1], src, dst, zone);
      assert row == row[..|row| - 1] + [row[|row| - 1]];
    }
  }

  lemma AroundNone<T>(row: seq<T>, src: T, dst: T, zone: Zone)
    requires dst !in row
    ensures Around(row, src, dst, zone) == [row]
  {
    RowInsertedNone(row, src, dst, zone);
  }

  lemma {:induction false} InsertedNone<T>(rows: Rows<T>, src: T, dst: T, zone: Zone)
    requires dst !in Flat(rows)
    ensures Inserted(rows, src, dst, zone) == rows
  {
    if rows != [] {
      InsertedNone(rows[..|rows| - 1], src, dst, zone);
      AroundNone(rows[|rows| - 1], src, dst, zone);
      TakeNext(rows, |rows| - 1);
      TakeAll(rows);
    }
  }

  /** The row of the target: the panel goes directly beside it, or the row stays as it is. */
  lemma RowInsertedAt<T>(u: seq<T>, v: seq<T>, src: T, dst: T, zone: Zone)
    requires dst !in u && dst !in v
    ensures RowInserted((u + [dst]) + v, src, dst, zone) == (u + Beside(dst, src, dst, zone)) + v
  {
    RowInsertedAppend(u + [dst], v, src, dst, zone);
    RowInsertedAppend(u, [dst], src, dst, zone);
    RowInsertedNone(u, src, dst, zone);
    RowInsertedNone(v, src, dst, zone);
    Nothing(Beside(dst, src, dst, zone));
  }

  /** The rows around the target's row stay as they are. */
  lemma InsertedAt<T>(above: Rows<T>, row: seq<T>, below: Rows<T>, src: T, dst: T, zone: Zone)
    requires dst !in Flat(above) && dst !in Flat(below)
    ensures Inserted((above + [row]) + below, src, dst, zone) == (above + Around(row, src, dst, zone)) + below
  {
    InsertedAppend(above + [row], below, src, dst, zone);
    InsertedAppend(above, [row], src, dst, zone);
    InsertedNone(above, src, dst, zone);
    InsertedNone(below, src, dst, zone);
    Nothing(Around(row, src, dst, zone));
  }

  lemma {:induction false} RowOf<T>(rows: Rows<T>, x: T) returns (r: nat)
    requires x in Flat(rows)
    ensures r < |rows| && x in rows[r]
  {
    if x in rows[|rows| - 1] {
      r := |rows| - 1;
    } else {
      r := RowOf(rows[..|rows| - 1], x);
    }
  }

  // ---- the drop ----

  /** The row of the target after the drop, and the row the panel may get for itself. */
  function Landing<T>(u: seq<T>, v: seq<T>, src: T, dst: T, zone: Zone): Rows<T> {
    match zone
    case Left => [(u + [src, dst]) + v]
    case Right => [(u + [dst, src]) + v]
    case Top => [[src], (u + [dst]) + v]
    case Bottom => [(u + [dst]) + v, [src]]
  }

  lemma AroundLands<T>(u: seq<T>, v: seq<T>, src: T, dst: T, zone: Zone)
    requires dst !in u && dst !in v
    ensures Around((u + [dst]) + v, src, dst, zone) == Landing(u, v, src, dst, zone)
  {
    RowInsertedAt(u, v, src, dst, zone);
    assert ((u + [dst]) + v)[|u|] == dst;
  }

  /** The panel lands directly beside, above or below the target, as the zone says, and apart
      from its own removal every row and every place in a row stays as it was. */
  lemma DropLands<T>(rows: Rows<T>, src: T, dst: T, zone: Zone)
    returns (above: Rows<T>, u: seq<T>, v: seq<T>, below: Rows<T>)
    requires Good(rows) && src in Flat(rows) && dst in Flat(rows) && src != dst
    ensures Removed(rows, src) == (above + [(u + [dst]) + v]) + below
    ensures Dropped(rows, src, dst, zone) == (above + Landing(u, v, src, dst, zone)) + below
  {
    var l := Removed(rows, src);
    RemovedFlat(rows, src);
    WithoutMembers(Flat(rows), src);
    WithoutOne(Flat(rows), src);
    var r := RowOf(l, dst);
    above, below := l[..r], l[r + 1..];
    Cut(l, r);
    RowApart(above, l[r], below);
    u, v := Split(l[r], dst);
    AroundLands(u, v, src, dst, zone);
    InsertedAt(above, l[r], below, src, dst, zone);
  }

  lemma RowApart<T>(above: Rows<T>, row: seq<T>, below: Rows<T>)
    requires Distinct(Flat((above + [row]) + below))
    ensures Distinct(row) && forall x | x in row :: x !in Flat(above) && x !in Flat(below)
    ensures Flat((above + [row]) + below) == (Flat(above) + row) + Flat(below)
  {
    FlatAppend(above + [row], below);
    FlatAppend(above, [row]);
    FlatOne(row);
    DistinctParts(Flat(above) + row, Flat(below));
    DistinctParts(Flat(above), row);
    assert forall x | x in row :: x in Flat(above) + row;
  }

  /** The landing puts the one panel somewhere between the others. */
  lemma LandingFlat<T>(u: seq<T>, v: seq<T>, src: T, dst: T, zone: Zone) returns (p: seq<T>, q: seq<T>)
    ensures p + q == (u + [dst]) + v && Flat(Landing(u, v, src, dst, zone)) == (p + [src]) + q
    ensures forall r | 0 <= r < |Landing(u, v, src, dst, zone)| :: Landing(u, v, src, dst, zone)[r] != []
  {
    var row := (u + [dst]) + v;
    match zone
    case Left =>
      p, q := u, [dst] + v;
      FlatOne((u + [src, dst]) + v);
      assert (u + [src, dst]) + v == (p + [src]) + q;
    case Right =>
      p, q := u + [dst], v;
      FlatOne((u + [dst, src]) + v);
      assert (u + [dst, src]) + v == (p + [src]) + q;
    case Top =>
      p, q := [], row;
      FlatAppend([[src]], [row]);
      FlatOne([src]);
      FlatOne(row);
      assert [[src], row] == [[src]] + [row];
    case Bottom =>
      p, q := row, [];
      FlatAppend([row], [[src]]);
      FlatOne([src]);
      FlatOne(row);
      assert [row, [src]] == [row] + [[src]];
      Nothing(row);
  }

  lemma Regroup<T>(a: seq<T>, p: seq<T>, x: seq<T>, q: seq<T>, b: seq<T>)
    ensures (a + ((p + x) + q)) + b == ((a + p) + x) + (q + b)
    ensures (a + (p + q)) + b == (a + p) + (q + b)
  {
  }

  /** Conservation: a drop keeps every panel exactly once and no row empty, and leaves the order
      of the other panels as it is. */
  lemma DropConserves<T>(rows: Rows<T>, src: T, dst: T, zone: Zone)
    requires Good(rows) && src in Flat(rows) && dst in Flat(rows) && src != dst
    ensures Good(Dropped(rows, src, dst, zone))
    ensures multiset(Flat(Dropped(rows, src, dst, zone))) == multiset(Flat(rows))
    ensures Without(Flat(Dropped(rows, src, dst, zone)), src) == Without(Flat(rows), src)
  {
    var above, u, v, below := DropLands(rows, src, dst, zone);
    var p, q := LandingFlat(u, v, src, dst, zone);
    RemovedFlat(rows, src);
    WithoutOne(Flat(rows), src);
    WithoutMembers(Flat(rows), src);
    RowApart(above, (u + [dst]) + v, below);
    var land := Landing(u, v, src, dst, zone);
    FlatAppend(above + land, below);
    FlatAppend(above, land);
    Regroup(Flat(above), p, [src], q, Flat(below));
    var front, back := Flat(above) + p, q + Flat(below);
    assert Flat(Dropped(rows, src, dst, zone)) == (front + [src]) + back;
    assert front + back == Without(Flat(rows), src);
    PutIn(front, src, back);
    RowsFull(rows, src, above, (u + [dst]) + v, below, land);
  }

  lemma PutIn<T>(front: seq<T>, x: T, back: seq<T>)
    requires Distinct(front + back) && x !in front + back
    ensures Distinct((front + [x]) + back) && Without((front + [x]) + back, x) == front + back
    ensures multiset((front + [x]) + back) == multiset(front + back) + multiset{x}
  {
    assert forall y | y in front :: y in front + back;
    assert forall y | y in back :: y in front + back;
    WithoutAt(front, back, x);
    DistinctParts(front, back);
    DistinctParts(front, [x]);
    DistinctParts(front + [x], back);
  }

  lemma RowsFull<T>(rows: Rows<T>, src: T, above: Rows<T>, row: seq<T>, below: Rows<T>, land: Rows<T>)
    requires Removed(rows, src) == (above + [row]) + below && forall r | 0 <= r < |land| :: land[r] != []
    ensures forall r | 0 <= r < |(above + land) + below| :: ((above + land) + below)[r] != []
  {
    RemovedFlat(rows, src);
    var l := Removed(rows, src);
    assert forall r | 0 <= r < |above| :: above[r] == l[r];
    assert forall r | 0 <= r < |below| :: below[r] == l[|above| + 1 + r];
  }

  // ---- the loops ----

  /** The first loop of `handleDrop`: the layout without `src`, and whether it was there. */
  method RemovePanel<T(==)>(rows: Rows<T>, src: T) returns (newRows: Rows<T>, found: bool)
    ensures newRows == Removed(rows, src) && found == (src in Flat(rows))
  {
    newRows, found := [], false;
    for i := 0 to |rows|
      invariant newRows == Removed(rows[..i], src) && found == (src in Flat(rows[..i]))
    {
      var row, newRow := rows[i], [];
      for j := 0 to |row|
        invariant newRow == Without(row[..j], src) && found == (src in Flat(rows[..i]) || src in row[..j])
      {
        if row[j] == src {
          found := true;
        } else {
          newRow := newRow + [row[j]];
        }
        assert row[..j + 1][..j] == row[..j];
      }
      TakeAll(row);
      TakeNext(rows, i);
      if |newRow| > 0 {
        newRows := newRows + [newRow];
      }
    }
    TakeAll(rows);
  }

  /** The inner loop of the second part: the new row, and whether the target stands in it. */
  method InsertIntoRow<T(==)>(row: seq<T>, src: T, dst: T, zone: Zone) returns (newRow: seq<T>, rowMatched: bool)
    ensures newRow == RowInserted(row, src, dst, zone) && rowMatched == (dst in row)
  {
    newRow, rowMatched := [], false;
    for j := 0 to |row|
      invariant newRow == RowInserted(row[..j], src, dst, zone) && rowMatched == (dst in row[..j])
    {
      TakeNext(row, j);
      if row[j] == dst {
        rowMatched := true;
        newRow := newRow + match zone case Left => [src, row[j]] case Right => [row[j], src] case _ => [row[j]];
      } else {
        newRow := newRow + [row[j]];
      }
    }
    TakeAll(row);
  }

  /** The second loop: `src` goes into the layout next to `dst`. */
  method InsertPanel<T(==)>(rows: Rows<T>, src: T, dst: T, zone: Zone) returns (newRows: Rows<T>)
    ensures newRows == Inserted(rows, src, dst, zone)
  {
    newRows := [];
    for i := 0 to |rows|
      invariant newRows == Inserted(rows[..i], src, dst, zone)
    {
      var newRow, rowMatched := InsertIntoRow(rows[i], src, dst, zone);
      TakeNext(rows, i);
      if rowMatched && zone == Top {
        newRows := newRows + [[src], newRow];
      } else if rowMatched && zone == Bottom {
        newRows := newRows + [newRow, [src]];
      } else {
        newRows := newRows + [newRow];
      }
    }
    TakeAll(rows);
  }

  // ---- any number of drops ----

  datatype Drop<T> = Drop(src: T, dst: T, zone: Zone)

  function AfterDrops<T(==)>(rows: Rows<T>, drops: seq<Drop<T>>): Rows<T> {
    if drops == [] then rows
    else
      var before, d := AfterDrops(rows, drops[..|drops| - 1]), drops[|drops| - 1];
      Dropped(before, d.src, d.dst, d.zone)
  }

  /** After any number of drops of panels on other panels every panel is there exactly once, and
      no row is empty, so that the width can be divided by the number of panels in a row. */
  lemma {:induction false} DropsConserve<T>(rows: Rows<T>, drops: seq<Drop<T>>)
    requires Good(rows)
    requires forall k | 0 <= k < |drops| :: drops[k].src in Flat(rows) && drops[k].dst in Flat(rows) && drops[k].src != drops[k].dst
    ensures Good(AfterDrops(rows, drops)) && multiset(Flat(AfterDrops(rows, drops))) == multiset(Flat(rows))
  {
    if drops != [] {
      var front, d := drops[..|drops| - 1], drops[|drops| - 1];
      DropsConserve(rows, front);
      assert d.src in multiset(Flat(AfterDrops(rows, front))) && d.dst in multiset(Flat(AfterDrops(rows, front)));
      DropConserves(AfterDrops(rows, front), d.src, d.dst, d.zone);
    }
  }
}
