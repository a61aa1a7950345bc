/**
 The dashboard as the mouse sees it: panels drawn in rows, the rectangle recorded for each, and
 dragging one onto another.
 */
module Dashboard {
  import opened Options
  import opened Sequences
  import opened PanelLayout

  datatype Panel = SysInfo | Cpu | Memory | Disk | Network

  datatype PanelBounds = PanelBounds(id: Panel, x: int, y: int, w: nat, h: nat)

  /** The size of the drawn panels: the natural height of a panel at a width, the width it takes
      at a width and height, and whether nothing is drawn for it. */
  datatype Render = Render(height: (Panel, int) -> nat, width: (Panel, int, int) -> nat, blank: (Panel, int, int) -> bool)

  // ---- the rectangles ----

  /** Division truncating towards zero. */
  function Quotient(a: int, n: nat): int
    requires n > 0
  {
    if a >= 0 then a / n else -(-a / n)
  }

  function TargetWidth(width: int, row: seq<Panel>): int
    requires row != []
  {
    var t := Quotient(width - 2, |row|);
    if t < 20 then 20 else t
  }

  function MaxHeight(row: seq<Panel>, t: int, r: Render): nat {
    if row == [] then 0
    else
      var m, h := MaxHeight(row[..|row| - 1], t, r), r.height(row[|row| - 1], t);
      if h > m then h else m
  }

  /** The columns the panels of a row take. */
  function RowWidth(row: seq<Panel>, t: int, h: int, r: Render): nat {
    if row == [] then 0
    else
      var front, id := RowWidth(row[..|row| - 1], t, h, r), row[|row| - 1];
      if r.blank(id, t, h) then front else front + r.width(id, t, h)
  }

  function RowBoxes(row: seq<Panel>, y: int, t: int, h: nat, r: Render): map<Panel, PanelBounds> {
    if row == [] then map[]
    else
      var front, id := row[..|row| - 1], row[|row| - 1];
      var m := RowBoxes(front, y, t, h, r);
      if r.blank(id, t, h) then m else m[id := PanelBounds(id, RowWidth(front, t, h, r), y, r.width(id, t, h), h)]
  }

  /** The height a row takes. */
  function RowHeight(row: seq<Panel>, width: int, r: Render): nat {
    if row == [] then 0 else MaxHeight(row, TargetWidth(width, row), r)
  }

  function RowsHeight(rows: Rows<Panel>, width: int, r: Render): nat {
    if rows == [] then 0 else RowsHeight(rows[..|rows| - 1], width, r) + RowHeight(rows[|rows| - 1], width, r)
  }

  /** The boxes of a row whose first line is `y`. */
  function BoxesOf(row: seq<Panel>, y: int, width: int, r: Render): map<Panel, PanelBounds> {
    if row == [] then map[] else RowBoxes(row, y, TargetWidth(width, row), RowHeight(row, width, r), r)
  }

  /** The rectangles that `View` records when the first line is at `top`. */
  function Boxes(rows: Rows<Panel>, top: int, width: int, r: Render): map<Panel, PanelBounds> {
    if rows == [] then map[]
    else
      var front, row := rows[..|rows| - 1], rows[|rows| - 1];
      Boxes(front, top, width, r) + BoxesOf(row, top + RowsHeight(front, width, r), width, r)
  }

  /** The rectangles recorded with the scroll offset at `offset`; the tab bar takes two lines. */
  ghost predicate Recorded(bounds: map<Panel, PanelBounds>, rows: Rows<Panel>, offset: int, width: int, r: Render) {
    bounds == Boxes(rows, 2 - offset, width, r)
  }

  // ---- no two rectangles overlap ----

  predicate Apart(a: PanelBounds, b: PanelBounds) {
    a.x + a.w <= b.x || b.x + b.w <= a.x || a.y + a.h <= b.y || b.y + b.h <= a.y
  }

  ghost predicate AllApart(m: map<Panel, PanelBounds>) {
    forall i, j | i in m && j in m && i != j :: Apart(m[i], m[j])
  }

  predicate Hits(b: PanelBounds, x: int, y: int) {
    x >= b.x && x < b.x + b.w && y >= b.y && y < b.y + b.h
  }

  lemma {:induction false} RowBoxesApart(row: seq<Panel>, y: int, t: int, h: nat, r: Render)
    ensures var m := RowBoxes(row, y, t, h, r);
            && AllApart(m)
            && forall id | id in m :: id in row && m[id].y == y && m[id].h == h && m[id].x + m[id].w <= RowWidth(row, t, h, r)
  {
    if row != [] {
      RowBoxesApart(row[..|row| - 1], y, t, h, r);
    }
  }

  /** Whatever the sizes of the panels, their rectangles are pairwise disjoint. */
  lemma {:induction false} BoxesApart(rows: Rows<Panel>, top: int, width: int, r: Render)
    ensures var m := Boxes(rows, top, width, r);
            && AllApart(m)
            && forall id | id in m :: id in Flat(rows) && m[id].y + m[id].h <= top + RowsHeight(rows, width, r)
  {
    if rows != [] {
      var front, row := rows[..|rows| - 1], rows[|rows| - 1];
      BoxesApart(front, top, width, r);
      if row != [] {
        RowBoxesApart(row, top + RowsHeight(front, width, r), TargetWidth(width, row), RowHeight(row, width, r), r);
      }
    }
  }

  /** The same rectangles, `down` lines further down. */
  ghost predicate Shifted(a: map<Panel, PanelBounds>, b: map<Panel, PanelBounds>, down: int) {
    (forall id :: id in a <==> id in b) && forall id | id in a :: b[id] == a[id].(y := a[id].y + down)
  }

  lemma {:induction false} RowBoxesShift(row: seq<Panel>, y: int, z: int, t: int, h: nat, r: Render)
    ensures Shifted(RowBoxes(row, y, t, h, r), RowBoxes(row, z, t, h, r), z - y)
  {
    if row != [] {
      RowBoxesShift(row[..|row| - 1], y, z, t, h, r);
    }
  }

  lemma {:induction false} BoxesShift(rows: Rows<Panel>, y: int, z: int, width: int, r: Render)
    ensures Shifted(Boxes(rows, y, width, r), Boxes(rows, z, width, r), z - y)
  {
    if rows != [] {
      var front, row := rows[..|rows| - 1], rows[|rows| - 1];
      BoxesShift(front, y, z, width, r);
      if row != [] {
        RowBoxesShift(row, y + RowsHeight(front, width, r), z + RowsHeight(front, width, r),
            TargetWidth(width, row), RowHeight(row, width, r), r);
      }
    }
  }

  // ---- scrolling ----

  /** The scroll offset after `View`: kept within the content, if there is room for any. */
  function ClampOffset(offset: int, lines: nat, height: int): int {
    var room := height - 4;
    if room <= 0 then offset
    else
      var maxScroll := if lines - room < 0 then 0 else lines - room;
      if offset > maxScroll then maxScroll else if offset < 0 then 0 else offset
  }

  /** The first line that `View` shows. In a window too low for any it shows them all. */
  function FirstShown(offset: int, lines: nat, height: int): int {
    if height - 4 <= 0 then 0 else ClampOffset(offset, lines, height)
  }

  /** `View` places the rectangles by the offset it finds, before it clamps it. They lie over the
      panels as shown exactly when that offset is within the content already, and, in a window
      too low for scrolling, only when it is zero. */
  lemma BoxesMatchScreenIff(rows: Rows<Panel>, width: int, r: Render, offset: int, lines: nat, height: int)
    requires Boxes(rows, 0, width, r) != map[]
    ensures Boxes(rows, 2 - offset, width, r) == Boxes(rows, 2 - FirstShown(offset, lines, height), width, r)
            <==> 0 <= offset <= (if height - 4 <= 0 || lines < height - 4 then 0 else lines - (height - 4))
  {
    var a, b := 2 - offset, 2 - FirstShown(offset, lines, height);
    var id := SomeKey(Boxes(rows, 0, width, r));
    BoxesShift(rows, 0, a, width, r);
    BoxesShift(rows, a, b, width, r);
    assert Boxes(rows, b, width, r)[id].y == Boxes(rows, a, width, r)[id].y - a + b;
  }

  /** A scroll key. The offset it leaves is brought back only by the next `View`. */
  datatype ScrollKey = LineUp | LineDown | PageUp | PageDown | Home

  function Scrolled(offset: int, key: ScrollKey, height: int): int {
    match key
    case LineUp => offset - 1
    case LineDown => offset + 1
    case PageUp => offset - Quotient(height, 2)
    case PageDown => offset + Quotient(height, 2)
    case Home => 0
  }

  /** One line up at the top of the content: the next `View` shows what it showed before, with every
      rectangle one line too low, whatever the layout, the panels, the window and the content. */
  lemma UpAtTopMisplaces(rows: Rows<Panel>, width: int, r: Render, lines: nat, height: int)
    ensures var offset := Scrolled(0, LineUp, height);
            && FirstShown(offset, lines, height) == FirstShown(0, lines, height) == 0
            && Shifted(Boxes(rows, 2, width, r), Boxes(rows, 2 - offset, width, r), 1)
  {
    BoxesShift(rows, 2, 3, width, r);
  }

  lemma SomeKey<T, U>(m: map<T, U>) returns (k: T)
    requires m != map[]
    ensures k in m
  {
    k :| k in m;
  }

  // ---- the dashboard ----

  const PANELS := [SysInfo, Cpu, Memory, Disk, Network]

  /** Where on a panel a drop is: the outer quarters, or the middle, which acts as `Left`. */
  function ZoneAt(b: PanelBounds, x: int, y: int): Zone {
    var relX, relY := x - b.x, y - b.y;
    if relX < b.w / 4 then Left
    else if relX > b.w * 3 / 4 then Right
    else if relY < b.h / 4 then Top
    else if relY > b.h * 3 / 4 then Bottom
    else Left
  }

  class Dashboard {
    var width: int
    var height: int
    var layout: Rows<Panel>
    var bounds: map<Panel, PanelBounds>
    var dragTarget: Option<Panel>
    var scrollOffset: int

    /** Every panel stands in the layout once and no row is empty; the recorded rectangles are
        those of panels and do not overlap. */
    ghost predicate Valid()
      reads this
    {
      Good(layout) && multiset(Flat(layout)) == multiset(PANELS) && AllApart(bounds)
    }

    constructor ()
      ensures Valid() && layout == DEFAULT && bounds == map[] && dragTarget == None
    {
      layout := DEFAULT;
      bounds := map[];
      dragTarget := None;
      width, height, scrollOffset := 0, 0, 0;
      new;
      DefaultGood();
    }

    /** The panel at a point. The loop visits the rectangles in any order, but only one of them
        can be hit. */
    method FindPanelAt(x: int, y: int) returns (found: Option<Panel>)
      requires AllApart(bounds)
      ensures found == None ==> forall id | id in bounds :: !Hits(bounds[id], x, y)
      ensures found.Some? ==> found.value in bounds && forall id | id in bounds :: Hits(bounds[id], x, y) <==> id == found.value
    {
      var todo := bounds.Keys;
      while todo != {}
        invariant todo <= bounds.Keys
        invariant forall id | id in bounds && id !in todo :: !Hits(bounds[id], x, y)
        decreases |todo|
      {
        var id :| id in todo;
        if Hits(bounds[id], x, y) {
          return Some(id);
        }
        todo := todo - {id};
      }
      return None;
    }

    method HandleDrop(src: Panel, dst: Panel, x: int, y: int)
      requires Valid() && src != dst
      modifies this`layout
      ensures Valid()
      ensures layout == if dst in bounds then Dropped(old(layout), src, dst, ZoneAt(bounds[dst], x, y)) else old(layout)
    {
      if dst in bounds {
        var zone := ZoneAt(bounds[dst], x, y);
        EveryPanel(layout, src);
        EveryPanel(layout, dst);
        DropConserves(layout, src, dst, zone);
        var rows, found := RemovePanel(layout, src);
        if found {
          rows := InsertPanel(rows, src, dst, zone);
        }
        layout := rows;
      }
    }

    method ScrollBy(key: ScrollKey)
      requires Valid()
      modifies this`scrollOffset
      ensures Valid() && scrollOffset == Scrolled(old(scrollOffset), key, height)
    {
      match key
      case LineUp => scrollOffset := scrollOffset - 1;
      case LineDown => scrollOffset := scrollOffset + 1;
      case PageUp => scrollOffset := scrollOffset - Quotient(height, 2);
      case PageDown => scrollOffset := scrollOffset + Quotient(height, 2);
      case Home => scrollOffset := 0;
    }

    /** The left button goes down. */
    method Press(x: int, y: int)
      requires Valid()
      modifies this`dragTarget
      ensures forall id | id in bounds && Hits(bounds[id], x, y) :: dragTarget == Some(id)
      ensures (forall id | id in bounds :: !Hits(bounds[id], x, y)) ==> dragTarget == old(dragTarget)
    {
      var id := FindPanelAt(x, y);
      if id.Some? {
        dragTarget := id;
      }
    }

    /** The left button comes up: a drop, if a panel is dragged and another one is below. */
    method Release(x: int, y: int)
      requires Valid()
      modifies this`dragTarget, this`layout
      ensures Valid() && dragTarget == None
      ensures forall id | old(dragTarget).Some? && id in bounds && Hits(bounds[id], x, y) && id != old(dragTarget).value ::
                layout == Dropped(old(layout), old(dragTarget).value, id, ZoneAt(bounds[id], x, y))
      ensures (forall id | id in bounds && Hits(bounds[id], x, y) :: old(dragTarget) == Some(id)) || old(dragTarget) == None ==>
                layout == old(layout)
    {
      if dragTarget.Some? {
        var dropTarget := FindPanelAt(x, y);
        if dropTarget.Some? && dropTarget != dragTarget {
          HandleDrop(dragTarget.value, dropTarget.value, x, y);
        }
        dragTarget := None;
      }
    }

    /** Drawing: records the rectangles, then brings the offset back within the content and shows
        the lines from `first` up to `last`. */
    method View(r: Render, lines: nat) returns (first: int, last: int)
      requires Valid()
      modifies this`bounds, this`scrollOffset
      ensures Valid()
      ensures if width == 0 then bounds == old(bounds) && scrollOffset == old(scrollOffset)
              else Recorded(bounds, layout, old(scrollOffset), width, r) && scrollOffset == ClampOffset(old(scrollOffset), lines, height)
      ensures width != 0 ==> first == FirstShown(old(scrollOffset), lines, height)
      ensures width != 0 && height > 4 ==> 0 <= first <= last <= lines && last - first == if lines < height - 4 then lines else height - 4
    {
      first, last := 0, lines;
      if width != 0 {
        Place(r);
        first, last := Scroll(lines);
      }
    }

    /** The first part of `View`: every panel's rectangle is recorded. */
    method Place(r: Render)
      requires Valid()
      modifies this`bounds
      ensures Valid() && Recorded(bounds, layout, scrollOffset, width, r)
    {
      var rows, top, w := layout, 2 - scrollOffset, width;
      var boxes := PlaceRows(rows, top, w, r);
      BoxesApart(rows, top, w, r);
      assert AllApart(boxes) && Recorded(boxes, rows, scrollOffset, w, r);
      bounds := boxes;
    }

    /** The end of `View`: the offset is clamped and the visible lines are cut out. */
    method Scroll(lines: nat) returns (first: int, last: int)
      modifies this`scrollOffset
      ensures scrollOffset == ClampOffset(old(scrollOffset), lines, height)
      ensures first == FirstShown(old(scrollOffset), lines, height)
      ensures height > 4 ==> 0 <= first <= last <= lines && last - first == if lines < height - 4 then lines else height - 4
    {
      first, last := 0, lines;
      var viewHeight := height - 4;
      if viewHeight <= 0 {
        return;
      }
      var maxScroll := lines - viewHeight;
      if maxScroll < 0 {
        maxScroll := 0;
      }
      if scrollOffset > maxScroll {
        scrollOffset := maxScroll;
      }
      if scrollOffset < 0 {
        scrollOffset := 0;
      }
      first, last := scrollOffset, scrollOffset + viewHeight;
      if last > lines {
        last := lines;
      }
    }
  }

  /** All five panels are in the layout. */
  lemma EveryPanel(rows: Rows<Panel>, id: Panel)
    requires multiset(Flat(rows)) == multiset(PANELS)
    ensures id in Flat(rows)
  {
    assert id in PANELS by {
      assert PANELS[0] == SysInfo && PANELS[1] == Cpu && PANELS[2] == Memory && PANELS[3] == Disk && PANELS[4] == Network;
    }
    assert id in multiset(PANELS);
    assert id in multiset(Flat(rows));
  }

  const DEFAULT: Rows<Panel> := [[SysInfo], [Cpu], [Memory], [Disk], [Network]]

  lemma DefaultGood()
    ensures Flat(DEFAULT) == PANELS && Good(DEFAULT)
  {
    FlatNext(DEFAULT, 0);
    FlatNext(DEFAULT, 1);
    FlatNext(DEFAULT, 2);
    FlatNext(DEFAULT, 3);
    FlatNext(DEFAULT, 4);
    TakeAll(DEFAULT);
  }

  lemma FlatNext(rows: Rows<Panel>, i: nat)
    requires i < |rows|
    ensures Flat(rows[..i + 1]) == Flat(rows[..i]) + rows[i]
  {
    TakeNext(rows, i);
  }

  /** The loop of `View` over the rows. */
  method PlaceRows(rows: Rows<Panel>, top: int, width: int, r: Render) returns (bounds: map<Panel, PanelBounds>)
    requires forall i | 0 <= i < |rows| :: rows[i] != []
    ensures bounds == Boxes(rows, top, width, r)
  {
    bounds := map[];
    var currentY := top;
    for i := 0 to |rows|
      invariant bounds == Boxes(rows[..i], top, width, r) && currentY == top + RowsHeight(rows[..i], width, r)
    {
      var targetWidth := TargetWidth(width, rows[i]);
      var maxH := RowMax(rows[i], targetWidth, r);
      bounds := PlaceRow(bounds, rows[i], currentY, targetWidth, maxH, r);
      TakeNext(rows, i);
      currentY := currentY + maxH;
    }
    TakeAll(rows);
  }

  /** The first pass over a row: the height of its tallest panel. */
  method RowMax(row: seq<Panel>, t: int, r: Render) returns (maxH: nat)
    ensures maxH == MaxHeight(row, t, r)
  {
    maxH := 0;
    for j := 0 to |row|
      invariant maxH == MaxHeight(row[..j], t, r)
    {
      TakeNext(row, j);
      var h := r.height(row[j], t);
      if h > maxH {
        maxH := h;
      }
    }
    TakeAll(row);
  }

  /** The second pass: each panel stands to the right of the one before. */
  method PlaceRow(before: map<Panel, PanelBounds>, row: seq<Panel>, y: int, t: int, h: nat, r: Render)
    returns (bounds: map<Panel, PanelBounds>)
    ensures bounds == before + RowBoxes(row, y, t, h, r)
  {
    bounds := before;
    var currentX := 0;
    for j := 0 to |row|
      invariant bounds == before + RowBoxes(row[..j], y, t, h, r) && currentX == RowWidth(row[..j], t, h, r)
    {
      TakeNext(row, j);
      if !r.blank(row[j], t, h) {
        var w := r.width(row[j], t, h);
        bounds := bounds[row[j] := PanelBounds(row[j], currentX, y, w, h)];
        currentX := currentX + w;
      }
    }
    TakeAll(row);
  }
}
