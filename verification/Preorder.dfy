/**
 The order in which a process tree is listed: a process, then its children in ascending PID,
 each followed by its own subtree.
 */
module Preorder {
  import opened Options
  import opened Ancestry

  predicate Ascending(s: seq<int>) {
    forall i, j | 0 <= i < j < |s| :: s[i] < s[j]
  }

  /** `all` lists the PIDs of `t` in ascending order. */
  ghost predicate Census(t: Table, all: seq<int>) {
    && Ascending(all)
    && (forall i | 0 <= i < |all| :: all[i] in t)
    && (forall p | p in t :: p in all)
  }

  function Insert(s: seq<int>, x: int): seq<int> {
    if s == [] || x < s[0] then [x] + s
    else if x == s[0] then s
    else [s[0]] + Insert(s[1..], x)
  }

  /** The PIDs of a list, sorted. */
  function SortedPids(procs: seq<Proc>): seq<int> {
    if procs == [] then []
    else Insert(SortedPids(procs[..|procs| - 1]), procs[|procs| - 1].pid)
  }

  lemma {:induction false} InsertSorted(s: seq<int>, x: int)
    requires Ascending(s)
    ensures Ascending(Insert(s, x))
    ensures forall y :: y in Insert(s, x) <==> y == x || y in s
    ensures s != [] && s[0] < x ==> Insert(s, x)[0] == s[0]
  {
    if s != [] && s[0] < x {
      InsertSorted(s[1..], x);
      var r := Insert(s[1..], x);
      forall i | 0 <= i < |r| ensures s[0] < r[i] {
        assert r[i] in r;
        if r[i] != x {
          assert r[i] in s[1..];
        }
      }
    }
  }

  lemma {:induction false} SortedPidsCensus(procs: seq<Proc>)
    ensures Census(TableOf(procs), SortedPids(procs))
  {
    if procs != [] {
      var front, x := procs[..|procs| - 1], procs[|procs| - 1].pid;
      SortedPidsCensus(front);
      InsertSorted(SortedPids(front), x);
      var all := SortedPids(procs);
      forall i | 0 <= i < |all| ensures all[i] in TableOf(procs) {
        assert all[i] in all;
      }
    }
  }

  /** Ascending lists with the same members are equal. */
  lemma {:induction false} AscendingUnique(a: seq<int>, b: seq<int>)
    requires Ascending(a) && Ascending(b)
    requires forall x | x in a :: x in b
    requires forall x | x in b :: x in a
    ensures a == b
  {
    assert b != [] ==> b[0] in b;
    if a != [] {
      assert a[0] in a && a[0] in b;
      assert b[0] in b && b[0] in a;
      assert a[0] == b[0];
      forall x | x in a[1..] ensures x in b[1..] {
        assert x in a && x in b && x != a[0];
      }
      forall x | x in b[1..] ensures x in a[1..] {
        assert x in b && x in a && x != b[0];
      }
      AscendingUnique(a[1..], b[1..]);
    }
  }

  // ---- siblings ----

  /** The members of `all` with parent `par`, in order; `None` gives the roots. */
  function Siblings(t: Table, all: seq<int>, par: Option<int>): seq<int> {
    if all == [] then []
    else (if Parent(t, all[0]) == par then [all[0]] else []) + Siblings(t, all[1..], par)
  }

  lemma {:induction false} SiblingsMembers(t: Table, all: seq<int>, par: Option<int>)
    requires Ascending(all)
    ensures forall x :: x in Siblings(t, all, par) <==> x in all && Parent(t, x) == par
    ensures Ascending(Siblings(t, all, par))
  {
    if all != [] {
      SiblingsMembers(t, all[1..], par);
      var s := Siblings(t, all[1..], par);
      forall i | 0 <= i < |s| ensures all[0] < s[i] {
        assert s[i] in s && s[i] in all[1..];
      }
    }
  }

  // ---- the listing ----

  /** The subtrees of `ps`, at most `fuel` levels deep, one after the other. */
  function Pre(t: Table, all: seq<int>, ps: seq<int>, fuel: nat): seq<int>
    decreases fuel, |ps|
  {
    if ps == [] || fuel == 0 then []
    else [ps[0]] + (Pre(t, all, Siblings(t, all, Some(ps[0])), fuel - 1) + Pre(t, all, ps[1..], fuel))
  }

  /** A run of siblings at depth `d`, with enough fuel below it. */
  ghost predicate Run(t: Table, all: seq<int>, ps: seq<int>, d: nat, fuel: nat) {
    && Census(t, all)
    && Ascending(ps)
    && (forall i | 0 <= i < |ps| :: ps[i] in t && AtDepth(t, ps[i], d))
    && d + fuel >= |t|
  }

  /** The children of the first sibling, and the siblings behind it, are runs again. */
  lemma RunSteps(t: Table, all: seq<int>, ps: seq<int>, d: nat, fuel: nat)
    requires Run(t, all, ps, d, fuel) && ps != []
    ensures fuel > 0
    ensures Run(t, all, Siblings(t, all, Some(ps[0])), d + 1, fuel - 1)
    ensures Run(t, all, ps[1..], d, fuel)
  {
    DepthBound(t, ps[0], d);
    var kids := Siblings(t, all, Some(ps[0]));
    SiblingsMembers(t, all, Some(ps[0]));
    forall i | 0 <= i < |kids| ensures kids[i] in t && AtDepth(t, kids[i], d + 1) {
      assert kids[i] in kids && kids[i] in all;
      KidDepth(t, kids[i], ps[0], d);
    }
  }

  ghost predicate UnderOne(t: Table, x: int, ps: seq<int>) {
    exists i | 0 <= i < |ps| :: Under(t, x, ps[i])
  }

  /** The listing holds exactly the members of the subtrees. */
  lemma {:induction false} PreMember(t: Table, all: seq<int>, ps: seq<int>, d: nat, fuel: nat, x: int)
    requires Run(t, all, ps, d, fuel)
    ensures x in Pre(t, all, ps, fuel) <==> UnderOne(t, x, ps)
    decreases fuel, |ps|
  {
    if ps != [] {
      RunSteps(t, all, ps, d, fuel);
      PreMember(t, all, Siblings(t, all, Some(ps[0])), d + 1, fuel - 1, x);
      PreMember(t, all, ps[1..], d, fuel, x);
      UnderFirst(t, all, ps[0], x);
      UnderOneSplit(t, x, ps);
      PreSplit(t, all, ps, fuel, x);
    }
  }

  lemma PreSplit(t: Table, all: seq<int>, ps: seq<int>, fuel: nat, x: int)
    requires ps != [] && fuel > 0
    ensures var a, b := Pre(t, all, Siblings(t, all, Some(ps[0])), fuel - 1), Pre(t, all, ps[1..], fuel);
            && Pre(t, all, ps, fuel) == [ps[0]] + (a + b)
            && (x in Pre(t, all, ps, fuel) <==> x == ps[0] || x in a || x in b)
  {
    InParts(ps[0], Pre(t, all, Siblings(t, all, Some(ps[0])), fuel - 1), Pre(t, all, ps[1..], fuel), x);
  }

  lemma InParts(p: int, a: seq<int>, b: seq<int>, x: int)
    ensures x in [p] + (a + b) <==> x == p || x in a || x in b
  {
  }

  lemma UnderOneSplit(t: Table, x: int, ps: seq<int>)
    requires ps != []
    ensures UnderOne(t, x, ps) <==> Under(t, x, ps[0]) || UnderOne(t, x, ps[1..])
  {
    if UnderOne(t, x, ps[1..]) {
      var i :| 0 <= i < |ps[1..]| && Under(t, x, ps[1..][i]);
      assert Under(t, x, ps[i + 1]);
    }
    if UnderOne(t, x, ps) && !Under(t, x, ps[0]) {
      var i :| 0 <= i < |ps| && Under(t, x, ps[i]);
      assert Under(t, x, ps[1..][i - 1]);
    }
  }

  lemma UnderFirst(t: Table, all: seq<int>, p: int, x: int)
    requires Census(t, all) && p in t
    ensures Under(t, x, p) <==> x == p || UnderOne(t, x, Siblings(t, all, Some(p)))
  {
    var kids := Siblings(t, all, Some(p));
    SiblingsMembers(t, all, Some(p));
    UnderStep(t, x, p);
    if c :| c in Kids(t, p) && Under(t, x, c) {
      assert c in kids;
      var i :| 0 <= i < |kids| && kids[i] == c;
      assert Under(t, x, kids[i]);
    }
    if UnderOne(t, x, kids) {
      var i :| 0 <= i < |kids| && Under(t, x, kids[i]);
      assert kids[i] in kids && kids[i] in Kids(t, p);
    }
  }

  // ---- apartness of subtrees ----

  lemma UnderTrans(t: Table, x: int, y: int, z: int)
    requires Under(t, x, y) && Under(t, y, z)
    ensures Under(t, x, z)
  {
    var j: nat :| Up(t, x, j) == Some(y);
    var k: nat :| Up(t, y, k) == Some(z);
    UpAdd(t, x, j, k);
    assert Up(t, x, j + k) == Some(z);
  }

  /** A proper descendant of a process at depth `d` is deeper, and its parent is in the same
      subtree. */
  lemma UnderDeeper(t: Table, x: int, p: int, d: nat)
    requires p in t && AtDepth(t, p, d) && Under(t, x, p) && x != p
    ensures !AtDepth(t, x, d) && !Under(t, p, x)
    ensures Parent(t, x).Some? && Under(t, Parent(t, x).value, p)
  {
    var k: nat :| Up(t, x, k) == Some(p);
    UpAdd(t, x, k, d);
    DepthUnique(t, x, k + d, d);
    assert Up(t, Parent(t, x).value, k - 1) == Some(p);
    if Under(t, p, x) {
      var j: nat :| Up(t, p, j) == Some(x);
      DepthUnique(t, p, d, j);
      DepthUnique(t, x, k + d, d - j);
    }
  }

  /** Processes with the same parent are at the same depth. */
  lemma SiblingDepth(t: Table, x: int, y: int, d: nat)
    requires x in t && y in t && Parent(t, x) == Parent(t, y) && AtDepth(t, x, d)
    ensures AtDepth(t, y, d)
  {
    match Parent(t, x)
    case None =>
      DepthUnique(t, x, 0, d);
    case Some(q) =>
      DepthUnique(t, x, d, 1);
      KidDepth(t, x, q, d - 1);
      KidDepth(t, y, q, d - 1);
  }

  // ---- the shape of the listing ----

  /** `s` is a process, then a list under it, then a list under its later siblings. */
  ghost predicate Parts(t: Table, p: int, rest: seq<int>, d: nat, a: seq<int>, b: seq<int>) {
    && p in t && AtDepth(t, p, d)
    && (forall i | 0 <= i < |rest| :: rest[i] in t && AtDepth(t, rest[i], d) && p < rest[i])
    && (forall i | 0 <= i < |a| :: Under(t, a[i], p) && a[i] != p)
    && (forall i | 0 <= i < |b| :: UnderOne(t, b[i], rest))
  }

  lemma PreParts(t: Table, all: seq<int>, ps: seq<int>, d: nat, fuel: nat)
    requires Run(t, all, ps, d, fuel) && ps != []
    ensures fuel > 0
    ensures Parts(t, ps[0], ps[1..], d, Pre(t, all, Siblings(t, all, Some(ps[0])), fuel - 1), Pre(t, all, ps[1..], fuel))
  {
    RunSteps(t, all, ps, d, fuel);
    var p, kids := ps[0], Siblings(t, all, Some(ps[0]));
    var a, b := Pre(t, all, kids, fuel - 1), Pre(t, all, ps[1..], fuel);
    SiblingsMembers(t, all, Some(p));
    forall i | 0 <= i < |a| ensures Under(t, a[i], p) && a[i] != p {
      assert a[i] in a;
      PreMember(t, all, kids, d + 1, fuel - 1, a[i]);
      var k :| 0 <= k < |kids| && Under(t, a[i], kids[k]);
      assert kids[k] in kids;
      UnderKid(t, a[i], kids[k], p, d);
    }
    forall i | 0 <= i < |b| ensures UnderOne(t, b[i], ps[1..]) {
      assert b[i] in b;
      PreMember(t, all, ps[1..], d, fuel, b[i]);
    }
  }

  lemma UnderKid(t: Table, x: int, c: int, p: int, d: nat)
    requires p in t && AtDepth(t, p, d) && c in t && Parent(t, c) == Some(p) && Under(t, x, c)
    ensures Under(t, x, p) && x != p
  {
    assert Up(t, c, 1) == Some(p) && c != p;
    UnderTrans(t, x, c, p);
    UnderDeeper(t, c, p, d);
  }

  /** The two lists of the parts have nothing to do with each other. */
  lemma PartsApart(t: Table, p: int, rest: seq<int>, d: nat, a: seq<int>, b: seq<int>, x: int, y: int)
    requires Parts(t, p, rest, d, a, b)
    requires (x == p || x in a) && y in b
    ensures x in t && y in t && !Under(t, x, y) && !Under(t, y, x)
  {
    assert Under(t, x, p) by { if x == p { assert Up(t, p, 0) == Some(p); } }
    var i :| 0 <= i < |rest| && Under(t, y, rest[i]);
    if Under(t, x, y) {
      UnderTrans(t, x, y, rest[i]);
      UnderApart(t, x, p, rest[i], d);
    }
    if Under(t, y, x) {
      UnderTrans(t, y, x, p);
      UnderApart(t, y, p, rest[i], d);
    }
  }

  /** Siblings in different parts: only a later sibling of `p` itself. */
  lemma PartsSiblings(t: Table, p: int, rest: seq<int>, d: nat, a: seq<int>, b: seq<int>, x: int, y: int)
    requires Parts(t, p, rest, d, a, b)
    requires x == p || x in a
    requires y in a || y in b
    requires x != p ==> y in b
    requires x in t && y in t && Parent(t, x) == Parent(t, y)
    ensures x < y
  {
    if x == p {
      SiblingDepth(t, p, y, d);
      if y in a {
        UnderDeeper(t, y, p, d);
      } else {
        var i :| 0 <= i < |rest| && Under(t, y, rest[i]);
        assert Up(t, y, 0) == Some(y);
        UnderApart(t, y, y, rest[i], d);
      }
    } else {
      var i :| 0 <= i < |rest| && Under(t, y, rest[i]);
      UnderDeeper(t, x, p, d);
      if y == rest[i] {
        SiblingDepth(t, y, x, d);
      } else {
        UnderDeeper(t, y, rest[i], d);
        UnderApart(t, Parent(t, x).value, p, rest[i], d);
      }
    }
  }

  /** Any two entries: different, the ancestor first, siblings in ascending PID. */
  ghost predicate PairsInOrder(t: Table, s: seq<int>) {
    && (forall i | 0 <= i < |s| :: s[i] in t)
    && (forall i, k | 0 <= i < k < |s| :: s[i] != s[k])
    && (forall i, k | 0 <= i < k < |s| :: !Under(t, s[i], s[k]))
    && (forall i, k | 0 <= i < k < |s| :: Parent(t, s[i]) == Parent(t, s[k]) ==> s[i] < s[k])
  }

  /** Between an entry and its descendant there are only its descendants. */
  ghost predicate BlocksTogether(t: Table, s: seq<int>) {
    forall i, m, k | 0 <= i <= m <= k < |s| && Under(t, s[k], s[i]) :: Under(t, s[m], s[i])
  }

  /** What makes a list a faithful outline. */
  ghost predicate Outline(t: Table, s: seq<int>) {
    PairsInOrder(t, s) && BlocksTogether(t, s)
  }

  lemma Place(p: int, a: seq<int>, b: seq<int>, i: nat)
    requires i < 1 + |a| + |b|
    ensures ([p] + (a + b))[i] == if i == 0 then p else if i <= |a| then a[i - 1] else b[i - 1 - |a|]
  {
  }

  /** Two entries of the joined list, `i` before `k`. */
  lemma JoinPair(t: Table, p: int, rest: seq<int>, d: nat, a: seq<int>, b: seq<int>, i: nat, k: nat)
    requires Parts(t, p, rest, d, a, b) && Outline(t, a) && Outline(t, b)
    requires i < k < 1 + |a| + |b|
    ensures var s := [p] + (a + b);
            && s[i] in t && s[k] in t && s[i] != s[k] && !Under(t, s[i], s[k])
            && (Parent(t, s[i]) == Parent(t, s[k]) ==> s[i] < s[k])
  {
    Place(p, a, b, i);
    Place(p, a, b, k);
    var x, y := ([p] + (a + b))[i], ([p] + (a + b))[k];
    if i == 0 && k <= |a| {
      UnderDeeper(t, y, p, d);
    }
    if i <= |a| < k {
      PartsApart(t, p, rest, d, a, b, x, y);
      assert Up(t, x, 0) == Some(x);
    }
    if Parent(t, x) == Parent(t, y) && (i == 0 || i <= |a| < k) {
      PartsSiblings(t, p, rest, d, a, b, x, y);
    }
  }

  /** Between an entry and its descendant there are only its descendants. */
  lemma JoinBlock(t: Table, p: int, rest: seq<int>, d: nat, a: seq<int>, b: seq<int>, i: nat, m: nat, k: nat)
    requires Parts(t, p, rest, d, a, b) && Outline(t, a) && Outline(t, b)
    requires i <= m <= k < 1 + |a| + |b|
    requires var s := [p] + (a + b); Under(t, s[k], s[i])
    ensures var s := [p] + (a + b); Under(t, s[m], s[i])
  {
    Place(p, a, b, i);
    Place(p, a, b, m);
    Place(p, a, b, k);
    var s := [p] + (a + b);
    if i <= |a| < k {
      PartsApart(t, p, rest, d, a, b, s[i], s[k]);
    } else if i == 0 {
      assert Up(t, p, 0) == Some(p);
    }
  }

  lemma JoinPairs(t: Table, p: int, rest: seq<int>, d: nat, a: seq<int>, b: seq<int>)
    requires Parts(t, p, rest, d, a, b) && Outline(t, a) && Outline(t, b)
    ensures PairsInOrder(t, [p] + (a + b))
  {
    var s := [p] + (a + b);
    forall i | 0 <= i < |s| ensures s[i] in t {
      Place(p, a, b, i);
    }
    forall i, k | 0 <= i < k < |s|
      ensures s[i] != s[k] && !Under(t, s[i], s[k]) && (Parent(t, s[i]) == Parent(t, s[k]) ==> s[i] < s[k])
    {
      JoinPair(t, p, rest, d, a, b, i, k);
    }
  }

  lemma JoinBlocks(t: Table, p: int, rest: seq<int>, d: nat, a: seq<int>, b: seq<int>)
    requires Parts(t, p, rest, d, a, b) && Outline(t, a) && Outline(t, b)
    ensures BlocksTogether(t, [p] + (a + b))
  {
    var s := [p] + (a + b);
    forall i, m, k | 0 <= i <= m <= k < |s| && Under(t, s[k], s[i]) ensures Under(t, s[m], s[i]) {
      JoinBlock(t, p, rest, d, a, b, i, m, k);
    }
  }

  lemma OutlineJoin(t: Table, p: int, rest: seq<int>, d: nat, a: seq<int>, b: seq<int>)
    requires Parts(t, p, rest, d, a, b) && Outline(t, a) && Outline(t, b)
    ensures Outline(t, [p] + (a + b))
  {
    JoinPairs(t, p, rest, d, a, b);
    JoinBlocks(t, p, rest, d, a, b);
  }

  lemma OutlineStep(t: Table, all: seq<int>, ps: seq<int>, d: nat, fuel: nat)
    requires Run(t, all, ps, d, fuel) && ps != [] && fuel > 0
    requires Outline(t, Pre(t, all, Siblings(t, all, Some(ps[0])), fuel - 1))
    requires Outline(t, Pre(t, all, ps[1..], fuel))
    ensures Outline(t, Pre(t, all, ps, fuel))
  {
    PreParts(t, all, ps, d, fuel);
    OutlineJoin(t, ps[0], ps[1..], d, Pre(t, all, Siblings(t, all, Some(ps[0])), fuel - 1), Pre(t, all, ps[1..], fuel));
    PreSplit(t, all, ps, fuel, ps[0]);
  }

  lemma {:induction false} PreOutline(t: Table, all: seq<int>, ps: seq<int>, d: nat, fuel: nat)
    requires Run(t, all, ps, d, fuel)
    ensures Outline(t, Pre(t, all, ps, fuel))
    decreases fuel, |ps|
  {
    if ps != [] {
      RunSteps(t, all, ps, d, fuel);
      PreOutline(t, all, Siblings(t, all, Some(ps[0])), d + 1, fuel - 1);
      PreOutline(t, all, ps[1..], d, fuel);
      OutlineStep(t, all, ps, d, fuel);
    }
  }

  // ---- the listing of a whole table ----

  /** All trees, from the roots down. */
  function Listing(t: Table, all: seq<int>): seq<int> {
    Pre(t, all, Siblings(t, all, None), |t|)
  }

  lemma RootsRun(t: Table, all: seq<int>)
    requires Census(t, all)
    ensures Run(t, all, Siblings(t, all, None), 0, |t|)
  {
    var roots := Siblings(t, all, None);
    SiblingsMembers(t, all, None);
    forall i | 0 <= i < |roots| ensures roots[i] in t && AtDepth(t, roots[i], 0) {
      assert roots[i] in roots && roots[i] in all;
    }
  }

  /** A listing is a faithful outline of exactly the processes whose ancestor chain reaches a
      root: whatever cycles the parent links contain, no such process is missing, none is
      listed twice, and no other is listed. */
  lemma ListingOutline(t: Table, all: seq<int>)
    requires Census(t, all)
    ensures Outline(t, Listing(t, all))
    ensures forall x :: x in Listing(t, all) <==> Rooted(t, x)
  {
    var roots := Siblings(t, all, None);
    RootsRun(t, all);
    PreOutline(t, all, roots, 0, |t|);
    SiblingsMembers(t, all, None);
    forall x ensures x in Listing(t, all) <==> Rooted(t, x) {
      PreMember(t, all, roots, 0, |t|, x);
      if UnderOne(t, x, roots) {
        var i :| 0 <= i < |roots| && Under(t, x, roots[i]);
        var k: nat :| Up(t, x, k) == Some(roots[i]);
        assert roots[i] in roots;
        assert AtDepth(t, x, k);
      }
      if Rooted(t, x) {
        var d: nat :| AtDepth(t, x, d);
        var r := Up(t, x, d).value;
        assert r in roots;
        var i :| 0 <= i < |roots| && roots[i] == r;
        assert Under(t, x, roots[i]);
      }
    }
  }

  /** In an outline the nearest earlier entry that is not as deep is the parent. */
  lemma NearestShallowerIsParent(t: Table, s: seq<int>, k: nat, d: nat, j: nat)
    requires Outline(t, s) && j < k < |s| && AtDepth(t, s[k], d)
    requires Parent(t, s[k]) == Some(s[j])
    ensures d >= 1 && AtDepth(t, s[j], d - 1)
    ensures forall m, e: nat | j < m < k && AtDepth(t, s[m], e) :: e >= d
  {
    DepthUnique(t, s[k], d, 1);
    assert Up(t, s[k], 1) == Some(s[j]);
    KidDepth(t, s[k], s[j], d - 1);
    assert Under(t, s[k], s[j]);
    forall m, e: nat | j < m < k && AtDepth(t, s[m], e) ensures e >= d {
      assert Under(t, s[m], s[j]) && s[m] != s[j];
      var i: nat :| Up(t, s[m], i) == Some(s[j]);
      DepthUnique(t, s[m], e, i);
      DepthUnique(t, s[j], d - 1, e - i);
    }
  }

  /** In a listing every parent stands before its children. */
  lemma ParentListed(t: Table, all: seq<int>, k: nat) returns (j: nat)
    requires Census(t, all) && k < |Listing(t, all)|
    requires Listing(t, all)[k] in t && Parent(t, Listing(t, all)[k]).Some?
    ensures j < k && Parent(t, Listing(t, all)[k]) == Some(Listing(t, all)[j])
  {
    ListingOutline(t, all);
    var s := Listing(t, all);
    var q := Parent(t, s[k]).value;
    assert s[k] in s;
    var d: nat :| AtDepth(t, s[k], d);
    DepthUnique(t, s[k], d, 0);
    RootEnds(t, s[k], d);
    assert AtDepth(t, q, d - 1);
    assert Rooted(t, q) && q in s;
    j :| 0 <= j < |s| && s[j] == q;
    assert Up(t, s[k], 1) == Some(q);
    assert Under(t, s[k], s[j]);
  }

  /** A listing covers the whole table exactly when the parent links have no cycle of length
      two or more. */
  lemma ListingCompleteIff(t: Table, all: seq<int>)
    requires Census(t, all)
    ensures (forall x | x in t :: x in Listing(t, all)) <==> NoCycle(t)
  {
    ListingOutline(t, all);
    AllRootedIffNoCycle(t);
  }
}
