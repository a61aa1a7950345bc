/**
 The connectors of the process tree: what `FlattenTree` puts in front of a name, and where in
 the tree each of those characters comes from.
 */
module TreeDrawing {
  import opened Options
  import opened Ancestry
  import opened Preorder

  /** A process with its subtrees, as the node pointers represent them. */
  datatype Tree = Tree(proc: Proc, depth: int, kids: seq<Tree>)

  const BRANCH := "├── "
  const LAST_BRANCH := "└── "
  const PIPE := "│   "
  const GAP := "    "

  /** `walk`: the processes of a list of sibling trees in preorder, with connectors. */
  function Walk(ts: seq<Tree>, prefix: string): seq<Proc> {
    if ts == [] then []
    else
      var last := |ts| == 1;
      var node := ts[0];
      var shown := if node.depth > 0
        then node.proc.(displayName := prefix + (if last then LAST_BRANCH else BRANCH) + node.proc.displayName)
        else node.proc;
      [shown] + (Walk(node.kids, prefix + (if last then GAP else PIPE)) + Walk(ts[1..], prefix))
  }

  /** The trees of a run of siblings. */
  function Grow(t: Table, all: seq<int>, ps: seq<int>, depth: nat, fuel: nat): seq<Tree>
    requires forall i | 0 <= i < |all| :: all[i] in t
    requires forall i | 0 <= i < |ps| :: ps[i] in t
    decreases fuel, |ps|
  {
    if ps == [] || fuel == 0 then []
    else
      var kids := KidList(t, all, ps[0]);
      [Tree(t[ps[0]], depth, Grow(t, all, kids, depth + 1, fuel - 1))] + Grow(t, all, ps[1..], depth, fuel)
  }

  function KidList(t: Table, all: seq<int>, p: int): (r: seq<int>)
    requires forall i | 0 <= i < |all| :: all[i] in t
    ensures forall i | 0 <= i < |r| :: r[i] in t
  {
    SiblingsIn(t, all, Some(p));
    Siblings(t, all, Some(p))
  }

  lemma {:induction false} SiblingsIn(t: Table, all: seq<int>, par: Option<int>)
    requires forall i | 0 <= i < |all| :: all[i] in t
    ensures forall i | 0 <= i < |Siblings(t, all, par)| :: Siblings(t, all, par)[i] in t
  {
    if all != [] {
      SiblingsIn(t, all[1..], par);
    }
  }

  function RootList(t: Table, all: seq<int>): (r: seq<int>)
    requires forall i | 0 <= i < |all| :: all[i] in t
    ensures forall i | 0 <= i < |r| :: r[i] in t
  {
    SiblingsIn(t, all, None);
    Siblings(t, all, None)
  }

  /** The forest of a process table. */
  function Forest(t: Table, all: seq<int>): seq<Tree>
    requires forall i | 0 <= i < |all| :: all[i] in t
  {
    Grow(t, all, RootList(t, all), 0, |t|)
  }

  // ---- the connectors, from the parent links ----

  ghost predicate HasLaterSibling(t: Table, x: int) {
    exists y | y in t :: y > x && Parent(t, y) == Parent(t, x)
  }

  /** The four columns a process puts in front of its descendants. */
  ghost function Segment(t: Table, x: int): (s: string)
    ensures |s| == 4
  {
    if HasLaterSibling(t, x) then PIPE else GAP
  }

  /** The columns of a process at depth `d` and of its ancestors, from the root down. */
  ghost function Trail(t: Table, x: int, d: nat): string
    requires x in t && AtDepth(t, x, d)
    decreases d
  {
    if d == 0 then Segment(t, x)
    else
      KidDepth(t, x, Parent(t, x).value, d - 1);
      Trail(t, Parent(t, x).value, d - 1) + Segment(t, x)
  }

  /** What stands in front of the name of a process at depth `d`. */
  ghost function Label(t: Table, x: int, d: nat): string
    requires x in t && AtDepth(t, x, d)
  {
    if d == 0 then ""
    else
      KidDepth(t, x, Parent(t, x).value, d - 1);
      Trail(t, Parent(t, x).value, d - 1) + (if HasLaterSibling(t, x) then BRANCH else LAST_BRANCH)
  }

  ghost predicate Drawn(t: Table, x: int, p: Proc) {
    x in t && exists d: nat :: AtDepth(t, x, d) && p == t[x].(displayName := Label(t, x, d) + t[x].displayName)
  }

  /** Block `l` of `s` is what the ancestor of `x` at level `l` puts there: a pipe exactly when
      that ancestor has a later sibling. */
  ghost predicate BlockAt(t: Table, x: int, d: nat, s: string, l: nat)
    requires x in t && l <= d
  {
    && Up(t, x, d - l).Some?
    && |s| >= 4 * l + 4
    && s[4 * l..4 * l + 4] == if HasLaterSibling(t, Up(t, x, d - l).value) then PIPE else GAP
  }

  lemma {:induction false} TrailShape(t: Table, x: int, d: nat, l: nat)
    requires x in t && AtDepth(t, x, d) && l <= d
    ensures |Trail(t, x, d)| == 4 * (d + 1)
    ensures BlockAt(t, x, d, Trail(t, x, d), l)
    decreases d
  {
    if d > 0 {
      var q := Parent(t, x).value;
      KidDepth(t, x, q, d - 1);
      TrailShape(t, q, d - 1, if l < d then l else d - 1);
      var s := Trail(t, q, d - 1);
      if l < d {
        assert Up(t, x, d - l) == Up(t, q, d - 1 - l);
        assert Trail(t, x, d)[4 * l..4 * l + 4] == s[4 * l..4 * l + 4];
      } else {
        assert Trail(t, x, d)[4 * l..4 * l + 4] == Segment(t, x);
      }
    }
  }

  /** A process at depth `d >= 1` has `4 * (d + 1)` characters in front of its name: one block
      for each ancestor, a pipe exactly when that ancestor has a later sibling, and last a
      corner exactly when the process itself has none. */
  lemma LabelShape(t: Table, x: int, d: nat)
    requires x in t && AtDepth(t, x, d) && d >= 1
    ensures |Label(t, x, d)| == 4 * (d + 1)
    ensures forall l | 0 <= l < d :: BlockAt(t, x, d, Label(t, x, d), l)
    ensures Label(t, x, d)[4 * d..] == if HasLaterSibling(t, x) then BRANCH else LAST_BRANCH
  {
    var q := Parent(t, x).value;
    KidDepth(t, x, q, d - 1);
    var s := Trail(t, q, d - 1);
    TrailShape(t, q, d - 1, 0);
    forall l | 0 <= l < d ensures BlockAt(t, x, d, Label(t, x, d), l) {
      TrailShape(t, q, d - 1, l);
      assert Up(t, x, d - l) == Up(t, q, d - 1 - l);
      assert Label(t, x, d)[4 * l..4 * l + 4] == s[4 * l..4 * l + 4];
    }
  }

  // ---- the walk draws the listing ----

  /** `ps` are the last children of `par` from some child on, at depth `d`, and `prefix` is what
      `par` and its ancestors put in front of them. */
  ghost predicate Tail(t: Table, ps: seq<int>, par: Option<int>, d: nat, prefix: string) {
    && (forall i | 0 <= i < |ps| :: ps[i] in t && Parent(t, ps[i]) == par)
    && (forall y | y in t && Parent(t, y) == par :: y in ps || (forall i | 0 <= i < |ps| :: y < ps[i]))
    && (par == None ==> d == 0)
    && (par.Some? ==> par.value in t && d >= 1 && AtDepth(t, par.value, d - 1) && prefix == Trail(t, par.value, d - 1))
  }

  lemma TailLater(t: Table, ps: seq<int>, par: Option<int>, d: nat, prefix: string)
    requires Ascending(ps) && Tail(t, ps, par, d, prefix) && ps != []
    ensures HasLaterSibling(t, ps[0]) <==> |ps| > 1
  {
    if |ps| > 1 {
      assert ps[1] > ps[0] && Parent(t, ps[1]) == Parent(t, ps[0]);
    }
    if HasLaterSibling(t, ps[0]) {
      var y :| y in t && y > ps[0] && Parent(t, y) == Parent(t, ps[0]);
      assert y in ps;
    }
  }

  lemma TailTrail(t: Table, p: int, par: Option<int>, d: nat, prefix: string)
    requires p in t && AtDepth(t, p, d) && Parent(t, p) == par
    requires par == None ==> d == 0 && prefix == ""
    requires par.Some? ==> par.value in t && d >= 1 && AtDepth(t, par.value, d - 1) && prefix == Trail(t, par.value, d - 1)
    ensures Trail(t, p, d) == prefix + Segment(t, p)
  {
    if par == None {
      assert "" + Segment(t, p) == Segment(t, p);
    }
  }

  lemma TailRest(t: Table, ps: seq<int>, par: Option<int>, d: nat, prefix: string)
    requires Ascending(ps) && Tail(t, ps, par, d, prefix) && ps != []
    ensures Tail(t, ps[1..], par, d, prefix)
  {
    var rest := ps[1..];
    forall y | y in t && Parent(t, y) == par && y !in rest ensures forall i | 0 <= i < |rest| :: y < rest[i] {
      assert y in ps ==> y == ps[0];
      assert forall i | 0 <= i < |rest| :: rest[i] == ps[i + 1];
    }
  }

  lemma TailKids(t: Table, all: seq<int>, p: int, d: nat)
    requires Census(t, all) && p in t && AtDepth(t, p, d)
    ensures Tail(t, KidList(t, all, p), Some(p), d + 1, Trail(t, p, d))
  {
    SiblingsMembers(t, all, Some(p));
    var kids := KidList(t, all, p);
    forall i | 0 <= i < |kids| ensures Parent(t, kids[i]) == Some(p) {
      assert kids[i] in kids;
    }
  }

  /** `w` draws the processes `s`, one by one. */
  ghost predicate Draws(t: Table, s: seq<int>, w: seq<Proc>) {
    |w| == |s| && forall i | 0 <= i < |s| :: Drawn(t, s[i], w[i])
  }

  lemma DrawsJoin(t: Table, p: int, first: Proc, a: seq<int>, wa: seq<Proc>, b: seq<int>, wb: seq<Proc>)
    requires Drawn(t, p, first) && Draws(t, a, wa) && Draws(t, b, wb)
    ensures Draws(t, [p] + (a + b), [first] + (wa + wb))
  {
    forall i | 0 <= i < 1 + |a| + |b| ensures Drawn(t, ([p] + (a + b))[i], ([first] + (wa + wb))[i]) {
      Place(p, a, b, i);
    }
  }

  lemma {:induction false} GrowLength(t: Table, all: seq<int>, ps: seq<int>, d: nat, fuel: nat)
    requires forall i | 0 <= i < |all| :: all[i] in t
    requires forall i | 0 <= i < |ps| :: ps[i] in t
    requires fuel > 0
    ensures |Grow(t, all, ps, d, fuel)| == |ps|
    decreases |ps|
  {
    if ps != [] {
      GrowLength(t, all, ps[1..], d, fuel);
    }
  }

  /** What `walk` shows for the first of a run of siblings. */
  lemma FirstDrawn(t: Table, ps: seq<int>, par: Option<int>, d: nat, prefix: string)
    requires ps != [] && ps[0] in t && AtDepth(t, ps[0], d) && Parent(t, ps[0]) == par
    requires par.Some? ==> par.value in t && d >= 1 && AtDepth(t, par.value, d - 1) && prefix == Trail(t, par.value, d - 1)
    requires HasLaterSibling(t, ps[0]) <==> |ps| > 1
    ensures Drawn(t, ps[0], if d > 0
              then t[ps[0]].(displayName := prefix + (if |ps| == 1 then LAST_BRANCH else BRANCH) + t[ps[0]].displayName)
              else t[ps[0]])
  {
    if d > 0 {
      RootEnds(t, ps[0], d);
      assert Label(t, ps[0], d) == prefix + (if |ps| == 1 then LAST_BRANCH else BRANCH);
    } else {
      assert Label(t, ps[0], d) + t[ps[0]].displayName == t[ps[0]].displayName;
    }
  }

  /** One step of the walk over a grown run. */
  lemma WalkGrown(t: Table, all: seq<int>, ps: seq<int>, d: nat, fuel: nat, prefix: string)
    requires forall i | 0 <= i < |all| :: all[i] in t
    requires forall i | 0 <= i < |ps| :: ps[i] in t
    requires ps != [] && fuel > 0
    ensures var p, last := ps[0], |ps| == 1;
            var shown := if d > 0
              then t[p].(displayName := prefix + (if last then LAST_BRANCH else BRANCH) + t[p].displayName) else t[p];
            Walk(Grow(t, all, ps, d, fuel), prefix) ==
              [shown] + (Walk(Grow(t, all, KidList(t, all, p), d + 1, fuel - 1), prefix + (if last then GAP else PIPE))
                         + Walk(Grow(t, all, ps[1..], d, fuel), prefix))
  {
    GrowLength(t, all, ps, d, fuel);
    var ts := Grow(t, all, ps, d, fuel);
    assert ts[1..] == Grow(t, all, ps[1..], d, fuel);
  }

  lemma WalkJoin(t: Table, all: seq<int>, ps: seq<int>, d: nat, fuel: nat, prefix: string)
    requires Run(t, all, ps, d, fuel) && ps != [] && fuel > 0
    requires HasLaterSibling(t, ps[0]) <==> |ps| > 1
    requires Trail(t, ps[0], d) == prefix + Segment(t, ps[0])
    requires Drawn(t, ps[0], if d > 0
               then t[ps[0]].(displayName := prefix + (if |ps| == 1 then LAST_BRANCH else BRANCH) + t[ps[0]].displayName)
               else t[ps[0]])
    requires var kids := KidList(t, all, ps[0]);
             Draws(t, Pre(t, all, kids, fuel - 1), Walk(Grow(t, all, kids, d + 1, fuel - 1), Trail(t, ps[0], d)))
    requires Draws(t, Pre(t, all, ps[1..], fuel), Walk(Grow(t, all, ps[1..], d, fuel), prefix))
    ensures Draws(t, Pre(t, all, ps, fuel), Walk(Grow(t, all, ps, d, fuel), prefix))
  {
    var kids := KidList(t, all, ps[0]);
    WalkGrown(t, all, ps, d, fuel, prefix);
    PreSplit(t, all, ps, fuel, ps[0]);
    DrawsJoin(t, ps[0], Walk(Grow(t, all, ps, d, fuel), prefix)[0],
              Pre(t, all, kids, fuel - 1), Walk(Grow(t, all, kids, d + 1, fuel - 1), Trail(t, ps[0], d)),
              Pre(t, all, ps[1..], fuel), Walk(Grow(t, all, ps[1..], d, fuel), prefix));
  }

  /** The children of the first sibling, and the later siblings, are again runs with their prefix. */
  lemma WalkReady(t: Table, all: seq<int>, ps: seq<int>, par: Option<int>, d: nat, fuel: nat, prefix: string)
    requires Run(t, all, ps, d, fuel) && Tail(t, ps, par, d, prefix) && ps != []
    ensures fuel > 0 && Run(t, all, KidList(t, all, ps[0]), d + 1, fuel - 1) && Run(t, all, ps[1..], d, fuel)
    ensures Tail(t, KidList(t, all, ps[0]), Some(ps[0]), d + 1, Trail(t, ps[0], d)) && Tail(t, ps[1..], par, d, prefix)
  {
    RunSteps(t, all, ps, d, fuel);
    TailRest(t, ps, par, d, prefix);
    TailKids(t, all, ps[0], d);
  }

  lemma WalkStep(t: Table, all: seq<int>, ps: seq<int>, par: Option<int>, d: nat, fuel: nat, prefix: string)
    requires Run(t, all, ps, d, fuel) && Tail(t, ps, par, d, prefix) && ps != [] && fuel > 0
    requires par == None ==> prefix == ""
    requires var kids := KidList(t, all, ps[0]);
             Draws(t, Pre(t, all, kids, fuel - 1), Walk(Grow(t, all, kids, d + 1, fuel - 1), Trail(t, ps[0], d)))
    requires Draws(t, Pre(t, all, ps[1..], fuel), Walk(Grow(t, all, ps[1..], d, fuel), prefix))
    ensures Draws(t, Pre(t, all, ps, fuel), Walk(Grow(t, all, ps, d, fuel), prefix))
  {
    TailLater(t, ps, par, d, prefix);
    TailTrail(t, ps[0], par, d, prefix);
    FirstDrawn(t, ps, par, d, prefix);
    WalkJoin(t, all, ps, d, fuel, prefix);
  }

  lemma {:induction false} WalkDraws(t: Table, all: seq<int>, ps: seq<int>, par: Option<int>, d: nat, fuel: nat, prefix: string)
    requires Run(t, all, ps, d, fuel) && Tail(t, ps, par, d, prefix)
    requires par == None ==> prefix == ""
    ensures Draws(t, Pre(t, all, ps, fuel), Walk(Grow(t, all, ps, d, fuel), prefix))
    decreases fuel, |ps|
  {
    if ps != [] {
      WalkReady(t, all, ps, par, d, fuel, prefix);
      WalkDraws(t, all, KidList(t, all, ps[0]), Some(ps[0]), d + 1, fuel - 1, Trail(t, ps[0], d));
      WalkDraws(t, all, ps[1..], par, d, fuel, prefix);
      WalkStep(t, all, ps, par, d, fuel, prefix);
    }
  }

  /** The flattened forest draws the listing: every entry is the process of the listing at that
      place, its name behind the connectors its parent links call for. */
  lemma ForestDraws(t: Table, all: seq<int>)
    requires Census(t, all)
    ensures Draws(t, Listing(t, all), Walk(Forest(t, all), ""))
  {
    var roots := RootList(t, all);
    RootsRun(t, all);
    SiblingsMembers(t, all, None);
    forall i | 0 <= i < |roots| ensures Parent(t, roots[i]) == None {
      assert roots[i] in roots;
    }
    WalkDraws(t, all, roots, None, 0, |t|, "");
  }
}
