/**
 The process tree code itself: nodes with child lists that are linked in input order, sorted
 and given depths in place, and flattened by a recursive walk.
 */
module ProcessTree {
  import opened Options
  import opened Sequences
  import opened Ancestry
  import opened Preorder
  import opened TreeDrawing

  class TreeNode {
    const proc: Proc
    var depth: int
    var children: seq<TreeNode>

    constructor (p: Proc)
      ensures proc == p && depth == 0 && children == []
    {
      proc := p;
      depth := 0;
      children := [];
    }
  }

  // ---- nodes and trees ----

  /** The nodes of `ns`, and what hangs below them, are the trees `ts`. */
  ghost predicate AreTrees(ns: seq<TreeNode>, ts: seq<Tree>, heap: set<TreeNode>)
    reads heap
    decreases ts
  {
    |ns| == |ts| && forall i | 0 <= i < |ns| ::
      && ns[i] in heap && ns[i].proc == ts[i].proc && ns[i].depth == ts[i].depth
      && AreTrees(ns[i].children, ts[i].kids, heap)
  }

  /** `FlattenTree` on any forest of nodes. */
  method FlattenTree(roots: seq<TreeNode>, ghost forest: seq<Tree>, ghost heap: set<TreeNode>) returns (result: seq<Proc>)
    requires AreTrees(roots, forest, heap)
    ensures result == Walk(forest, "")
  {
    result := WalkNodes([], roots, "", forest, heap);
    assert [] + Walk(forest, "") == Walk(forest, "");
  }

  method WalkNodes(before: seq<Proc>, nodes: seq<TreeNode>, prefix: string, ghost ts: seq<Tree>, ghost heap: set<TreeNode>)
    returns (result: seq<Proc>)
    requires AreTrees(nodes, ts, heap)
    ensures result == before + Walk(ts, prefix)
    decreases ts
  {
    result := before;
    var count := |nodes|;
    for i := 0 to count
      invariant result + Walk(ts[i..], prefix) == before + Walk(ts, prefix)
    {
      var n := nodes[i];
      var isLast := i == count - 1;
      var branch := BRANCH;
      var childPrefix := prefix + PIPE;
      if isLast {
        branch := LAST_BRANCH;
        childPrefix := prefix + GAP;
      }
      var proc := n.proc;
      if n.depth > 0 {
        proc := proc.(displayName := prefix + branch + proc.displayName);
      }
      WalkFirst(ts, i, prefix);
      ghost var kids, rest := Walk(ts[i].kids, childPrefix), Walk(ts[i + 1..], prefix);
      Assoc(result, [proc], kids + rest);
      Assoc(result + [proc], kids, rest);
      result := result + [proc];
      if |n.children| > 0 {
        result := WalkNodes(result, n.children, childPrefix, ts[i].kids, heap);
      } else {
        assert ts[i].kids == [] && result + [] == result;
      }
    }
    assert result + [] == result;
  }

  lemma WalkFirst(ts: seq<Tree>, i: nat, prefix: string)
    requires i < |ts|
    ensures var last, n := i == |ts| - 1, ts[i];
            var shown := if n.depth > 0
              then n.proc.(displayName := prefix + (if last then LAST_BRANCH else BRANCH) + n.proc.displayName) else n.proc;
            Walk(ts[i..], prefix) ==
              [shown] + (Walk(n.kids, prefix + (if last then GAP else PIPE)) + Walk(ts[i + 1..], prefix))
  {
    assert ts[i..][1..] == ts[i + 1..];
  }

  // ---- linking ----

  /** The processes of `procs` that hang below `par`, in input order. */
  function Linked(t: Table, procs: seq<Proc>, par: Option<int>): seq<int> {
    if procs == [] then []
    else
      var front, last := procs[..|procs| - 1], procs[|procs| - 1];
      Linked(t, front, par) + if Parent(t, last.pid) == par then [last.pid] else []
  }

  /** One node per process, all in `heap`. */
  ghost predicate Index(t: Table, m: map<int, TreeNode>, heap: set<TreeNode>) {
    && Keyed(t)
    && (forall p | p in t :: p in m)
    && (forall p | p in m :: p in t && m[p].proc == t[p] && m[p] in heap)
  }

  function Pids(ns: seq<TreeNode>): (ps: seq<int>)
    ensures |ps| == |ns| && forall i | 0 <= i < |ns| :: ps[i] == ns[i].proc.pid
  {
    seq(|ns|, i requires 0 <= i < |ns| => ns[i].proc.pid)
  }

  /** The nodes of `ns` are the ones `m` has for their PIDs. */
  ghost predicate Indexed(m: map<int, TreeNode>, ns: seq<TreeNode>) {
    forall i | 0 <= i < |ns| :: ns[i].proc.pid in m && ns[i] == m[ns[i].proc.pid]
  }

  /** The nodes of `ns` are the indexed ones of the processes below `par`, each once. */
  ghost predicate Hold(t: Table, m: map<int, TreeNode>, ns: seq<TreeNode>, par: Option<int>) {
    && Indexed(m, ns)
    && (forall i, j | 0 <= i < j < |ns| :: ns[i].proc.pid != ns[j].proc.pid)
    && (forall x :: x in Pids(ns) <==> x in t && Parent(t, x) == par)
  }

  // ---- sorting ----

  function InsertNode(s: seq<TreeNode>, n: TreeNode): seq<TreeNode> {
    if s == [] || n.proc.pid <= s[0].proc.pid then [n] + s else [s[0]] + InsertNode(s[1..], n)
  }

  /** `sort.Slice` by PID, a library call: the ascending rearrangement of the nodes. */
  function SortByPid(ns: seq<TreeNode>): seq<TreeNode> {
    if ns == [] then [] else InsertNode(SortByPid(ns[1..]), ns[0])
  }

  lemma PidsCons(n: TreeNode, s: seq<TreeNode>)
    ensures Pids([n] + s) == [n.proc.pid] + Pids(s)
  {
  }

  lemma {:induction false} InsertNodeIndexed(m: map<int, TreeNode>, s: seq<TreeNode>, n: TreeNode)
    requires Indexed(m, s) && Indexed(m, [n])
    ensures Indexed(m, InsertNode(s, n))
  {
    assert [n][0].proc.pid in m;
    if s != [] && s[0].proc.pid < n.proc.pid {
      InsertNodeIndexed(m, s[1..], n);
    }
  }

  /** Inserting a node inserts its PID. */
  lemma {:induction false} InsertNodePids(s: seq<TreeNode>, n: TreeNode)
    requires n.proc.pid !in Pids(s)
    ensures Pids(InsertNode(s, n)) == Insert(Pids(s), n.proc.pid)
  {
    PidsCons(n, s);
    if s != [] {
      var rest := s[1..];
      assert s == [s[0]] + rest;
      PidsCons(s[0], rest);
      PidsCons(s[0], InsertNode(rest, n));
      assert Pids(s)[0] in Pids(s);
      assert Pids(s)[1..] == Pids(rest);
      InsertNodePids(rest, n);
    }
  }

  lemma {:induction false} SortByPidSorts(m: map<int, TreeNode>, ns: seq<TreeNode>)
    requires Indexed(m, ns) && forall i, j | 0 <= i < j < |ns| :: ns[i].proc.pid != ns[j].proc.pid
    ensures Indexed(m, SortByPid(ns)) && Ascending(Pids(SortByPid(ns)))
    ensures forall x :: x in Pids(SortByPid(ns)) <==> x in Pids(ns)
  {
    if ns != [] {
      SortByPidSorts(m, ns[1..]);
      assert Pids(ns) == [ns[0].proc.pid] + Pids(ns[1..]);
      InsertNodeIndexed(m, SortByPid(ns[1..]), ns[0]);
      InsertNodePids(SortByPid(ns[1..]), ns[0]);
      InsertSorted(Pids(SortByPid(ns[1..])), ns[0].proc.pid);
    }
  }

  /** `ns` are the indexed nodes of the siblings below `par`, in order. */
  ghost predicate InOrder(t: Table, all: seq<int>, m: map<int, TreeNode>, ns: seq<TreeNode>, par: Option<int>) {
    Pids(ns) == Siblings(t, all, par) && Indexed(m, ns)
  }

  /** Sorting the nodes below `par`, in whatever order they were linked, gives its siblings. */
  lemma SortedInOrder(t: Table, all: seq<int>, m: map<int, TreeNode>, ns: seq<TreeNode>, par: Option<int>)
    requires Census(t, all) && Hold(t, m, ns, par)
    ensures InOrder(t, all, m, SortByPid(ns), par)
  {
    SortByPidSorts(m, ns);
    SiblingsMembers(t, all, par);
    AscendingUnique(Pids(SortByPid(ns)), Siblings(t, all, par));
  }

  lemma InOrderHolds(t: Table, all: seq<int>, m: map<int, TreeNode>, ns: seq<TreeNode>, par: Option<int>)
    requires Census(t, all) && InOrder(t, all, m, ns, par)
    ensures Hold(t, m, ns, par)
  {
    SiblingsMembers(t, all, par);
    assert forall i | 0 <= i < |ns| :: Pids(ns)[i] == ns[i].proc.pid;
  }

  // ---- the recursive sort ----

  /** What the sort is about: the processes, their PIDs in order, their nodes, the heap of nodes. */
  datatype Plan = Plan(t: Table, all: seq<int>, m: map<int, TreeNode>, heap: set<TreeNode>)

  ghost predicate Sound(pl: Plan) {
    match pl case Plan(t, all, m, heap) => Index(t, m, heap) && Census(t, all)
  }

  /** The fields of a node that change. */
  datatype Fields = Fields(depth: int, children: seq<TreeNode>)

  /** The fields of every node, by PID. */
  ghost function Snapshot(pl: Plan): (s: map<int, Fields>)
    requires forall p | p in pl.m :: pl.m[p] in pl.heap
    reads pl.heap
    ensures forall p :: p in s <==> p in pl.m
    ensures forall p | p in s :: s[p] == Fields(pl.m[p].depth, pl.m[p].children)
  {
    map p | p in pl.m :: Fields(pl.m[p].depth, pl.m[p].children)
  }

  /** The node of `x` has its depth. */
  ghost predicate Leveled(pl: Plan, s: map<int, Fields>, x: int) {
    x in s && s[x].depth >= 0 && AtDepth(pl.t, x, s[x].depth)
  }

  /** The node of `x` is finished: children sorted, depth set. */
  ghost predicate Done(pl: Plan, s: map<int, Fields>, x: int) {
    Leveled(pl, s, x) && InOrder(pl.t, pl.all, pl.m, s[x].children, Some(x))
  }

  /** The state of the sort: child lists hold what they should, the processes in `keep` are
      finished, and those in `lv` have their depth. */
  ghost predicate Progress(pl: Plan, s: map<int, Fields>, keep: set<int>, lv: set<int>) {
    match pl
    case Plan(t, _, m, _) =>
      && (forall p | p in s :: Hold(t, m, s[p].children, Some(p)))
      && (forall x | x in keep :: Done(pl, s, x))
      && (forall x | x in lv :: Leveled(pl, s, x))
  }

  /** `n` is the node of a process at this depth. */
  ghost predicate NodeAt(pl: Plan, n: TreeNode, depth: int) {
    match pl
    case Plan(t, _, m, _) => n.proc.pid in m && n == m[n.proc.pid] && depth >= 0 && AtDepth(t, n.proc.pid, depth)
  }

  /** The processes in the subtrees of `ps`. */
  ghost function Covered(t: Table, ps: seq<int>): set<int> {
    set x | x in t && UnderOne(t, x, ps)
  }

  lemma NothingCovered(t: Table, ps: seq<int>)
    requires ps == []
    ensures Covered(t, ps) == {}
  {
  }

  /** The subtree of `p` is `p` and the subtrees of its children. */
  lemma CoveredFirst(t: Table, all: seq<int>, p: int, x: int)
    requires Census(t, all) && p in t && x in Covered(t, [p])
    ensures x == p || x in Covered(t, Siblings(t, all, Some(p)))
  {
    var i :| 0 <= i < |[p]| && Under(t, x, [p][i]);
    UnderFirst(t, all, p, x);
  }

  lemma CoveredSplit(t: Table, ps: seq<int>, k: nat, x: int)
    requires k < |ps| && x in Covered(t, ps[..k + 1])
    ensures x in Covered(t, ps[..k]) || x in Covered(t, [ps[k]])
  {
    var i :| 0 <= i < k + 1 && Under(t, x, ps[..k + 1][i]);
    if i < k {
      assert ps[..k][i] == ps[i];
    } else {
      assert [ps[k]][0] == ps[k];
    }
  }

  lemma ProgressStart(pl: Plan, s: map<int, Fields>, ps: seq<int>, keep: set<int>, lv: set<int>)
    requires Progress(pl, s, keep, lv)
    ensures Progress(pl, s, keep + Covered(pl.t, ps[..0]), lv)
  {
    NothingCovered(pl.t, ps[..0]);
  }

  lemma ProgressNext(pl: Plan, s: map<int, Fields>, ps: seq<int>, k: nat, keep: set<int>, lv: set<int>)
    requires k < |ps| && Progress(pl, s, keep + Covered(pl.t, ps[..k]) + Covered(pl.t, [ps[k]]), lv)
    ensures Progress(pl, s, keep + Covered(pl.t, ps[..k + 1]), lv)
  {
    forall x | x in keep + Covered(pl.t, ps[..k + 1]) ensures Done(pl, s, x) {
      if x !in keep {
        CoveredSplit(pl.t, ps, k, x);
      }
      assert x in keep + Covered(pl.t, ps[..k]) + Covered(pl.t, [ps[k]]);
    }
  }

  lemma ProgressDepth(pl: Plan, s: map<int, Fields>, p: int, depth: nat, keep: set<int>, lv: set<int>)
    requires Progress(pl, s, keep, lv) && p in s && AtDepth(pl.t, p, depth)
    ensures Progress(pl, s[p := Fields(depth, s[p].children)], keep, lv + {p})
  {
    var s' := s[p := Fields(depth, s[p].children)];
    forall x | x in keep ensures Done(pl, s', x) {
      assert Done(pl, s, x);
    }
    forall x | x in lv + {p} ensures Leveled(pl, s', x) {
      assert x in lv ==> Leveled(pl, s, x);
    }
  }

  /** Storing sorted children finishes a process, once what is below it is finished. */
  lemma ProgressChildren(pl: Plan, s: map<int, Fields>, p: int, cs: seq<TreeNode>, keep: set<int>, lv: set<int>)
    requires Sound(pl) && p in pl.t && p in s && p in lv && InOrder(pl.t, pl.all, pl.m, cs, Some(p))
    requires Progress(pl, s, keep + Covered(pl.t, Siblings(pl.t, pl.all, Some(p))), lv)
    ensures Progress(pl, s[p := Fields(s[p].depth, cs)], keep + Covered(pl.t, [p]), lv)
  {
    var s' := s[p := Fields(s[p].depth, cs)];
    InOrderHolds(pl.t, pl.all, pl.m, cs, Some(p));
    forall x | x in lv ensures Leveled(pl, s', x) {
      assert Leveled(pl, s, x);
    }
    forall x | x in keep + Covered(pl.t, [p]) ensures Done(pl, s', x) {
      CoveredOne(pl.t, pl.all, p, x, keep);
      assert x != p ==> Done(pl, s, x);
    }
  }

  lemma CoveredOne(t: Table, all: seq<int>, p: int, x: int, keep: set<int>)
    requires Census(t, all) && p in t && x in keep + Covered(t, [p])
    ensures x == p || x in keep + Covered(t, Siblings(t, all, Some(p)))
  {
    if x !in keep {
      CoveredFirst(t, all, p, x);
    }
  }

  /** `n.Depth = depth`, for a node at that depth. */
  method SetDepth(n: TreeNode, depth: nat, ghost pl: Plan, ghost keep: set<int>, ghost lv: set<int>)
    requires Sound(pl) && NodeAt(pl, n, depth) && Progress(pl, Snapshot(pl), keep, lv)
    modifies n`depth
    ensures Progress(pl, Snapshot(pl), keep, lv + {n.proc.pid})
  {
    ghost var p, s := n.proc.pid, Snapshot(pl);
    n.depth := depth;
    SnapshotChanged(pl, s[p := Fields(depth, s[p].children)]);
    ProgressDepth(pl, s, p, depth, keep, lv);
  }

  lemma SnapshotChanged(pl: Plan, s: map<int, Fields>)
    requires Sound(pl)
    requires forall p | p in pl.m :: p in s && s[p] == Fields(pl.m[p].depth, pl.m[p].children)
    requires forall p | p in s :: p in pl.m
    ensures Snapshot(pl) == s
  {
    var u := Snapshot(pl);
    forall p | p in u.Keys ensures p in s.Keys {}
    forall p | p in s.Keys ensures p in u.Keys {}
    forall p | p in u ensures u[p] == s[p] {}
  }

  /** Storing the sorted children back. */
  method SetChildren(n: TreeNode, cs: seq<TreeNode>, ghost pl: Plan, ghost keep: set<int>, ghost lv: set<int>)
    requires Sound(pl) && n.proc.pid in pl.m && n == pl.m[n.proc.pid] && n.proc.pid in lv
    requires InOrder(pl.t, pl.all, pl.m, cs, Some(n.proc.pid))
    requires Progress(pl, Snapshot(pl), keep + Covered(pl.t, Siblings(pl.t, pl.all, Some(n.proc.pid))), lv)
    modifies n`children
    ensures Progress(pl, Snapshot(pl), keep + Covered(pl.t, [n.proc.pid]), lv)
  {
    ghost var p, s := n.proc.pid, Snapshot(pl);
    n.children := cs;
    SnapshotChanged(pl, s[p := Fields(s[p].depth, cs)]);
    ProgressChildren(pl, s, p, cs, keep, lv);
  }

  /** `sortNodes`: sorts the nodes, sets their depth, and does the same below them. What was
      finished before stays finished. */
  method SortNodes(nodes: seq<TreeNode>, depth: nat, ghost pl: Plan, ghost par: Option<int>, ghost keep: set<int>, ghost lv: set<int>)
    returns (sorted: seq<TreeNode>)
    requires Sound(pl) && Hold(pl.t, pl.m, nodes, par) && Progress(pl, Snapshot(pl), keep, lv)
    requires forall i | 0 <= i < |nodes| :: NodeAt(pl, nodes[i], depth)
    modifies pl.heap
    ensures InOrder(pl.t, pl.all, pl.m, sorted, par)
    ensures Progress(pl, Snapshot(pl), keep + Covered(pl.t, Siblings(pl.t, pl.all, par)), lv)
    decreases |pl.t| - depth, 2
  {
    sorted := SortByPid(nodes);
    SortedInOrder(pl.t, pl.all, pl.m, nodes, par);
    SortedDepths(pl, nodes, par, depth);
    SortEach(sorted, depth, pl, keep, lv);
  }

  /** The loop of `sortNodes` over the sorted nodes. */
  method SortEach(sorted: seq<TreeNode>, depth: nat, ghost pl: Plan, ghost keep: set<int>, ghost lv: set<int>)
    requires Sound(pl) && Progress(pl, Snapshot(pl), keep, lv)
    requires forall i | 0 <= i < |sorted| :: NodeAt(pl, sorted[i], depth)
    modifies pl.heap
    ensures Progress(pl, Snapshot(pl), keep + Covered(pl.t, Pids(sorted)), lv)
    decreases |pl.t| - depth, 1
  {
    ghost var ps := Pids(sorted);
    ProgressStart(pl, Snapshot(pl), ps, keep, lv);
    for k := 0 to |sorted|
      invariant Progress(pl, Snapshot(pl), keep + Covered(pl.t, ps[..k]), lv)
    {
      SortBelow(sorted[k], depth, pl, keep + Covered(pl.t, ps[..k]), lv);
      ProgressNext(pl, Snapshot(pl), ps, k, keep, lv);
    }
    TakeAll(ps);
  }

  /** Sorting does not change which processes the nodes stand for, nor so their depths. */
  lemma SortedDepths(pl: Plan, ns: seq<TreeNode>, par: Option<int>, depth: nat)
    requires Hold(pl.t, pl.m, ns, par)
    requires forall i | 0 <= i < |ns| :: NodeAt(pl, ns[i], depth)
    ensures forall i | 0 <= i < |SortByPid(ns)| :: NodeAt(pl, SortByPid(ns)[i], depth)
  {
    SortByPidSorts(pl.m, ns);
    var s := SortByPid(ns);
    forall i | 0 <= i < |s| ensures NodeAt(pl, s[i], depth) {
      assert Pids(s)[i] in Pids(s) && Pids(s)[i] in Pids(ns);
      var k :| 0 <= k < |ns| && Pids(ns)[k] == Pids(s)[i];
      assert NodeAt(pl, ns[k], depth);
    }
  }

  /** The body of that loop. */
  method SortBelow(n: TreeNode, depth: nat, ghost pl: Plan, ghost keep: set<int>, ghost lv: set<int>)
    requires Sound(pl) && NodeAt(pl, n, depth) && Progress(pl, Snapshot(pl), keep, lv)
    modifies pl.heap
    ensures Progress(pl, Snapshot(pl), keep + Covered(pl.t, [n.proc.pid]), lv)
    decreases |pl.t| - depth, 0
  {
    ghost var p := n.proc.pid;
    DepthBound(pl.t, p, depth);
    SetDepth(n, depth, pl, keep, lv);
    KidsReady(pl, Snapshot(pl), p, depth, keep, lv + {p});
    if |n.children| > 0 {
      var cs := SortNodes(n.children, depth + 1, pl, Some(p), keep, lv + {p});
      SetChildren(n, cs, pl, keep, lv + {p});
    } else {
      ProgressLeaf(pl, Snapshot(pl), p, keep, lv + {p});
    }
    FewerLevels(pl, Snapshot(pl), keep + Covered(pl.t, [p]), lv, p);
  }

  lemma FewerLevels(pl: Plan, s: map<int, Fields>, keep: set<int>, lv: set<int>, p: int)
    requires Progress(pl, s, keep, lv + {p})
    ensures Progress(pl, s, keep, lv)
  {
  }

  /** The children of a process are ready to be sorted. */
  lemma KidsReady(pl: Plan, s: map<int, Fields>, p: int, depth: nat, keep: set<int>, lv: set<int>)
    requires Sound(pl) && Progress(pl, s, keep, lv) && p in s && p in pl.t && AtDepth(pl.t, p, depth)
    ensures Hold(pl.t, pl.m, s[p].children, Some(p))
    ensures forall i | 0 <= i < |s[p].children| :: NodeAt(pl, s[p].children[i], depth + 1)
  {
    KidDepths(pl, s[p].children, p, depth);
  }

  /** A process without children is finished as it is. */
  lemma ProgressLeaf(pl: Plan, s: map<int, Fields>, p: int, keep: set<int>, lv: set<int>)
    requires Sound(pl) && Progress(pl, s, keep, lv) && p in pl.t && p in s && p in lv && s[p].children == []
    ensures Progress(pl, s, keep + Covered(pl.t, [p]), lv)
  {
    SortedInOrder(pl.t, pl.all, pl.m, [], Some(p));
    NothingCovered(pl.t, Siblings(pl.t, pl.all, Some(p)));
    assert keep + {} == keep;
    ProgressChildren(pl, s, p, [], keep, lv);
    assert s[p := Fields(s[p].depth, [])] == s by {
      var u := s[p := Fields(s[p].depth, [])];
      assert u[p] == s[p];
      forall q | q in u ensures q in s && u[q] == s[q] {}
      forall q | q in u.Keys ensures q in s.Keys {}
      forall q | q in s.Keys ensures q in u.Keys {}
    }
  }

  lemma KidDepths(pl: Plan, ns: seq<TreeNode>, p: int, depth: nat)
    requires Sound(pl) && p in pl.t && AtDepth(pl.t, p, depth) && Hold(pl.t, pl.m, ns, Some(p))
    ensures forall i | 0 <= i < |ns| :: NodeAt(pl, ns[i], depth + 1)
  {
    forall i | 0 <= i < |ns| ensures NodeAt(pl, ns[i], depth + 1) {
      assert Pids(ns)[i] in Pids(ns);
      KidDepth(pl.t, ns[i].proc.pid, p, depth);
    }
  }

  // ---- from linked nodes to trees ----

  lemma {:induction false} LinkedMembers(t: Table, procs: seq<Proc>, par: Option<int>)
    requires DistinctPids(procs)
    ensures forall x :: x in Linked(t, procs, par) <==> (exists i :: 0 <= i < |procs| && procs[i].pid == x) && Parent(t, x) == par
    ensures forall i, j | 0 <= i < j < |Linked(t, procs, par)| :: Linked(t, procs, par)[i] != Linked(t, procs, par)[j]
  {
    if procs != [] {
      var front, last := procs[..|procs| - 1], procs[|procs| - 1];
      LinkedMembers(t, front, par);
      var r, f := Linked(t, procs, par), Linked(t, front, par);
      forall x ensures x in r <==> (exists i :: 0 <= i < |procs| && procs[i].pid == x) && Parent(t, x) == par {
        if x in f {
          var i :| 0 <= i < |front| && front[i].pid == x;
          assert procs[i].pid == x;
        }
        if i :| 0 <= i < |procs| && procs[i].pid == x && Parent(t, x) == par {
          assert i < |front| ==> front[i].pid == x;
        }
      }
      assert forall i | 0 <= i < |front| :: front[i].pid == procs[i].pid && front[i].pid != last.pid;
    }
  }

  /** Nodes linked in input order hold what they should. */
  lemma LinkedHolds(procs: seq<Proc>, m: map<int, TreeNode>, ns: seq<TreeNode>, par: Option<int>)
    requires DistinctPids(procs) && Indexed(m, ns) && Pids(ns) == Linked(TableOf(procs), procs, par)
    ensures Hold(TableOf(procs), m, ns, par)
  {
    var t := TableOf(procs);
    LinkedMembers(t, procs, par);
    TableEntries(procs);
    forall i, j | 0 <= i < j < |ns| ensures ns[i].proc.pid != ns[j].proc.pid {
      assert Pids(ns)[i] != Pids(ns)[j];
    }
    forall x ensures x in Pids(ns) <==> x in t && Parent(t, x) == par {
      if x in t {
        assert t[x] in procs;
        var i :| 0 <= i < |procs| && procs[i] == t[x];
        assert procs[i].pid == x;
      }
      if i :| 0 <= i < |procs| && procs[i].pid == x {
        assert procs[i] in procs;
      }
    }
  }

  lemma {:induction false} GrowAt(t: Table, all: seq<int>, ps: seq<int>, d: nat, fuel: nat, i: nat)
    requires forall k | 0 <= k < |all| :: all[k] in t
    requires forall k | 0 <= k < |ps| :: ps[k] in t
    requires fuel > 0 && i < |ps|
    ensures |Grow(t, all, ps, d, fuel)| == |ps|
    ensures Grow(t, all, ps, d, fuel)[i] == Tree(t[ps[i]], d, Grow(t, all, KidList(t, all, ps[i]), d + 1, fuel - 1))
    decreases |ps|
  {
    GrowLength(t, all, ps, d, fuel);
    if i > 0 {
      GrowAt(t, all, ps[1..], d, fuel, i - 1);
    }
  }

  /** Finished nodes are the trees grown from the table. */
  lemma {:induction false} DoneTrees(pl: Plan, ns: seq<TreeNode>, d: nat, fuel: nat)
    requires Sound(pl) && Run(pl.t, pl.all, Pids(ns), d, fuel) && Indexed(pl.m, ns)
    requires forall x | x in Covered(pl.t, Pids(ns)) :: Done(pl, Snapshot(pl), x)
    ensures AreTrees(ns, Grow(pl.t, pl.all, Pids(ns), d, fuel), pl.heap)
    decreases fuel, 1
  {
    var ts := Grow(pl.t, pl.all, Pids(ns), d, fuel);
    if ns != [] {
      DepthBound(pl.t, Pids(ns)[0], d);
      GrowLength(pl.t, pl.all, Pids(ns), d, fuel);
    }
    forall i | 0 <= i < |ns|
      ensures ns[i] in pl.heap && ns[i].proc == ts[i].proc && ns[i].depth == ts[i].depth && AreTrees(ns[i].children, ts[i].kids, pl.heap)
    {
      DoneTreeAt(pl, ns, d, fuel, i);
    }
  }

  lemma {:induction false} DoneTreeAt(pl: Plan, ns: seq<TreeNode>, d: nat, fuel: nat, i: nat)
    requires Sound(pl) && Run(pl.t, pl.all, Pids(ns), d, fuel) && Indexed(pl.m, ns) && i < |ns| && fuel > 0
    requires forall x | x in Covered(pl.t, Pids(ns)) :: Done(pl, Snapshot(pl), x)
    requires |Grow(pl.t, pl.all, Pids(ns), d, fuel)| == |ns|
    ensures var tree := Grow(pl.t, pl.all, Pids(ns), d, fuel)[i];
            ns[i] in pl.heap && ns[i].proc == tree.proc && ns[i].depth == tree.depth && AreTrees(ns[i].children, tree.kids, pl.heap)
    decreases fuel, 0
  {
    GrowAt(pl.t, pl.all, Pids(ns), d, fuel, i);
    DoneBelow(pl, Pids(ns), i, d, fuel);
    assert ns[i] == pl.m[Pids(ns)[i]];
    DoneTrees(pl, ns[i].children, d + 1, fuel - 1);
  }

  /** Below a finished process everything is finished, too. */
  lemma DoneBelow(pl: Plan, ps: seq<int>, i: nat, d: nat, fuel: nat)
    requires Sound(pl) && Run(pl.t, pl.all, ps, d, fuel) && i < |ps| && fuel > 0
    requires forall x | x in Covered(pl.t, ps) :: Done(pl, Snapshot(pl), x)
    ensures var p := ps[i];
            && p in pl.m && pl.m[p] in pl.heap && pl.m[p].proc == pl.t[p] && pl.m[p].depth == d
            && InOrder(pl.t, pl.all, pl.m, pl.m[p].children, Some(p))
            && Run(pl.t, pl.all, Siblings(pl.t, pl.all, Some(p)), d + 1, fuel - 1)
            && (forall x | x in Covered(pl.t, Siblings(pl.t, pl.all, Some(p))) :: Done(pl, Snapshot(pl), x))
  {
    var t, all, p := pl.t, pl.all, ps[i];
    assert Up(t, p, 0) == Some(p) && Under(t, p, ps[i]);
    assert p in Covered(t, ps) && Done(pl, Snapshot(pl), p);
    DepthUnique(t, p, d, pl.m[p].depth);
    RunSteps(t, all, [p], d, fuel);
    forall x | x in Covered(t, Siblings(t, all, Some(p))) ensures Done(pl, Snapshot(pl), x) {
      UnderFirst(t, all, p, x);
      assert Under(t, x, ps[i]);
      assert x in Covered(t, ps);
    }
  }

  // ---- building ----

  /** The first loop: one node per process. */
  method MakeNodes(procs: seq<Proc>) returns (byPID: map<int, TreeNode>, ghost heap: set<TreeNode>)
    ensures fresh(heap)
    ensures Index(TableOf(procs), byPID, heap)
    ensures forall p | p in byPID :: byPID[p].children == [] && byPID[p].depth == 0
  {
    byPID := map[];
    heap := {};
    for i := 0 to |procs|
      invariant fresh(heap)
      invariant forall p | p in TableOf(procs[..i]) :: p in byPID
      invariant forall p | p in byPID :: p in TableOf(procs[..i]) && byPID[p].proc == TableOf(procs[..i])[p]
      invariant forall p | p in byPID :: byPID[p] in heap && byPID[p].children == [] && byPID[p].depth == 0
    {
      var node := new TreeNode(procs[i]);
      assert procs[..i + 1][..i] == procs[..i];
      byPID := byPID[procs[i].pid := node];
      heap := heap + {node};
    }
    assert procs[..|procs|] == procs;
    TableEntries(procs);
  }

  /** The state of the second loop after the processes `done`. */
  ghost predicate Linking(pl: Plan, s: map<int, Fields>, roots: seq<TreeNode>, done: seq<Proc>) {
    && Indexed(pl.m, roots) && Pids(roots) == Linked(pl.t, done, None)
    && forall q | q in s :: Indexed(pl.m, s[q].children) && Pids(s[q].children) == Linked(pl.t, done, Some(q))
  }

  lemma PidsAppend(ns: seq<TreeNode>, n: TreeNode)
    ensures Pids(ns + [n]) == Pids(ns) + [n.proc.pid]
  {
  }

  lemma LinkedNext(t: Table, done: seq<Proc>, p: Proc, par: Option<int>)
    ensures Linked(t, done + [p], par) == Linked(t, done, par) + if Parent(t, p.pid) == par then [p.pid] else []
  {
    assert (done + [p])[..|done|] == done;
  }

  /** The next process joins its parent's children, or the roots. */
  lemma LinkStep(pl: Plan, s: map<int, Fields>, roots: seq<TreeNode>, done: seq<Proc>, p: Proc)
    requires Sound(pl) && Linking(pl, s, roots, done) && p.pid in pl.t && pl.t[p.pid] == p
    requires forall q | q in pl.t :: q in s
    ensures var node := pl.m[p.pid];
            match Parent(pl.t, p.pid)
            case None => Linking(pl, s, roots + [node], done + [p])
            case Some(q) => Linking(pl, s[q := Fields(s[q].depth, s[q].children + [node])], roots, done + [p])
  {
    var node := pl.m[p.pid];
    LinkedNext(pl.t, done, p, None);
    PidsAppend(roots, node);
    var par := Parent(pl.t, p.pid);
    var u := if par == None then s else s[par.value := Fields(s[par.value].depth, s[par.value].children + [node])];
    forall q | q in u ensures Indexed(pl.m, u[q].children) && Pids(u[q].children) == Linked(pl.t, done + [p], Some(q)) {
      LinkedNext(pl.t, done, p, Some(q));
      PidsAppend(s[q].children, node);
    }
  }

  /** The second loop: each process is appended to its parent's children, or to the roots. */
  method LinkNodes(procs: seq<Proc>, byPID: map<int, TreeNode>, ghost pl: Plan) returns (roots: seq<TreeNode>)
    requires DistinctPids(procs) && Sound(pl) && pl.t == TableOf(procs) && pl.m == byPID
    requires forall p | p in byPID :: byPID[p].children == []
    modifies pl.heap
    ensures Linking(pl, Snapshot(pl), roots, procs)
  {
    TableFaithful(procs);
    roots := [];
    for i := 0 to |procs|
      invariant Linking(pl, Snapshot(pl), roots, procs[..i])
    {
      roots := LinkOne(procs[i], roots, byPID, pl, procs[..i]);
      TakeNext(procs, i);
    }
    TakeAll(procs);
  }

  /** The body of that loop. */
  method LinkOne(p: Proc, roots: seq<TreeNode>, byPID: map<int, TreeNode>, ghost pl: Plan, ghost done: seq<Proc>)
    returns (roots': seq<TreeNode>)
    requires Sound(pl) && pl.m == byPID && Linking(pl, Snapshot(pl), roots, done)
    requires p.pid in pl.t && pl.t[p.pid] == p
    modifies pl.heap
    ensures Linking(pl, Snapshot(pl), roots', done + [p])
  {
    ghost var s := Snapshot(pl);
    LinkStep(pl, s, roots, done, p);
    roots' := roots;
    var node := byPID[p.pid];
    if p.ppid in byPID && p.ppid != p.pid {
      var parent := byPID[p.ppid];
      parent.children := parent.children + [node];
      SnapshotChanged(pl, s[p.ppid := Fields(s[p.ppid].depth, s[p.ppid].children + [node])]);
    } else {
      roots' := roots + [node];
    }
  }

  /** The forest of a process list. */
  ghost function ForestOf(procs: seq<Proc>): seq<Tree> {
    SortedPidsCensus(procs);
    Forest(TableOf(procs), SortedPids(procs))
  }

  method BuildProcessTree(procs: seq<Proc>) returns (roots: seq<TreeNode>, ghost heap: set<TreeNode>)
    requires DistinctPids(procs)
    ensures fresh(heap)
    ensures AreTrees(roots, ForestOf(procs), heap)
  {
    var byPID;
    byPID, heap := MakeNodes(procs);
    SortedPidsCensus(procs);
    ghost var pl := Plan(TableOf(procs), SortedPids(procs), byPID, heap);
    roots := LinkNodes(procs, byPID, pl);
    LinkedReady(procs, pl, Snapshot(pl), roots);
    roots := SortNodes(roots, 0, pl, None, {}, {});
    RootsRun(pl.t, pl.all);
    DoneTrees(pl, roots, 0, |pl.t|);
  }

  /** After linking, the sort can start at the roots. */
  lemma LinkedReady(procs: seq<Proc>, pl: Plan, s: map<int, Fields>, roots: seq<TreeNode>)
    requires DistinctPids(procs) && Sound(pl) && pl.t == TableOf(procs) && Linking(pl, s, roots, procs)
    ensures Hold(pl.t, pl.m, roots, None) && Progress(pl, s, {}, {})
    ensures forall i | 0 <= i < |roots| :: NodeAt(pl, roots[i], 0)
  {
    LinkedHolds(procs, pl.m, roots, None);
    forall p | p in s ensures Hold(pl.t, pl.m, s[p].children, Some(p)) {
      LinkedHolds(procs, pl.m, s[p].children, Some(p));
    }
    RootsAt(pl, roots);
  }

  lemma RootsAt(pl: Plan, ns: seq<TreeNode>)
    requires Sound(pl) && Hold(pl.t, pl.m, ns, None)
    ensures forall i | 0 <= i < |ns| :: NodeAt(pl, ns[i], 0)
  {
    forall i | 0 <= i < |ns| ensures NodeAt(pl, ns[i], 0) {
      assert Pids(ns)[i] in Pids(ns);
    }
  }
}
