/**
 What the tree view shows for a process list with distinct PIDs, whatever its parent links
 and whatever the order of the list.
 */
module ProcessView {
  import opened Options
  import opened Ancestry
  import opened Preorder
  import opened TreeDrawing
  import opened ProcessTree

  /** The forest of a process list, flattened. */
  ghost function FlatTree(procs: seq<Proc>): seq<Proc> {
    Walk(ForestOf(procs), "")
  }

  /** The tree view of a process list: build, then flatten. */
  method TreeView(procs: seq<Proc>) returns (result: seq<Proc>)
    requires DistinctPids(procs)
    ensures result == FlatTree(procs)
  {
    ghost var heap;
    var roots;
    roots, heap := BuildProcessTree(procs);
    result := FlattenTree(roots, ForestOf(procs), heap);
  }

  /** The PIDs of the tree view, from top to bottom. */
  ghost function Order(procs: seq<Proc>): seq<int> {
    Listing(TableOf(procs), SortedPids(procs))
  }

  function PidsOf(procs: seq<Proc>): (ps: seq<int>)
    ensures |ps| == |procs| && forall i | 0 <= i < |procs| :: ps[i] == procs[i].pid
  {
    seq(|procs|, i requires 0 <= i < |procs| => procs[i].pid)
  }

  /** The view is a faithful outline, drawn with the right connectors, of exactly the processes
      whose ancestor chain reaches a root, cycles or not. */
  lemma FlatTreeFaithful(procs: seq<Proc>)
    requires DistinctPids(procs)
    ensures Draws(TableOf(procs), Order(procs), FlatTree(procs)) && PidsOf(FlatTree(procs)) == Order(procs)
    ensures Outline(TableOf(procs), Order(procs))
    ensures forall x :: x in Order(procs) <==> Rooted(TableOf(procs), x)
  {
    var t, all := TableOf(procs), SortedPids(procs);
    SortedPidsCensus(procs);
    ForestDraws(t, all);
    ListingOutline(t, all);
    TableEntries(procs);
  }

  /** Above a process at depth `d >= 1`, the nearest process that is not as deep is its parent. */
  lemma ParentAbove(procs: seq<Proc>, k: nat, d: nat) returns (j: nat)
    requires DistinctPids(procs) && k < |Order(procs)| && d >= 1 && AtDepth(TableOf(procs), Order(procs)[k], d)
    ensures j < k && Parent(TableOf(procs), Order(procs)[k]) == Some(Order(procs)[j])
    ensures AtDepth(TableOf(procs), Order(procs)[j], d - 1)
    ensures forall m, e: nat | j < m < k && AtDepth(TableOf(procs), Order(procs)[m], e) :: e >= d
  {
    var t, s := TableOf(procs), Order(procs);
    SortedPidsCensus(procs);
    ListingOutline(t, SortedPids(procs));
    RootEnds(t, s[k], d);
    j := ParentListed(t, SortedPids(procs), k);
    NearestShallowerIsParent(t, s, k, d, j);
  }

  // ---- the order of the list does not matter ----

  /** A process occurs at most once in a list with distinct PIDs. */
  lemma {:induction false} OccursOnce(a: seq<Proc>, q: Proc)
    requires DistinctPids(a)
    ensures multiset(a)[q] <= 1
  {
    if a != [] {
      var front, last := a[..|a| - 1], a[|a| - 1];
      assert a == front + [last];
      OccursOnce(front, q);
    }
  }

  lemma OccursTwice(b: seq<Proc>, i: nat, j: nat)
    requires i < j < |b| && b[i] == b[j]
    ensures multiset(b)[b[i]] >= 2
  {
    var x, y := b[..j], b[j..];
    assert b == x + y;
    assert x[i] in x && y[0] in y;
    assert multiset(b) == multiset(x) + multiset(y);
  }

  lemma PermutedDistinct(a: seq<Proc>, b: seq<Proc>)
    requires DistinctPids(a) && multiset(a) == multiset(b)
    ensures DistinctPids(b)
  {
    forall i, j | 0 <= i < j < |b| ensures b[i].pid != b[j].pid {
      if b[i] == b[j] {
        OccursTwice(b, i, j);
        OccursOnce(a, b[i]);
      } else {
        assert b[i] in multiset(b) && b[j] in multiset(b);
        assert b[i] in a && b[j] in a;
      }
    }
  }

  /** Permuting the process list leaves the view as it is. */
  lemma OrderIndependence(a: seq<Proc>, b: seq<Proc>)
    requires DistinctPids(a) && multiset(a) == multiset(b)
    ensures FlatTree(a) == FlatTree(b)
  {
    PermutedDistinct(a, b);
    TableOrder(a, b);
    SortedPidsCensus(a);
    SortedPidsCensus(b);
    AscendingUnique(SortedPids(a), SortedPids(b));
  }

  // ---- completeness ----

  predicate AllDifferent(s: seq<int>) {
    forall i, j | 0 <= i < j < |s| :: s[i] != s[j]
  }

  lemma {:induction false} CountDifferent(s: seq<int>, x: int)
    requires AllDifferent(s)
    ensures multiset(s)[x] == if x in s then 1 else 0
  {
    if s != [] {
      var front, last := s[..|s| - 1], s[|s| - 1];
      assert s == front + [last];
      CountDifferent(front, x);
      assert last !in front;
    }
  }

  lemma SameMembers(a: seq<int>, b: seq<int>)
    requires AllDifferent(a) && AllDifferent(b)
    ensures multiset(a) == multiset(b) <==> forall x :: x in a <==> x in b
  {
    if multiset(a) == multiset(b) {
      forall x ensures x in a <==> x in b {
        assert x in multiset(a) <==> x in multiset(b);
      }
    }
    if forall x :: x in a <==> x in b {
      forall x ensures multiset(a)[x] == multiset(b)[x] {
        CountDifferent(a, x);
        CountDifferent(b, x);
      }
    }
  }

  /** The view is a permutation of the list exactly when no process is its own ancestor over a
      cycle of two or more parent links. */
  lemma PermutationIffNoCycle(procs: seq<Proc>)
    requires DistinctPids(procs)
    ensures multiset(PidsOf(FlatTree(procs))) == multiset(PidsOf(procs)) <==> NoCycle(TableOf(procs))
  {
    var t, s, ps := TableOf(procs), Order(procs), PidsOf(procs);
    FlatTreeFaithful(procs);
    SameMembers(s, ps);
    InputPids(procs);
    SortedPidsCensus(procs);
    ListingCompleteIff(t, SortedPids(procs));
  }

  /** Two processes that are each other's parent are not in the view, and so it is not a permutation
      of the list. */
  lemma MutualParentsHidden(procs: seq<Proc>, p: Proc, q: Proc)
    requires DistinctPids(procs) && p in procs && q in procs
    requires p.pid != q.pid && p.ppid == q.pid && q.ppid == p.pid
    ensures p.pid !in PidsOf(FlatTree(procs)) && q.pid !in PidsOf(FlatTree(procs))
    ensures multiset(PidsOf(FlatTree(procs))) != multiset(PidsOf(procs))
  {
    var t := TableOf(procs);
    TableFaithful(procs);
    FlatTreeFaithful(procs);
    assert Up(t, p.pid, 1) == Up(t, q.pid, 0) && Up(t, q.pid, 1) == Up(t, p.pid, 0);
    MutualNeverRooted(t, p.pid, q.pid);
    PermutationIffNoCycle(procs);
    assert Up(t, p.pid, 2) == Up(t, q.pid, 1) == Some(p.pid);
  }

  lemma {:induction false} MutualAtNoDepth(t: Table, p: int, q: int, d: nat)
    requires Parent(t, p) == Some(q) && Parent(t, q) == Some(p)
    ensures !AtDepth(t, p, d) && !AtDepth(t, q, d)
  {
    if d > 0 {
      MutualAtNoDepth(t, p, q, d - 1);
    }
  }

  lemma MutualNeverRooted(t: Table, p: int, q: int)
    requires Parent(t, p) == Some(q) && Parent(t, q) == Some(p)
    ensures !Rooted(t, p) && !Rooted(t, q)
  {
    forall d: nat ensures !AtDepth(t, p, d) && !AtDepth(t, q, d) {
      MutualAtNoDepth(t, p, q, d);
    }
  }

  /** Two such processes alone: nothing is shown. */
  lemma MutualPairShowsNothing(p: Proc, q: Proc)
    requires p.pid != q.pid && p.ppid == q.pid && q.ppid == p.pid
    ensures DistinctPids([p, q]) && FlatTree([p, q]) == []
  {
    var procs := [p, q];
    MutualParentsHidden(procs, p, q);
    FlatTreeFaithful(procs);
    if PidsOf(FlatTree(procs)) != [] {
      var x := PidsOf(FlatTree(procs))[0];
      assert x in Order(procs);
      PairTable(procs, x);
    }
  }

  lemma PairTable(procs: seq<Proc>, x: int)
    requires |procs| == 2 && DistinctPids(procs) && x in TableOf(procs)
    ensures x == procs[0].pid || x == procs[1].pid
  {
    InputPids(procs);
    assert x in PidsOf(procs);
  }

  lemma InputPids(procs: seq<Proc>)
    ensures forall x :: x in PidsOf(procs) <==> x in TableOf(procs)
  {
    TableEntries(procs);
    forall x ensures x in PidsOf(procs) <==> x in TableOf(procs) {
      if x in TableOf(procs) {
        var i :| 0 <= i < |procs| && procs[i] == TableOf(procs)[x];
        assert PidsOf(procs)[i] == x;
      }
      if x in PidsOf(procs) {
        var i :| 0 <= i < |procs| && PidsOf(procs)[i] == x;
        assert procs[i] in procs;
      }
    }
  }
}
