/**
 Parent links of a process list: ancestors, depth, roots, cycles. A process whose parent is
 not in the list, or is itself, is a root.
 */
module Ancestry {
  import opened Options

  datatype Proc = Proc(pid: int, ppid: int, displayName: string)

  type Table = map<int, Proc>

  /** Processes by PID. A later entry replaces an earlier one with the same PID. */
  function TableOf(procs: seq<Proc>): Table {
    if procs == [] then map[]
    else
      var last := procs[|procs| - 1];
      TableOf(procs[..|procs| - 1])[last.pid := last]
  }

  predicate DistinctPids(procs: seq<Proc>) {
    forall i, j | 0 <= i < j < |procs| :: procs[i].pid != procs[j].pid
  }

  predicate Keyed(t: Table) {
    forall p | p in t :: t[p].pid == p
  }

  lemma {:induction false} TableEntries(procs: seq<Proc>)
    ensures Keyed(TableOf(procs))
    ensures forall p | p in TableOf(procs) :: TableOf(procs)[p] in procs
    ensures forall q | q in procs :: q.pid in TableOf(procs)
  {
    if procs != [] {
      var front, last := procs[..|procs| - 1], procs[|procs| - 1];
      TableEntries(front);
      assert procs == front + [last];
    }
  }

  /** With distinct PIDs every process is the entry of its PID. */
  lemma {:induction false} TableFaithful(procs: seq<Proc>)
    requires DistinctPids(procs)
    ensures forall q | q in procs :: q.pid in TableOf(procs) && TableOf(procs)[q.pid] == q
    ensures |TableOf(procs)| == |procs|
  {
    if procs != [] {
      var front, last := procs[..|procs| - 1], procs[|procs| - 1];
      assert procs == front + [last];
      TableFaithful(front);
      TableEntries(front);
      assert forall q | q in front :: q.pid != last.pid;
    }
  }

  lemma TableWithin(a: seq<Proc>, b: seq<Proc>)
    requires DistinctPids(b) && forall q | q in a :: q in b
    ensures forall p | p in TableOf(a) :: p in TableOf(b) && TableOf(b)[p] == TableOf(a)[p]
  {
    TableEntries(a);
    TableFaithful(b);
  }

  /** The table does not depend on the order of the list. */
  lemma TableOrder(a: seq<Proc>, b: seq<Proc>)
    requires DistinctPids(a) && DistinctPids(b) && multiset(a) == multiset(b)
    ensures TableOf(a) == TableOf(b)
  {
    assert forall q | q in a :: q in multiset(a);
    assert forall q | q in b :: q in multiset(b);
    TableWithin(a, b);
    TableWithin(b, a);
    forall p | p in TableOf(a).Keys ensures p in TableOf(b).Keys {}
    forall p | p in TableOf(b).Keys ensures p in TableOf(a).Keys {}
    forall p | p in TableOf(a) ensures TableOf(a)[p] == TableOf(b)[p] {}
  }

  // ---- ancestors ----

  function Parent(t: Table, p: int): Option<int> {
    if p in t && t[p].ppid in t && t[p].ppid != p then Some(t[p].ppid) else None
  }

  function Kids(t: Table, p: int): set<int> {
    set c | c in t && Parent(t, c) == Some(p)
  }

  /** The `k`-th ancestor, if the chain of parents is that long. */
  function Up(t: Table, p: int, k: nat): (a: Option<int>)
    ensures p in t && a.Some? ==> a.value in t
    decreases k
  {
    if k == 0 then Some(p)
    else match Parent(t, p) case None => None case Some(q) => Up(t, q, k - 1)
  }

  /** The chain of parents reaches a root after exactly `d` steps. */
  predicate AtDepth(t: Table, p: int, d: nat) {
    Up(t, p, d).Some? && Parent(t, Up(t, p, d).value) == None
  }

  ghost predicate Rooted(t: Table, p: int) {
    p in t && exists d: nat :: AtDepth(t, p, d)
  }

  /** `p` is `a` or descends from it. */
  ghost predicate Under(t: Table, p: int, a: int) {
    p in t && exists k: nat :: Up(t, p, k) == Some(a)
  }

  lemma {:induction false} UpAdd(t: Table, p: int, j: nat, k: nat)
    requires p in t && Up(t, p, j).Some?
    ensures Up(t, p, j + k) == Up(t, Up(t, p, j).value, k)
    decreases j
  {
    if j > 0 {
      UpAdd(t, Parent(t, p).value, j - 1, k);
    }
  }

  lemma {:induction false} UpShorter(t: Table, p: int, j: nat, k: nat)
    requires p in t && j <= k && Up(t, p, k).Some?
    ensures Up(t, p, j).Some?
    decreases j
  {
    if j > 0 {
      UpShorter(t, Parent(t, p).value, j - 1, k - 1);
    }
  }

  /** The chain ends at a root. */
  lemma RootEnds(t: Table, p: int, k: nat)
    requires p in t
    ensures k >= 1 && Parent(t, p) == None ==> Up(t, p, k) == None
  {
  }

  /** The chain of a process is no longer than its depth. */
  lemma ChainEnds(t: Table, p: int, d: nat, k: nat)
    requires p in t && AtDepth(t, p, d) && k > d
    ensures Up(t, p, k) == None
  {
    UpAdd(t, p, d, k - d);
    RootEnds(t, Up(t, p, d).value, k - d);
  }

  /** A process has at most one depth, and its `k`-th ancestor is `k` levels up. */
  lemma DepthUnique(t: Table, p: int, d: nat, k: nat)
    requires p in t && AtDepth(t, p, d)
    ensures Up(t, p, k).Some? ==> k <= d && AtDepth(t, Up(t, p, k).value, d - k)
    ensures AtDepth(t, p, k) ==> k == d
  {
    if k > d {
      ChainEnds(t, p, d, k);
    } else if Up(t, p, k).Some? {
      UpAdd(t, p, k, d - k);
      RootEnds(t, Up(t, p, k).value, d - k);
    }
  }

  /** Moving to a child adds one to the depth. */
  lemma KidDepth(t: Table, c: int, p: int, d: nat)
    requires p in t && c in t && Parent(t, c) == Some(p)
    ensures AtDepth(t, c, d + 1) == AtDepth(t, p, d)
  {
    assert Up(t, c, d + 1) == Up(t, p, d);
  }

  lemma UnderStep(t: Table, x: int, p: int)
    requires p in t
    ensures Under(t, x, p) <==> x == p || exists c | c in Kids(t, p) :: Under(t, x, c)
  {
    if x == p {
      assert Up(t, x, 0) == Some(p);
    }
    if Under(t, x, p) && x != p {
      var k: nat :| Up(t, x, k) == Some(p);
      UpShorter(t, x, k - 1, k);
      var c := Up(t, x, k - 1).value;
      UpAdd(t, x, k - 1, 1);
      assert Up(t, c, 1) == Some(p);
      assert c in Kids(t, p) && Under(t, x, c);
    }
    if c :| c in Kids(t, p) && Under(t, x, c) {
      var k: nat :| Up(t, x, k) == Some(c);
      UpAdd(t, x, k, 1);
      assert Up(t, c, 1) == Some(p);
      assert Up(t, x, k + 1) == Some(p);
    }
  }

  /** Two processes of the same depth have no common descendant. */
  lemma UnderApart(t: Table, x: int, p: int, q: int, d: nat)
    requires p in t && q in t && AtDepth(t, p, d) && AtDepth(t, q, d)
    requires Under(t, x, p) && Under(t, x, q)
    ensures p == q
  {
    var j: nat :| Up(t, x, j) == Some(p);
    var k: nat :| Up(t, x, k) == Some(q);
    UpAdd(t, x, j, d);
    UpAdd(t, x, k, d);
    assert AtDepth(t, x, j + d) && AtDepth(t, x, k + d);
    DepthUnique(t, x, j + d, k + d);
  }

  // ---- counting ----

  /** The ancestors of `p` at distances below `n`. */
  ghost function Chain(t: Table, p: int, n: nat): set<int>
    requires forall k | 0 <= k < n :: Up(t, p, k).Some?
  {
    set k | 0 <= k < n :: Up(t, p, k).value
  }

  /** The first `n` ancestors of `p` are pairwise different. */
  ghost predicate NoRepeat(t: Table, p: int, n: nat) {
    forall i, j | 0 <= i < j < n :: Up(t, p, i) != Up(t, p, j)
  }

  lemma ChainGrows(t: Table, p: int, n: nat)
    requires p in t && forall k | 0 <= k < n + 1 :: Up(t, p, k).Some?
    requires NoRepeat(t, p, n + 1)
    ensures Chain(t, p, n + 1) == Chain(t, p, n) + {Up(t, p, n).value}
    ensures Up(t, p, n).value !in Chain(t, p, n)
  {
    forall k | 0 <= k < n ensures Up(t, p, k).value != Up(t, p, n).value {
      assert Up(t, p, k) != Up(t, p, n);
    }
  }

  lemma {:induction false} ChainSize(t: Table, p: int, n: nat)
    requires p in t && forall k | 0 <= k < n :: Up(t, p, k).Some?
    requires NoRepeat(t, p, n)
    ensures |Chain(t, p, n)| == n && Chain(t, p, n) <= t.Keys
    decreases n
  {
    if n > 0 {
      ChainSize(t, p, n - 1);
      ChainGrows(t, p, n - 1);
    } else {
      assert Chain(t, p, n) == {};
    }
  }

  lemma {:induction false} SubsetSize<T>(a: set<T>, b: set<T>)
    requires a <= b
    ensures |a| <= |b|
  {
    if a != {} {
      var x :| x in a;
      SubsetSize(a - {x}, b - {x});
    }
  }

  /** A repeated ancestor at distances `i < j` closes a cycle, which no rooted process has. */
  lemma RepeatNotRooted(t: Table, p: int, i: nat, j: nat, d: nat)
    requires p in t && i < j && Up(t, p, i).Some? && Up(t, p, i) == Up(t, p, j)
    ensures !AtDepth(t, p, d)
  {
    if AtDepth(t, p, d) {
      DepthUnique(t, p, d, i);
      DepthUnique(t, p, d, j);
      var q := Up(t, p, i).value;
      DepthUnique(t, q, d - i, d - j);
    }
  }

  /** Depths stay below the number of processes. */
  lemma DepthBound(t: Table, p: int, d: nat)
    requires p in t && AtDepth(t, p, d)
    ensures d < |t|
  {
    forall k | 0 <= k < d + 1 ensures Up(t, p, k).Some? {
      UpShorter(t, p, k, d);
    }
    forall i, j | 0 <= i < j < d + 1 ensures Up(t, p, i) != Up(t, p, j) {
      if Up(t, p, i) == Up(t, p, j) {
        RepeatNotRooted(t, p, i, j, d);
      }
    }
    ChainSize(t, p, d + 1);
    SubsetSize(Chain(t, p, d + 1), t.Keys);
  }

  // ---- cycles ----

  /** No process is its own ancestor; a self-parented process counts as a root, not a cycle. */
  ghost predicate NoCycle(t: Table) {
    forall p, k: nat | p in t && k >= 1 :: Up(t, p, k) != Some(p)
  }

  lemma {:induction false} NotRootedClimbs(t: Table, p: int, k: nat)
    requires p in t && !Rooted(t, p)
    ensures Up(t, p, k).Some?
  {
    if k > 0 {
      NotRootedClimbs(t, p, k - 1);
      UpAdd(t, p, k - 1, 1);
      assert !AtDepth(t, p, k - 1);
    }
  }

  /** Every process reaches a root exactly when the parent links have no cycle of length two
      or more. */
  lemma AllRootedIffNoCycle(t: Table)
    ensures (forall p | p in t :: Rooted(t, p)) <==> NoCycle(t)
  {
    if !NoCycle(t) {
      var p, k: nat :| p in t && k >= 1 && Up(t, p, k) == Some(p);
      if Rooted(t, p) {
        var d: nat :| AtDepth(t, p, d);
        RepeatNotRooted(t, p, 0, k, d);
      }
    }
    if p :| p in t && !Rooted(t, p) {
      var n := |t| + 1;
      forall k | 0 <= k < n ensures Up(t, p, k).Some? {
        NotRootedClimbs(t, p, k);
      }
      if NoRepeat(t, p, n) {
        ChainSize(t, p, n);
        SubsetSize(Chain(t, p, n), t.Keys);
      }
      var i: nat, j: nat :| i < j < n && Up(t, p, i) == Up(t, p, j);
      UpAdd(t, p, i, j - i);
      var q := Up(t, p, i).value;
      assert Up(t, q, j - i) == Some(q);
    }
  }
}
