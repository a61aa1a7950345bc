/**
 The bus cannot deadlock: while any thread is inside a call, some thread can take a step, and
 the threads only have finitely many steps to take before every call has returned.
 */
module BusProgress {
  import opened BusProtocol
  import opened BusSafety

  /** How many phases of its call a thread still has before it. */
  function Rank(pc: PC): nat {
    match pc
    case Idle => 0
    case WaitRead => 2
    case Loop(_, _) => 1
    case WaitWrite(_) => 4
    case Announced(_) => 3
    case Closing(_) => 2
    case Sweep(_, _) => 2
    case Unlocking => 1
  }

  /** The topics and the channels that the loops still have before them. */
  function Topics(pc: PC): nat {
    if pc.Sweep? then |pc.todo| else 0
  }

  function Left(s: State, pc: PC): nat {
    match pc
    case Loop(list, i) => if i < |list| then |list| - i else 0
    case Sweep(todo, k) => if todo != [] && k < |Subs(s, todo[0])| then |Subs(s, todo[0])| - k else 0
    case _ => 0
  }

  function Sum(w: seq<nat>): nat {
    if w == [] then 0 else w[0] + Sum(w[1..])
  }

  lemma {:induction false} SumUpdate(w: seq<nat>, i: nat, v: nat)
    requires i < |w|
    ensures Sum(w[i := v]) + w[i] == Sum(w) + v
  {
    if i == 0 {
      assert w[0 := v][1..] == w[1..];
    } else {
      assert w[i := v][1..] == w[1..][i - 1 := v];
      SumUpdate(w[1..], i - 1, v);
    }
  }

  function Ranks(s: State): (w: seq<nat>)
    ensures |w| == |s.pcs| && forall p | 0 <= p < |w| :: w[p] == Rank(s.pcs[p])
  {
    seq(|s.pcs|, p requires 0 <= p < |s.pcs| => Rank(s.pcs[p]))
  }

  function AllTopics(s: State): (w: seq<nat>)
    ensures |w| == |s.pcs| && forall p | 0 <= p < |w| :: w[p] == Topics(s.pcs[p])
  {
    seq(|s.pcs|, p requires 0 <= p < |s.pcs| => Topics(s.pcs[p]))
  }

  function AllLeft(s: State): (w: seq<nat>)
    ensures |w| == |s.pcs| && forall p | 0 <= p < |w| :: w[p] == Left(s, s.pcs[p])
  {
    seq(|s.pcs|, p requires 0 <= p < |s.pcs| => Left(s, s.pcs[p]))
  }

  /** The work before the threads, to be compared lexicographically. */
  datatype Work = Work(phases: nat, topics: nat, channels: nat)

  function Remaining(s: State): Work {
    Work(Sum(Ranks(s)), Sum(AllTopics(s)), Sum(AllLeft(s)))
  }

  predicate Less(a: Work, b: Work) {
    || a.phases < b.phases
    || (a.phases == b.phases && a.topics < b.topics)
    || (a.phases == b.phases && a.topics == b.topics && a.channels < b.channels)
  }

  /** Thread `p` alone has moved on: to a later phase, past a topic, or past a channel. */
  ghost predicate MovedOn(s: State, s': State, p: nat) {
    && p < |s.pcs| == |s'.pcs| && (forall q | 0 <= q < |s.pcs| && q != p :: s'.pcs[q] == s.pcs[q])
    && var pc, pc' := s.pcs[p], s'.pcs[p];
       || Rank(pc') < Rank(pc)
       || (Rank(pc') == Rank(pc) && Topics(pc') < Topics(pc))
       || (Rank(pc') == Rank(pc) && Topics(pc') == Topics(pc) && s'.subs == s.subs && Left(s', pc') < Left(s, pc))
  }

  lemma StepMoves(s: State, p: nat, order: seq<string>)
    requires Sized(s) && p < |s.pcs| && Ready(s, s.pcs[p])
    ensures MovedOn(s, Stepped(s, p, order), p)
  {
  }

  lemma MovedLess(s: State, s': State, p: nat)
    requires MovedOn(s, s', p)
    ensures Less(Remaining(s'), Remaining(s))
  {
    assert Ranks(s') == Ranks(s)[p := Rank(s'.pcs[p])];
    SumUpdate(Ranks(s), p, Rank(s'.pcs[p]));
    assert AllTopics(s') == AllTopics(s)[p := Topics(s'.pcs[p])];
    SumUpdate(AllTopics(s), p, Topics(s'.pcs[p]));
    if s'.subs == s.subs {
      assert AllLeft(s') == AllLeft(s)[p := Left(s', s'.pcs[p])];
      SumUpdate(AllLeft(s), p, Left(s', s'.pcs[p]));
    }
  }

  /** Every step leaves less to do. */
  lemma StepProgress(s: State, p: nat, order: seq<string>)
    requires Sized(s) && p < |s.pcs| && Ready(s, s.pcs[p])
    ensures Less(Remaining(Stepped(s, p, order)), Remaining(s))
  {
    StepMoves(s, p, order);
    MovedLess(s, Stepped(s, p, order), p);
  }

  /** While a thread is inside a call, some thread is ready. A publisher that has the lock is
      always ready itself: it never waits for a receiver. */
  lemma SomeReady(s: State, q: nat) returns (p: nat)
    requires Inv(s) && q < |s.pcs| && s.pcs[q] != Idle
    ensures p < |s.pcs| && Ready(s, s.pcs[p])
    ensures s.pcs[q].Loop? ==> p == q
  {
    p := q;
    if s.writer.Some? && !s.pcs[q].Loop? {
      p := s.writer.value;
      if s.pcs[p].Announced? && s.readers != {} {
        p := Member(s.readers);
        assert s.pcs[p].Loop?;
      }
    }
  }

  lemma Member<T>(s: set<T>) returns (x: T)
    requires s != {}
    ensures x in s
  {
    x :| x in s;
  }

  lemma {:induction false} ListOf<T>(s: set<T>) returns (r: seq<T>)
    ensures forall i, j | 0 <= i < j < |r| :: r[i] != r[j]
    ensures forall x :: x in r <==> x in s
    decreases s
  {
    r := [];
    if s != {} {
      var x := Member(s);
      r := ListOf(s - {x});
      r := r + [x];
    }
  }

  predicate AllIdle(s: State) {
    forall p | 0 <= p < |s.pcs| :: s.pcs[p] == Idle
  }

  /** From every reachable state, the threads can go on by themselves until every call has
      returned. */
  lemma {:induction false} Settles(s: State) returns (run: seq<Action>)
    requires Inv(s)
    ensures forall k | 0 <= k < |run| :: run[k].Step?
    ensures Possible(s, run) && AllIdle(After(s, run))
    decreases Remaining(s).phases, Remaining(s).topics, Remaining(s).channels
  {
    run := [];
    if !AllIdle(s) {
      var q :| 0 <= q < |s.pcs| && s.pcs[q] != Idle;
      var p := SomeReady(s, q);
      var order := ListOf(s.subs.Keys);
      StepProgress(s, p, order);
      KeepInv(s, Step(p, order));
      var rest := Settles(Next(s, Step(p, order)));
      run := [Step(p, order)] + rest;
    }
  }
}
