/**
 Runs of the registry: what subscribers get from end to end, and that `StopAll` returns, with no
 goroutine left.
 */
module Shutdown {
  import opened BusProtocol
  import opened BusTopics
  import opened BusDelivery
  import opened BusProgress
  import opened Registry

  /** Every move keeps the registry sound. */
  lemma KeepSound(r: System, m: Move)
    requires Sound(r) && CanMove(r, m)
    ensures Sound(Moved(r, m))
  {
    BusKept(r, m);
    RunHistory(r.bus, BusRun(m));
    RunOwnTopics(r.bus, BusRun(m));
    SvcsKept(r, m);
    CountKept(r, m);
  }

  // ---- whole runs ----

  ghost predicate CanRun(r: System, run: seq<Move>)
    requires Fits(r)
    decreases |run|
  {
    run == [] || (CanMove(r, run[0]) && (BusKept(r, run[0]); CanRun(Moved(r, run[0]), run[1..])))
  }

  ghost function Result(r: System, run: seq<Move>): (e: System)
    requires Fits(r) && CanRun(r, run)
    ensures Fits(e)
    decreases |run|
  {
    if run == [] then r else (BusKept(r, run[0]); Result(Moved(r, run[0]), run[1..]))
  }

  /** No move adds a service or changes a topic. */
  predicate SameParts(r: System, e: System) {
    |e.svcs| == |r.svcs| && e.bus.topic == r.bus.topic
  }

  lemma PartsStay(r: System, m: Move)
    requires Fits(r) && CanMove(r, m)
    ensures SameParts(r, Moved(r, m))
  {
  }

  lemma {:induction false} RunSound(r: System, run: seq<Move>)
    requires Sound(r) && CanRun(r, run)
    ensures Sound(Result(r, run)) && SameParts(r, Result(r, run))
    decreases |run|
  {
    if run != [] {
      KeepSound(r, run[0]);
      PartsStay(r, run[0]);
      RunSound(Moved(r, run[0]), run[1..]);
    }
  }

  /** In every reachable state the wait group counts the bridges and services that have started
      and not ended, up to the one `StartAll` is just starting. When `StopAll` has returned, none
      is left, and none starts any more. */
  lemma StopAllLeavesNone(r: System, run: seq<Move>)
    requires Begins(r) && CanRun(r, run)
    ensures var e := Result(r, run);
            && e.wg == Sum(LiveCounts(e.svcs)) + e.phase % 2
            && (e.stop == Returned ==> forall i | 0 <= i < |e.svcs| :: e.svcs[i].life == Ended && e.svcs[i].bridge == Gone)
  {
    BeginsSound(r);
    RunSound(r, run);
    var e := Result(r, run);
    if e.stop == Returned {
      forall i | 0 <= i < |e.svcs| ensures e.svcs[i].life == Ended && e.svcs[i].bridge == Gone {
        SumZero(LiveCounts(e.svcs), i);
        assert SvcOk(e, i);
      }
    }
  }

  lemma {:induction false} SumZero(w: seq<nat>, i: nat)
    requires Sum(w) == 0 && i < |w|
    ensures w[i] == 0
  {
    if i > 0 {
      SumZero(w[1..], i - 1);
    }
  }

  /** What channel `c` has of the items of service `i`: it holds and has delivered what its buffer let
      through of the items from its subscription on, in order and without a duplicate, and nothing
      of a service with another topic. While it is subscribed, the service's output channel follows
      behind the last item offered. */
  ghost predicate Arrives(e: System, i: nat, c: nat) {
    && i < |e.svcs| && i < |e.bus.topic| && c < |e.bus.chans| && i < |e.bus.chans[c].since|
    && var v, ch := e.svcs[i], e.bus.chans[c];
       && ch.received + ch.buf == Kept(ch.offers) && InOrderFrom(ch, i, e.bus.topic[i])
       && (ch.stage == Listed && ch.topic == e.bus.topic[i] && !v.bridge.Forwarding? ==>
             v.out == Span(ch.since[i] + |Stamps(ch.offers, i)|, |v.out|)
             && ch.since[i] + |Stamps(ch.offers, i)| + |v.out| == v.emitted)
  }

  lemma SoundArrives(e: System, i: nat, c: nat)
    requires Sound(e) && i < |e.svcs| && c < |e.bus.chans|
    ensures Arrives(e, i, c)
  {
    assert SvcOk(e, i) && Unbroken(e.bus, c, i) && Faithful(e.bus.chans[c]);
    GetsInOrder(e.bus, c, i);
  }

  /** What one channel got of what one service emitted: the items from its subscription up to the
      one its bridge publishes now, without those offered when the buffer was full; they are in
      the order of emission and none comes twice. What is still to come is the service's output
      channel, in order. Of a service with another topic the channel gets nothing. */
  lemma EndToEnd(r: System, run: seq<Move>, i: nat, c: nat)
    requires Begins(r) && CanRun(r, run) && i < |r.svcs| && c < |Result(r, run).bus.chans|
    ensures SameParts(r, Result(r, run)) && Arrives(Result(r, run), i, c)
  {
    BeginsSound(r);
    RunSound(r, run);
    SoundArrives(Result(r, run), i, c);
  }

  // ---- shutdown always completes ----

  /** The moves a shutdown consists of: no client calls any more and no service emits. */
  predicate Winding(m: Move) {
    m.Thread? || m.ServiceEnds? || m.Take? || m.BridgeEnds? || m.StopNext? || m.StopReturns?
  }

  function Queued(svcs: seq<Svc>): (w: seq<nat>)
    ensures |w| == |svcs| && forall i | 0 <= i < |w| :: w[i] == |svcs[i].out|
  {
    seq(|svcs|, i requires 0 <= i < |svcs| => |svcs[i].out|)
  }

  function StopLeft(r: System): nat {
    match r.stop
    case Unstopped => 0
    case Stopping(i) => if i <= |r.svcs| then |r.svcs| - i + 2 else 2
    case Awaiting => 1
    case Returned => 0
  }

  /** Live goroutines, items on output channels, what is left of the bus calls and of `StopAll`. */
  datatype Rest = Rest(live: nat, queued: nat, work: Work, stop: nat)

  function RestOf(r: System): Rest {
    Rest(Sum(LiveCounts(r.svcs)), Sum(Queued(r.svcs)), Remaining(r.bus), StopLeft(r))
  }

  predicate Smaller(a: Rest, b: Rest) {
    || a.live < b.live
    || (a.live == b.live && a.queued < b.queued)
    || (a.live == b.live && a.queued == b.queued && Less(a.work, b.work))
    || (a.live == b.live && a.queued == b.queued && a.work == b.work && a.stop < b.stop)
  }

  lemma Requeue(r: System, i: nat, v: Svc)
    requires i < |r.svcs|
    ensures Sum(Queued(With(r, i, v).svcs)) + |r.svcs[i].out| == Sum(Queued(r.svcs)) + |v.out|
  {
    assert Queued(With(r, i, v).svcs) == Queued(r.svcs)[i := |v.out|];
    SumUpdate(Queued(r.svcs), i, |v.out|);
  }

  lemma ThreadWinds(r: System, p: nat, order: seq<string>)
    requires Sound(r) && CanMove(r, Thread(p, order))
    ensures Smaller(RestOf(Moved(r, Thread(p, order))), RestOf(r))
  {
    StepProgress(r.bus, p, order);
    if p < |r.svcs| {
      assert SvcOk(r, p);
      Recount(r, p, r.svcs[p].(bridge := Waiting));
      Requeue(r, p, r.svcs[p].(bridge := Waiting));
    }
  }

  lemma ServiceWinds(r: System, m: Move)
    requires Sound(r) && CanMove(r, m) && (m.ServiceEnds? || m.BridgeEnds? || m.Take?)
    ensures Smaller(RestOf(Moved(r, m)), RestOf(r))
  {
    Recount(r, m.i, Moved(r, m).svcs[m.i]);
    Requeue(r, m.i, Moved(r, m).svcs[m.i]);
  }

  /** Every move of the shutdown leaves less of it. */
  lemma Winds(r: System, m: Move)
    requires Sound(r) && CanMove(r, m) && Winding(m)
    ensures Smaller(RestOf(Moved(r, m)), RestOf(r))
  {
    match m
    case Thread(p, order) => ThreadWinds(r, p, order);
    case StopNext =>
    case StopReturns =>
    case _ => ServiceWinds(r, m);
  }

  lemma {:induction false} SomeLive(w: seq<nat>) returns (i: nat)
    requires Sum(w) > 0
    ensures i < |w| && w[i] > 0
  {
    if w[0] > 0 {
      i := 0;
    } else {
      i := SomeLive(w[1..]);
      i := i + 1;
    }
  }

  /** Once `StopAll` is called and until it returns, the shutdown can always go on: a service
      returns after the cancellation, a waiting bridge sees it, and a bridge that publishes is
      never stuck. */
  lemma CanWind(r: System) returns (m: Move)
    requires Sound(r) && r.stop != Unstopped && r.stop != Returned
    ensures Winding(m) && CanMove(r, m)
  {
    if r.stop.Stopping? {
      m := StopNext;
    } else if r.wg == 0 {
      m := StopReturns;
    } else {
      var i := SomeLive(LiveCounts(r.svcs));
      assert SvcOk(r, i);
      if r.svcs[i].life == Live {
        m := ServiceEnds(i);
      } else if r.svcs[i].bridge == Waiting {
        m := BridgeEnds(i);
      } else {
        var p := SomeReady(r.bus, i);
        var order := ListOf(r.bus.subs.Keys);
        m := Thread(p, order);
      }
    }
  }

  /** `StopAll` returns: from every reachable state in which it has been called, whatever the
      bridges, services and clients are doing, the shutdown moves lead to its return, and as each
      of them leaves less to do (`Winds`), only finitely many can come before it. */
  lemma {:induction false} StopAllReturns(r: System) returns (run: seq<Move>)
    requires Sound(r) && r.stop != Unstopped
    ensures CanRun(r, run) && Result(r, run).stop == Returned
    ensures forall k | 0 <= k < |run| :: Winding(run[k])
    decreases RestOf(r).live, RestOf(r).queued, RestOf(r).work.phases,
        RestOf(r).work.topics, RestOf(r).work.channels, RestOf(r).stop
  {
    run := [];
    if r.stop != Returned {
      var m := CanWind(r);
      Winds(r, m);
      KeepSound(r, m);
      StaysStopped(r, m);
      var rest := StopAllReturns(Moved(r, m));
      run := [m] + rest;
    }
  }

  lemma StaysStopped(r: System, m: Move)
    requires Fits(r) && CanMove(r, m) && r.stop != Unstopped
    ensures Moved(r, m).stop != Unstopped
  {
  }
}
