/**
 Safety of the bus over every interleaving of its atomic steps.
 */
module BusSafety {
  import opened Bus
  import opened BusProtocol

  /** Every step keeps the invariant. */
  lemma KeepInv(s: State, a: Action)
    requires Inv(s) && Enabled(s, a)
    ensures Inv(Next(s, a))
  {
    match a
    case Call(p, request) => KeepCalled(s, p, request);
    case Receive(c) => KeepReceived(s, c);
    case Step(p, order) =>
      match s.pcs[p]
      case Loop(list, i) => if i < |list| { KeepSend(s, p); } else { KeepReadUnlock(s, p); }
      case Announced(op) =>
        match op {
          case Subscribe(ch) => KeepSubscribe(s, p, ch);
          case Unsubscribe(t, ch) => KeepUnsubscribe(s, p, t, ch);
          case CloseAll => KeepEntered(s, p, order);
        }
      case Closing(_) => KeepClosing(s, p);
      case Unlocking => KeepClosing(s, p);
      case Sweep(todo, k) =>
        if todo == [] {
          KeepSweepEnd(s, p);
        } else if k < |Subs(s, todo[0])| {
          KeepSweepClose(s, p);
        } else {
          KeepSweepDelete(s, p);
        }
      case _ => KeepWait(s, p, order);
  }

  // ---- runs ----

  /** Every action of the run is enabled when its turn comes. */
  ghost predicate Possible(s: State, run: seq<Action>)
    requires Sized(s)
    decreases |run|
  {
    run == [] || (Enabled(s, run[0]) && Possible(Next(s, run[0]), run[1..]))
  }

  ghost function After(s: State, run: seq<Action>): (r: State)
    requires Sized(s) && Possible(s, run)
    ensures Sized(r) && |r.pcs| == |s.pcs| && r.topic == s.topic
    decreases |run|
  {
    if run == [] then s else After(Next(s, run[0]), run[1..])
  }

  lemma {:induction false} RunInv(s: State, run: seq<Action>)
    requires Inv(s) && Possible(s, run)
    ensures Inv(After(s, run))
    decreases |run|
  {
    if run != [] {
      KeepInv(s, run[0]);
      RunInv(Next(s, run[0]), run[1..]);
    }
  }

  /** Safety over all interleavings: no send reaches a closed channel and no channel is closed
      twice; a writer is alone; every channel in the map is registered once, in one topic, and
      open unless `Close` has just closed it; no topic has an empty list. */
  lemma Safety(s: State, run: seq<Action>)
    requires Init(s) && Possible(s, run)
    ensures var e := After(s, run);
            && !e.fault
            && (forall p | 0 <= p < |e.pcs| && Holds(e.pcs[p]) :: forall q | 0 <= q < |e.pcs| && q != p :: !e.pcs[q].Loop? && !Holds(e.pcs[q]))
            && Shape(e.subs)
            && (forall t, j | t in e.subs && 0 <= j < |e.subs[t]| ::
                  e.subs[t][j] < |e.chans| && (e.chans[e.subs[t][j]].closed <==> Swept(e, t, j)))
  {
    RunInv(s, run);
    var e := After(s, run);
    assert LockOk(e) && MapOk(e) && ChansOk(e);
    forall t, i, u, j | t in e.subs && 0 <= i < |e.subs[t]| && u in e.subs && 0 <= j < |e.subs[u]| && e.subs[t][i] == e.subs[u][j]
      ensures t == u && i == j
    {
      assert e.chans[e.subs[t][i]].topic == t && e.chans[e.subs[u][j]].topic == u;
    }
  }
}
