/**
 Topics: over all interleavings a channel is offered, and so holds and delivers, only events of
 the threads that publish on its own topic.
 */
module BusTopics {
  import opened BusProtocol
  import opened BusSafety

  /** The events offered to a channel come from threads of its topic. */
  ghost predicate OfTopic(ch: Chan, topic: seq<string>) {
    forall k | 0 <= k < |ch.offers| ::
      ch.offers[k].event.source < |topic| && topic[ch.offers[k].event.source] == ch.topic
  }

  ghost predicate OwnTopics(s: State) {
    forall c | 0 <= c < |s.chans| :: OfTopic(s.chans[c], s.topic)
  }

  /** Only the publish loop offers anything. */
  predicate SameOffers(s: State, u: State) {
    && u.topic == s.topic && |u.chans| == |s.chans|
    && forall c | 0 <= c < |s.chans| :: u.chans[c].topic == s.chans[c].topic && u.chans[c].offers == s.chans[c].offers
  }

  lemma SameOffersKeep(s: State, u: State)
    requires OwnTopics(s) && SameOffers(s, u)
    ensures OwnTopics(u)
  {
    forall c | 0 <= c < |u.chans| ensures OfTopic(u.chans[c], u.topic) {
      assert OfTopic(s.chans[c], s.topic);
    }
  }

  lemma SendOfTopic(s: State, p: nat)
    requires Inv(s) && OwnTopics(s) && p < |s.pcs| && s.pcs[p].Loop? && s.pcs[p].i < |s.pcs[p].list|
    ensures OwnTopics(Stepped(s, p, []))
  {
    var u, c := Stepped(s, p, []), s.pcs[p].list[s.pcs[p].i];
    assert PcOk(s, p) && p in s.readers;
    assert c < |s.chans| && s.chans[c].topic == s.topic[p];
    forall d | 0 <= d < |u.chans| ensures OfTopic(u.chans[d], u.topic) {
      assert OfTopic(s.chans[d], s.topic);
    }
  }

  lemma StepSameOffers(s: State, p: nat, order: seq<string>)
    requires Sized(s) && p < |s.pcs| && (s.pcs[p].Loop? ==> s.pcs[p].i >= |s.pcs[p].list|)
    ensures SameOffers(s, Stepped(s, p, order))
  {
    match s.pcs[p]
    case Announced(op) => EnteredSameOffers(s, p, op, order);
    case Closing(ch) => CloseSameOffers(s, Goto(s, p, Unlocking), ch);
    case Sweep(todo, k) => SweepSameOffers(s, p, todo, k);
    case _ =>
  }

  lemma EnteredSameOffers(s: State, p: nat, op: Op, order: seq<string>)
    requires p < |s.pcs|
    ensures SameOffers(s, Entered(s, p, op, order))
  {
  }

  lemma CloseSameOffers(s: State, u: State, c: nat)
    requires SameOffers(s, u)
    ensures SameOffers(s, CloseChan(u, c))
  {
  }

  lemma SweepSameOffers(s: State, p: nat, todo: seq<string>, k: nat)
    requires Sized(s) && p < |s.pcs| && s.pcs[p] == Sweep(todo, k)
    ensures SameOffers(s, Stepped(s, p, []))
  {
    if todo != [] && k < |Subs(s, todo[0])| {
      CloseSameOffers(s, Goto(s, p, Sweep(todo, k + 1)), Subs(s, todo[0])[k]);
    }
  }

  lemma CalledOfTopic(s: State, p: nat, request: Request)
    requires OwnTopics(s) && p < |s.pcs|
    ensures OwnTopics(Called(s, p, request))
  {
    var u := Called(s, p, request);
    forall c | 0 <= c < |u.chans| ensures OfTopic(u.chans[c], u.topic) {
      assert c < |s.chans| ==> OfTopic(s.chans[c], s.topic);
    }
  }

  lemma KeepOwnTopics(s: State, a: Action)
    requires Inv(s) && OwnTopics(s) && Enabled(s, a)
    ensures OwnTopics(Next(s, a))
  {
    match a
    case Call(p, request) => CalledOfTopic(s, p, request);
    case Receive(c) => SameOffersKeep(s, Received(s, c));
    case Step(p, order) =>
      if s.pcs[p].Loop? && s.pcs[p].i < |s.pcs[p].list| {
        SendOfTopic(s, p);
      } else {
        StepSameOffers(s, p, order);
        SameOffersKeep(s, Stepped(s, p, order));
      }
  }

  lemma {:induction false} RunOwnTopics(s: State, run: seq<Action>)
    requires Inv(s) && OwnTopics(s) && Possible(s, run)
    ensures OwnTopics(After(s, run))
    decreases |run|
  {
    if run != [] {
      KeepInv(s, run[0]);
      KeepOwnTopics(s, run[0]);
      RunOwnTopics(Next(s, run[0]), run[1..]);
    }
  }
}
