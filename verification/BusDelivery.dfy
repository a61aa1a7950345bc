/**
 Lossy first-in-first-out delivery through the bus: what a subscriber gets is decided by the
 order of publication and by its own receiving alone.
 */
module BusDelivery {
  import opened Bus
  import opened BusProtocol
  import opened BusSafety
  import opened BusTopics

  /** The stamps of one thread's publications among the offers to a channel. */
  function Stamps(offers: seq<Offer>, p: nat): seq<nat> {
    if offers == [] then []
    else
      var last, front := offers[|offers| - 1], Stamps(offers[..|offers| - 1], p);
      if last.event.source == p then front + [last.event.stamp] else front
  }

  /** What a buffer of this size lets through: an event is dropped exactly when as many events
      as the buffer holds were kept before and not yet received. */
  function Kept(offers: seq<Offer>): seq<Event> {
    if offers == [] then []
    else
      var last, kept := offers[|offers| - 1], Kept(offers[..|offers| - 1]);
      if |kept| < last.received + BUFFER_SIZE then kept + [last.event] else kept
  }

  function Span(a: nat, n: nat): (r: seq<nat>)
    ensures |r| == n && forall i | 0 <= i < n :: r[i] == a + i
  {
    seq(n, i => a + i)
  }

  /** 1 once the publish loop of `p` has passed channel `c`. */
  function Passed(pc: PC, c: nat): nat {
    if pc.Loop? && exists k | 0 <= k < |pc.list| && k < pc.i :: pc.list[k] == c then 1 else 0
  }

  /** From every thread the channel was offered an unbroken run of publications, from its
      subscription on; while it is listed, up to the latest one. */
  ghost predicate Unbroken(s: State, c: nat, p: nat)
    requires c < |s.chans| && p < |s.pcs| == |s.count| == |s.topic| == |s.chans[c].since|
  {
    var ch := s.chans[c];
    var stamps := Stamps(ch.offers, p);
    && stamps == Span(ch.since[p], |stamps|)
    && (ch.stage == Listed && ch.topic == s.topic[p] ==> ch.since[p] + |stamps| == s.count[p] + Passed(s.pcs[p], c))
  }

  /** The channel holds and has delivered what its own offers and receives let through. */
  ghost predicate Faithful(ch: Chan) {
    && ch.received + ch.buf == Kept(ch.offers)
    && |ch.buf| <= BUFFER_SIZE
    && (ch.stage.Made? ==> ch.offers == [])
  }

  ghost predicate History(s: State) {
    && Sized(s)
    && (forall c | 0 <= c < |s.chans| :: Faithful(s.chans[c]) && |s.chans[c].since| == |s.pcs|)
    && (forall c, p | 0 <= c < |s.chans| && 0 <= p < |s.pcs| :: Unbroken(s, c, p))
  }

  lemma OfferNext(ch: Chan, e: Event, p: nat)
    ensures Stamps(Offering(ch, e).offers, p) == if e.source == p then Stamps(ch.offers, p) + [e.stamp] else Stamps(ch.offers, p)
  {
    assert Offering(ch, e).offers[..|ch.offers|] == ch.offers;
  }

  /** Offering an event to a faithful channel leaves it faithful. */
  lemma FaithfulOffer(ch: Chan, e: Event)
    requires Faithful(ch) && !ch.stage.Made?
    ensures Faithful(Offering(ch, e))
  {
    var ch' := Offering(ch, e);
    assert ch'.offers[..|ch.offers|] == ch.offers;
    assert |Kept(ch.offers)| == |ch.received| + |ch.buf|;
    if |ch.buf| < BUFFER_SIZE {
      assert ch.received + (ch.buf + [e]) == (ch.received + ch.buf) + [e];
    }
  }

  lemma HistoryCalled(s: State, p: nat, request: Request)
    requires Inv(s) && History(s) && p < |s.pcs| && s.pcs[p] == Idle
    ensures History(Called(s, p, request))
  {
    forall c, q | 0 <= c < |Called(s, p, request).chans| && 0 <= q < |s.pcs| ensures Unbroken(Called(s, p, request), c, q) {
      assert c < |s.chans| ==> Unbroken(s, c, q);
    }
  }

  lemma HistoryReceived(s: State, c: nat)
    requires Inv(s) && History(s) && c < |s.chans| && s.chans[c].buf != []
    ensures History(Received(s, c))
  {
    var ch := s.chans[c];
    assert ch.received + ch.buf == (ch.received + [ch.buf[0]]) + ch.buf[1..];
    forall d, q | 0 <= d < |s.chans| && 0 <= q < |s.pcs| ensures Unbroken(Received(s, c), d, q) {
      assert Unbroken(s, d, q);
    }
  }

  lemma PassedNext(list: seq<nat>, i: nat, c: nat)
    requires i < |list| && forall k, l | 0 <= k < l < |list| :: list[k] != list[l]
    ensures Passed(Loop(list, i + 1), c) == if c == list[i] then 1 else Passed(Loop(list, i), c)
    ensures Passed(Loop(list, i), list[i]) == 0
  {
  }

  lemma UnbrokenSend(s: State, p: nat, d: nat, q: nat)
    requires Inv(s) && p < |s.pcs| && s.pcs[p].Loop? && s.pcs[p].i < |s.pcs[p].list|
    requires d < |s.chans| && q < |s.pcs| == |s.chans[d].since| && Unbroken(s, d, q)
    ensures Unbroken(Stepped(s, p, []), d, q)
  {
    assert PcOk(s, p) && p in s.readers;
    PassedNext(s.pcs[p].list, s.pcs[p].i, d);
    OfferNext(s.chans[d], Event(p, s.count[p]), q);
  }

  lemma HistorySend(s: State, p: nat)
    requires Inv(s) && History(s) && p < |s.pcs| && s.pcs[p].Loop? && s.pcs[p].i < |s.pcs[p].list|
    ensures History(Stepped(s, p, []))
  {
    var c := s.pcs[p].list[s.pcs[p].i];
    assert PcOk(s, p) && p in s.readers;
    FaithfulOffer(s.chans[c], Event(p, s.count[p]));
    forall d, q | 0 <= d < |s.chans| && 0 <= q < |s.pcs| ensures Unbroken(Stepped(s, p, []), d, q) {
      UnbrokenSend(s, p, d, q);
    }
  }

  lemma HistoryReadUnlock(s: State, p: nat)
    requires Inv(s) && History(s) && p < |s.pcs| && s.pcs[p].Loop? && s.pcs[p].i >= |s.pcs[p].list|
    ensures History(Stepped(s, p, []))
  {
    assert PcOk(s, p);
    forall d, q | 0 <= d < |s.chans| && 0 <= q < |s.pcs| ensures Unbroken(Stepped(s, p, []), d, q) {
      assert Unbroken(s, d, q);
    }
  }

  lemma HistoryEntered(s: State, p: nat, order: seq<string>)
    requires Inv(s) && History(s) && p < |s.pcs| && s.readers == {} && s.pcs[p].Announced?
    ensures History(Stepped(s, p, order))
  {
    assert PcOk(s, p);
    forall d, q | 0 <= d < |s.chans| && 0 <= q < |s.pcs| ensures Unbroken(Stepped(s, p, order), d, q) {
      assert Unbroken(s, d, q) && q !in s.readers;
    }
  }

  /** Waiting, closing and unlocking leave the history as it is. */
  lemma HistoryWait(s: State, p: nat)
    requires Inv(s) && History(s) && p < |s.pcs| && (s.pcs[p].WaitRead? || s.pcs[p].WaitWrite? || s.pcs[p].Unlocking?)
    ensures History(Stepped(s, p, []))
  {
    forall d, q | 0 <= d < |s.chans| && 0 <= q < |s.pcs| ensures Unbroken(Stepped(s, p, []), d, q) {
      assert Unbroken(s, d, q);
    }
  }

  lemma HistoryClose(s: State, p: nat)
    requires Inv(s) && History(s) && p < |s.pcs| && s.pcs[p].Closing?
    ensures History(Stepped(s, p, []))
  {
    assert PcOk(s, p);
    forall d, q | 0 <= d < |s.chans| && 0 <= q < |s.pcs| ensures Unbroken(Stepped(s, p, []), d, q) {
      assert Unbroken(s, d, q);
    }
  }

  lemma HistorySweep(s: State, p: nat)
    requires Inv(s) && History(s) && p < |s.pcs| && s.pcs[p].Sweep?
    ensures History(Stepped(s, p, []))
  {
    assert PcOk(s, p);
    forall d, q | 0 <= d < |s.chans| && 0 <= q < |s.pcs| ensures Unbroken(Stepped(s, p, []), d, q) {
      assert Unbroken(s, d, q);
    }
  }

  lemma KeepHistory(s: State, a: Action)
    requires Inv(s) && History(s) && Enabled(s, a)
    ensures History(Next(s, a))
  {
    match a
    case Call(p, request) => HistoryCalled(s, p, request);
    case Receive(c) => HistoryReceived(s, c);
    case Step(p, order) =>
      match s.pcs[p]
      case Loop(list, i) => if i < |list| { HistorySend(s, p); } else { HistoryReadUnlock(s, p); }
      case Announced(_) => HistoryEntered(s, p, order);
      case Closing(_) => HistoryClose(s, p);
      case Sweep(_, _) => HistorySweep(s, p);
      case _ => HistoryWait(s, p);
  }

  lemma {:induction false} RunHistory(s: State, run: seq<Action>)
    requires Inv(s) && History(s) && Possible(s, run)
    ensures Inv(After(s, run)) && History(After(s, run))
    decreases |run|
  {
    if run != [] {
      KeepInv(s, run[0]);
      KeepHistory(s, run[0]);
      RunHistory(Next(s, run[0]), run[1..]);
    }
  }

  // ---- what a subscriber gets ----

  /** The stamps of one thread's publications among some events. */
  function From(events: seq<Event>, p: nat): seq<nat> {
    if events == [] then []
    else
      var last, front := events[|events| - 1], From(events[..|events| - 1], p);
      if last.source == p then front + [last.stamp] else front
  }

  lemma FromNext(events: seq<Event>, e: Event, p: nat)
    ensures From(events + [e], p) == if e.source == p then From(events, p) + [e.stamp] else From(events, p)
  {
    assert (events + [e])[..|events|] == events;
  }

  /** Strictly ascending, within `a` up to `b`. */
  ghost predicate Climbs(s: seq<nat>, a: nat, b: nat) {
    && (forall i | 0 <= i < |s| :: a <= s[i] < b)
    && (forall i, j | 0 <= i < j < |s| :: s[i] < s[j])
  }

  /** Of an unbroken run of offers, the kept ones are in order and without a duplicate. */
  lemma {:induction false} KeptInOrder(offers: seq<Offer>, p: nat, a: nat)
    requires Stamps(offers, p) == Span(a, |Stamps(offers, p)|)
    ensures Climbs(From(Kept(offers), p), a, a + |Stamps(offers, p)|)
  {
    if offers != [] {
      var front, last := offers[..|offers| - 1], offers[|offers| - 1];
      var n := |Stamps(front, p)|;
      assert forall i | 0 <= i < n :: Stamps(front, p)[i] == Stamps(offers, p)[i];
      KeptInOrder(front, p, a);
      FromNext(Kept(front), last.event, p);
      if last.event.source == p {
        assert Stamps(offers, p)[n] == last.event.stamp == a + n;
      }
    }
  }

  /** What channel `ch` got of thread `p`'s publications: of an unbroken run from its
      subscription on, some, in order and without a duplicate; and nothing, if `p` publishes on
      another topic. */
  ghost predicate InOrderFrom(ch: Chan, p: nat, topic: string)
    requires p < |ch.since|
  {
    var offered, got := Stamps(ch.offers, p), From(ch.received + ch.buf, p);
    && offered == Span(ch.since[p], |offered|)
    && Climbs(got, ch.since[p], ch.since[p] + |offered|)
    && (ch.topic != topic ==> got == [])
  }

  /** A channel is offered nothing by a thread of another topic. */
  lemma {:induction false} OtherTopicSilent(offers: seq<Offer>, p: nat)
    requires forall k | 0 <= k < |offers| :: offers[k].event.source != p
    ensures Stamps(offers, p) == []
  {
    if offers != [] {
      OtherTopicSilent(offers[..|offers| - 1], p);
    }
  }

  /** Strictly ascending numbers from `a` up to `b` are no more than `b - a`. */
  lemma {:induction false} ClimbsFit(s: seq<nat>, a: nat, b: nat)
    requires a <= b && Climbs(s, a, b)
    ensures |s| <= b - a
  {
    if s != [] {
      ClimbsFit(s[..|s| - 1], a, s[|s| - 1]);
    }
  }

  lemma GetsInOrder(s: State, c: nat, p: nat)
    requires History(s) && OwnTopics(s) && c < |s.chans| && p < |s.pcs|
    ensures InOrderFrom(s.chans[c], p, s.topic[p])
  {
    var ch := s.chans[c];
    assert Unbroken(s, c, p) && OfTopic(ch, s.topic);
    KeptInOrder(ch.offers, p, ch.since[p]);
    if ch.topic != s.topic[p] {
      OtherTopicSilent(ch.offers, p);
      ClimbsFit(From(ch.received + ch.buf, p), ch.since[p], ch.since[p]);
    }
  }

  /** Over all interleavings: a channel has delivered or still holds exactly what its buffer let
      through of an unbroken run of each thread's publications, in order and without a
      duplicate. While it is subscribed, that run reaches up to the thread's latest one. Of a thread
      that publishes on another topic it gets nothing. */
  lemma Delivery(s: State, run: seq<Action>, c: nat, p: nat)
    requires Init(s) && Possible(s, run) && c < |After(s, run).chans| && p < |s.pcs|
    ensures var e, ch := After(s, run), After(s, run).chans[c];
            && |e.pcs| == |e.count| == |e.topic| == |ch.since| == |s.pcs|
            && ch.received + ch.buf == Kept(ch.offers) && |ch.buf| <= BUFFER_SIZE
            && InOrderFrom(ch, p, e.topic[p])
            && (ch.stage == Listed && ch.topic == e.topic[p] && !e.pcs[p].Loop? ==>
                  ch.since[p] + |Stamps(ch.offers, p)| == e.count[p])
  {
    RunHistory(s, run);
    RunOwnTopics(s, run);
    GetsInOrder(After(s, run), c, p);
    assert Unbroken(After(s, run), c, p);
  }

  function Events(offers: seq<Offer>): (r: seq<Event>)
    ensures |r| == |offers|
  {
    seq(|offers|, i requires 0 <= i < |offers| => offers[i].event)
  }

  /** Nothing is lost exactly when the receiver never falls a whole buffer behind. */
  lemma {:induction false} NothingLostIff(offers: seq<Offer>)
    ensures |Kept(offers)| <= |offers|
    ensures Kept(offers) == Events(offers) <==> forall k | 0 <= k < |offers| :: k < offers[k].received + BUFFER_SIZE
  {
    if offers != [] {
      var front, last := offers[..|offers| - 1], offers[|offers| - 1];
      NothingLostIff(front);
      assert Events(offers) == Events(front) + [last.event];
      if Kept(offers) == Events(offers) {
        assert Kept(front) == Kept(offers)[..|front|] == Events(front);
      }
    }
  }

  // ---- one subscriber does not affect another ----

  /** The run without what the receivers of all other channels do. */
  function Only(run: seq<Action>, c: nat): seq<Action> {
    if run == [] then []
    else (if run[0].Receive? && run[0].c != c then [] else [run[0]]) + Only(run[1..], c)
  }

  /** Two channels that differ at most in what was offered, held and delivered. */
  predicate SameChan(x: Chan, y: Chan) {
    x.topic == y.topic && x.closed == y.closed && x.stage == y.stage && x.since == y.since
  }

  /** The states agree on everything but the contents of the channels other than `c`. */
  ghost predicate Alike(s: State, u: State, c: nat) {
    && u == s.(chans := u.chans) && |u.chans| == |s.chans|
    && (forall d | 0 <= d < |s.chans| :: SameChan(s.chans[d], u.chans[d]))
    && (c < |s.chans| ==> s.chans[c] == u.chans[c])
  }

  lemma AlikeLoop(s: State, u: State, c: nat, p: nat)
    requires Sized(s) && Alike(s, u, c) && p < |s.pcs| && s.pcs[p].Loop?
    ensures Alike(Stepped(s, p, []), Stepped(u, p, []), c)
  {
  }

  lemma AlikeEntered(s: State, u: State, c: nat, p: nat, op: Op, order: seq<string>)
    requires Sized(s) && Alike(s, u, c) && p < |s.pcs|
    ensures Alike(Entered(s, p, op, order), Entered(u, p, op, order), c)
  {
  }

  lemma AlikeWait(s: State, u: State, c: nat, p: nat)
    requires Sized(s) && Alike(s, u, c) && p < |s.pcs|
    requires s.pcs[p].WaitRead? || s.pcs[p].WaitWrite? || s.pcs[p].Unlocking?
    ensures Alike(Stepped(s, p, []), Stepped(u, p, []), c)
  {
  }

  lemma AlikeClose(s: State, u: State, c: nat, p: nat)
    requires Sized(s) && Alike(s, u, c) && p < |s.pcs| && (s.pcs[p].Closing? || s.pcs[p].Sweep?)
    ensures Alike(Stepped(s, p, []), Stepped(u, p, []), c)
  {
  }

  lemma AlikeStep(s: State, u: State, c: nat, a: Action)
    requires Sized(s) && Alike(s, u, c) && Enabled(s, a)
    requires a.Receive? ==> a.c == c
    ensures Enabled(u, a) && Alike(Next(s, a), Next(u, a), c)
  {
    match a
    case Call(_, _) =>
    case Receive(_) =>
    case Step(p, order) =>
      match s.pcs[p]
      case Loop(_, _) => AlikeLoop(s, u, c, p);
      case Announced(op) => AlikeEntered(s, u, c, p, op, order);
      case Closing(_) => AlikeClose(s, u, c, p);
      case Sweep(_, _) => AlikeClose(s, u, c, p);
      case _ => AlikeWait(s, u, c, p);
  }

  /** However slow the other subscribers are, even if they never receive again, every thread
      goes on as before and this channel is offered, holds and delivers the same. */
  lemma {:induction false} SlowNeighbours(s: State, u: State, run: seq<Action>, c: nat)
    requires Sized(s) && Alike(s, u, c) && Possible(s, run)
    ensures Possible(u, Only(run, c)) && Alike(After(s, run), After(u, Only(run, c)), c)
    decreases |run|
  {
    if run != [] {
      var s' := Next(s, run[0]);
      if run[0].Receive? && run[0].c != c {
        SlowNeighbours(s', u, run[1..], c);
        assert [] + Only(run[1..], c) == Only(run[1..], c);
      } else {
        AlikeStep(s, u, c, run[0]);
        SlowNeighbours(s', Next(u, run[0]), run[1..], c);
        assert Only(run, c)[1..] == Only(run[1..], c);
      }
    }
  }
}
