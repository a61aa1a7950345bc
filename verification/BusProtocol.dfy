/**
 The event bus under concurrency: any number of threads publish, subscribe, unsubscribe and
 close through one read/write lock, in atomic steps and in any interleaving, while receivers
 drain their channels. A send on a closed channel and a second close of a channel, which
 panic in Go, set `fault`.
 */
module BusProtocol {
  import opened Options
  import opened Bus

  /** Thread `source`'s `stamp`-th publication. A thread publishes on one topic. */
  datatype Event = Event(source: nat, stamp: nat)

  /** An event the publish loop held out to a channel, and how many events that channel's
      receiver had taken by then. */
  datatype Offer = Offer(event: Event, received: nat)

  /** A channel is made by a subscriber, listed in the map, perhaps taken out again by an
      unsubscriber, and shut. */
  datatype Stage = Made(owner: nat) | Listed | Taken(owner: nat) | Shut

  /** `closed`, `buf` and `received` are the channel; `stage`, `since` (the publications of
      every thread before the channel was listed) and `offers` are its history. */
  datatype Chan = Chan(topic: string, closed: bool, buf: seq<Event>, received: seq<Event>,
                       stage: Stage, since: seq<nat>, offers: seq<Offer>)

  datatype Op = Subscribe(ch: nat) | Unsubscribe(topic: string, ch: nat) | CloseAll

  /** Where a thread is. `Loop` is the loop of `Publish`, below the read lock. A writer first
      announces itself, which keeps new readers out, and enters when the readers have left;
      `Closing`, `Sweep` (the loops of `Close`) and `Unlocking` are below the write lock. */
  datatype PC =
    | Idle
    | WaitRead
    | Loop(list: seq<nat>, i: nat)
    | WaitWrite(op: Op)
    | Announced(op: Op)
    | Closing(ch: nat)
    | Sweep(todo: seq<string>, k: nat)
    | Unlocking

  datatype State = State(topic: seq<string>, pcs: seq<PC>, count: seq<nat>, subs: map<string, seq<nat>>,
                         chans: seq<Chan>, readers: set<nat>, writer: Option<nat>, fault: bool)

  /** What a client asks for. */
  datatype Request = Publishing | Subscribing(topic: string) | Unsubscribing(topic: string, ch: nat) | ClosingAll

  /** A thread calls, a thread takes its next step inside a call (`order` is the order in which
      `Close` will visit the topics), or a receiver takes an event. */
  datatype Action = Call(p: nat, request: Request) | Step(p: nat, order: seq<string>) | Receive(c: nat)

  predicate Sized(s: State) {
    |s.topic| == |s.pcs| == |s.count|
  }

  function Subs(s: State, t: string): seq<nat> {
    if t in s.subs then s.subs[t] else []
  }

  /** The threads, none of which has called yet. */
  predicate Init(s: State) {
    && Sized(s)
    && (forall p | 0 <= p < |s.pcs| :: s.pcs[p] == Idle && s.count[p] == 0)
    && s.subs == map[] && s.chans == [] && s.readers == {} && s.writer == None && !s.fault
  }

  /** `order` lists the topics in some order, as a loop over the map may. */
  ghost predicate Enumerates(order: seq<string>, m: map<string, seq<nat>>) {
    && (forall i, j | 0 <= i < j < |order| :: order[i] != order[j])
    && (forall t :: t in order <==> t in m)
  }

  /** A waiting thread can go on only when the lock lets it. */
  predicate Ready(s: State, pc: PC) {
    match pc
    case Idle => false
    case WaitRead => s.writer == None
    case WaitWrite(_) => s.writer == None
    case Announced(_) => s.readers == {}
    case _ => true
  }

  ghost predicate Enabled(s: State, a: Action) {
    match a
    case Call(p, _) => p < |s.pcs| && s.pcs[p] == Idle
    case Step(p, order) => p < |s.pcs| && Ready(s, s.pcs[p]) && Enumerates(order, s.subs)
    case Receive(c) => c < |s.chans| && s.chans[c].buf != []
  }

  /** What the publish loop does at one channel. */
  function Offering(c: Chan, e: Event): Chan {
    c.(buf := Offered(c.buf, e), offers := c.offers + [Offer(e, |c.received|)])
  }

  function Goto(s: State, p: nat, pc: PC): State
    requires p < |s.pcs|
  {
    s.(pcs := s.pcs[p := pc])
  }

  function SendTo(s: State, c: nat, e: Event): State {
    if c < |s.chans| && !s.chans[c].closed then s.(chans := s.chans[c := Offering(s.chans[c], e)]) else s.(fault := true)
  }

  function CloseChan(s: State, c: nat): State {
    if c < |s.chans| && !s.chans[c].closed then s.(chans := s.chans[c := s.chans[c].(closed := true, stage := Shut)])
    else s.(fault := true)
  }

  /** What a writer does first when it has the lock. */
  function Entered(s: State, p: nat, op: Op, order: seq<string>): State
    requires p < |s.pcs|
  {
    match op
    case Subscribe(ch) =>
      if ch < |s.chans| then
        var t := s.chans[ch].topic;
        Goto(s, p, Unlocking).(subs := s.subs[t := Subs(s, t) + [ch]],
                               chans := s.chans[ch := s.chans[ch].(stage := Listed, since := s.count)])
      else Goto(s, p, Unlocking)
    case Unsubscribe(t, ch) =>
      if ch in Subs(s, t) && ch < |s.chans| then
        Goto(s, p, Closing(ch)).(subs := Without(s.subs, t, ch), chans := s.chans[ch := s.chans[ch].(stage := Taken(p))])
      else Goto(s, p, Unlocking)
    case CloseAll => Goto(s, p, Sweep(order, 0))
  }

  function Called(s: State, p: nat, request: Request): State
    requires p < |s.pcs|
  {
    match request
    case Publishing => Goto(s, p, WaitRead)
    case Subscribing(t) =>
      Goto(s, p, WaitWrite(Subscribe(|s.chans|))).(chans := s.chans + [Chan(t, false, [], [], Made(p), s.count, [])])
    case Unsubscribing(t, ch) => Goto(s, p, WaitWrite(Unsubscribe(t, ch)))
    case ClosingAll => Goto(s, p, WaitWrite(CloseAll))
  }

  function Stepped(s: State, p: nat, order: seq<string>): State
    requires Sized(s) && p < |s.pcs|
  {
    match s.pcs[p]
    case Idle => s
    case WaitRead => Goto(s, p, Loop(Subs(s, s.topic[p]), 0)).(readers := s.readers + {p})
    case Loop(list, i) =>
      if i < |list| then SendTo(Goto(s, p, Loop(list, i + 1)), list[i], Event(p, s.count[p]))
      else Goto(s, p, Idle).(readers := s.readers - {p}, count := s.count[p := s.count[p] + 1])
    case WaitWrite(op) => Goto(s, p, Announced(op)).(writer := Some(p))
    case Announced(op) => Entered(s, p, op, order)
    case Closing(ch) => CloseChan(Goto(s, p, Unlocking), ch)
    case Sweep(todo, k) =>
      if todo == [] then Goto(s, p, Unlocking)
      else
        var list := Subs(s, todo[0]);
        if k < |list| then CloseChan(Goto(s, p, Sweep(todo, k + 1)), list[k])
        else Goto(s, p, Sweep(todo[1..], 0)).(subs := s.subs - {todo[0]})
    case Unlocking => Goto(s, p, Idle).(writer := None)
  }

  function Received(s: State, c: nat): State
    requires c < |s.chans| && s.chans[c].buf != []
  {
    var ch := s.chans[c];
    s.(chans := s.chans[c := ch.(buf := ch.buf[1..], received := ch.received + [ch.buf[0]])])
  }

  ghost function Next(s: State, a: Action): (r: State)
    requires Sized(s) && Enabled(s, a)
    ensures Sized(r) && |r.pcs| == |s.pcs| && r.topic == s.topic
  {
    match a
    case Call(p, request) => Called(s, p, request)
    case Step(p, order) => Stepped(s, p, order)
    case Receive(c) => Received(s, c)
  }

  // ---- what every step keeps ----

  predicate Holds(pc: PC) {
    pc.Closing? || pc.Sweep? || pc.Unlocking?
  }

  /** The lock: the readers are the threads in the publish loop, at most one thread writes, and
      never beside a reader. */
  ghost predicate LockOk(s: State) {
    && (forall p | p in s.readers :: p < |s.pcs|)
    && (forall p | 0 <= p < |s.pcs| :: p in s.readers <==> s.pcs[p].Loop?)
    && (s.writer.Some? ==> s.writer.value < |s.pcs|)
    && (forall p | 0 <= p < |s.pcs| :: s.writer == Some(p) <==> s.pcs[p].Announced? || Holds(s.pcs[p]))
    && (forall p | 0 <= p < |s.pcs| && Holds(s.pcs[p]) :: s.readers == {})
  }

  ghost predicate PcOk(s: State, p: nat)
    requires p < |s.pcs| == |s.topic|
  {
    match s.pcs[p]
    case Loop(list, i) => list == Subs(s, s.topic[p]) && i <= |list|
    case WaitWrite(op) => op.Subscribe? ==> op.ch < |s.chans| && s.chans[op.ch].stage == Made(p)
    case Announced(op) => op.Subscribe? ==> op.ch < |s.chans| && s.chans[op.ch].stage == Made(p)
    case Closing(ch) => ch < |s.chans| && s.chans[ch].stage == Taken(p)
    case Sweep(todo, k) => Enumerates(todo, s.subs) && (todo == [] || k <= |Subs(s, todo[0])|)
    case _ => true
  }

  /** `Close` has closed the `j`-th channel of `t` but not yet deleted the topic. */
  predicate Swept(s: State, t: string, j: int) {
    && s.writer.Some? && s.writer.value < |s.pcs|
    && match s.pcs[s.writer.value]
       case Sweep(todo, k) => todo != [] && todo[0] == t && j < k
       case _ => false
  }

  /** The map: no empty list, no channel twice, and only listed channels, but for those that
      `Close` is about to drop. */
  ghost predicate MapOk(s: State) {
    && (forall t | t in s.subs :: s.subs[t] != [])
    && (forall t, i, j | t in s.subs && 0 <= i < j < |s.subs[t]| :: s.subs[t][i] != s.subs[t][j])
    && (forall t, j | t in s.subs && 0 <= j < |s.subs[t]| ::
          var c := s.subs[t][j];
          c < |s.chans| && s.chans[c].topic == t && s.chans[c].stage == if Swept(s, t, j) then Shut else Listed)
  }

  ghost predicate ChansOk(s: State) {
    forall c | 0 <= c < |s.chans| ::
      && (s.chans[c].closed <==> s.chans[c].stage == Shut)
      && (s.chans[c].stage == Listed ==> c in Subs(s, s.chans[c].topic))
  }

  ghost predicate Inv(s: State) {
    && Sized(s)
    && LockOk(s)
    && (forall p | 0 <= p < |s.pcs| :: PcOk(s, p))
    && MapOk(s)
    && ChansOk(s)
    && !s.fault
  }

  lemma KeepCalled(s: State, p: nat, request: Request)
    requires Inv(s) && p < |s.pcs| && s.pcs[p] == Idle
    ensures Inv(Called(s, p, request))
  {
    forall q | 0 <= q < |s.pcs| ensures PcOk(Called(s, p, request), q) {
      assert PcOk(s, q);
    }
  }

  lemma KeepReceived(s: State, c: nat)
    requires Inv(s) && c < |s.chans| && s.chans[c].buf != []
    ensures Inv(Received(s, c))
  {
    forall q | 0 <= q < |s.pcs| ensures PcOk(Received(s, c), q) {
      assert PcOk(s, q);
    }
  }

  /** The publish loop finds every channel of its list open. */
  lemma KeepSend(s: State, p: nat)
    requires Inv(s) && p < |s.pcs| && s.pcs[p].Loop? && s.pcs[p].i < |s.pcs[p].list|
    ensures Inv(Stepped(s, p, []))
  {
    assert PcOk(s, p) && p in s.readers;
    forall q | 0 <= q < |s.pcs| ensures PcOk(Stepped(s, p, []), q) {
      assert PcOk(s, q);
    }
  }

  lemma KeepReadUnlock(s: State, p: nat)
    requires Inv(s) && p < |s.pcs| && s.pcs[p].Loop? && s.pcs[p].i >= |s.pcs[p].list|
    ensures Inv(Stepped(s, p, []))
  {
    forall q | 0 <= q < |s.pcs| ensures PcOk(Stepped(s, p, []), q) {
      assert PcOk(s, q);
    }
  }

  lemma KeepWait(s: State, p: nat, order: seq<string>)
    requires Inv(s) && p < |s.pcs| && Ready(s, s.pcs[p]) && (s.pcs[p].WaitRead? || s.pcs[p].WaitWrite?)
    ensures Inv(Stepped(s, p, order))
  {
    forall q | 0 <= q < |s.pcs| ensures PcOk(Stepped(s, p, order), q) {
      assert PcOk(s, q);
    }
  }

  lemma KeepListed(s: State, p: nat, ch: nat)
    requires Inv(s) && p < |s.pcs| && s.readers == {} && s.pcs[p] == Announced(Subscribe(ch))
    ensures MapOk(Entered(s, p, Subscribe(ch), [])) && ChansOk(Entered(s, p, Subscribe(ch), []))
  {
    assert PcOk(s, p);
  }

  lemma KeepSubscribe(s: State, p: nat, ch: nat)
    requires Inv(s) && p < |s.pcs| && s.readers == {} && s.pcs[p] == Announced(Subscribe(ch))
    ensures Inv(Entered(s, p, Subscribe(ch), []))
  {
    KeepListed(s, p, ch);
    forall q | 0 <= q < |s.pcs| ensures PcOk(Entered(s, p, Subscribe(ch), []), q) {
      assert PcOk(s, q) && PcOk(s, p);
    }
  }

  /** The lists after taking out the `i`-th channel of `t`. */
  lemma WithoutLists(m: map<string, seq<nat>>, t: string, i: nat)
    requires t in m && i < |m[t]| && m[t][i] !in m[t][..i]
    ensures var w, l := Without(m, t, m[t][i]), m[t];
            && (forall u | u in w :: u in m)
            && (forall u | u in m && u != t :: u in w && w[u] == m[u])
            && (if t in w then w[t] != [] && |w[t]| == |l| - 1 && (forall j | 0 <= j < |w[t]| :: w[t][j] == l[if j < i then j else j + 1])
                else |l| == 1)
  {
    RemoveAt(m[t], i);
  }

  lemma KeepTakenMap(s: State, p: nat, t: string, i: nat)
    requires Inv(s) && p < |s.pcs| && s.readers == {} && t in s.subs && i < |s.subs[t]|
    requires s.pcs[p] == Announced(Unsubscribe(t, s.subs[t][i]))
    ensures MapOk(Entered(s, p, Unsubscribe(t, s.subs[t][i]), []))
  {
    var ch := s.subs[t][i];
    var s' := Entered(s, p, Unsubscribe(t, ch), []);
    WithoutLists(s.subs, t, i);
    forall u, j | u in s'.subs && 0 <= j < |s'.subs[u]|
      ensures var c := s'.subs[u][j]; c < |s.chans| && c != ch && s'.chans[c].topic == u && s'.chans[c].stage == Listed
    {
      assert u in s.subs && s'.subs[u][j] == s.subs[u][if u == t && j >= i then j + 1 else j];
    }
  }

  /** Every other channel stays where it is. */
  lemma WithoutOthers(m: map<string, seq<nat>>, t: string, i: nat, u: string, c: nat)
    requires t in m && i < |m[t]| && m[t][i] !in m[t][..i]
    requires u in m && c in m[u] && c != m[t][i]
    ensures u in Without(m, t, m[t][i]) && c in Without(m, t, m[t][i])[u]
  {
    WithoutLists(m, t, i);
    var j :| 0 <= j < |m[u]| && m[u][j] == c;
    if u == t {
      assert Without(m, t, m[t][i])[u][if j < i then j else j - 1] == c;
    }
  }

  lemma KeepTakenChans(s: State, p: nat, t: string, i: nat)
    requires Inv(s) && p < |s.pcs| && s.readers == {} && t in s.subs && i < |s.subs[t]|
    requires s.pcs[p] == Announced(Unsubscribe(t, s.subs[t][i]))
    ensures ChansOk(Entered(s, p, Unsubscribe(t, s.subs[t][i]), []))
  {
    var ch := s.subs[t][i];
    forall c | 0 <= c < |s.chans| && c != ch && s.chans[c].stage == Listed
      ensures c in Subs(Entered(s, p, Unsubscribe(t, ch), []), s.chans[c].topic)
    {
      WithoutOthers(s.subs, t, i, s.chans[c].topic, c);
    }
  }

  lemma KeepTaken(s: State, p: nat, t: string, i: nat)
    requires Inv(s) && p < |s.pcs| && s.readers == {} && t in s.subs && i < |s.subs[t]|
    requires s.pcs[p] == Announced(Unsubscribe(t, s.subs[t][i]))
    ensures Inv(Entered(s, p, Unsubscribe(t, s.subs[t][i]), []))
  {
    KeepTakenMap(s, p, t, i);
    KeepTakenChans(s, p, t, i);
    forall q | 0 <= q < |s.pcs| ensures PcOk(Entered(s, p, Unsubscribe(t, s.subs[t][i]), []), q) {
      assert PcOk(s, q);
    }
  }

  lemma KeepUnsubscribe(s: State, p: nat, t: string, ch: nat)
    requires Inv(s) && p < |s.pcs| && s.readers == {} && s.pcs[p] == Announced(Unsubscribe(t, ch))
    ensures Inv(Entered(s, p, Unsubscribe(t, ch), []))
  {
    if t in s.subs && ch in s.subs[t] {
      var i :| 0 <= i < |s.subs[t]| && s.subs[t][i] == ch;
      KeepTaken(s, p, t, i);
    } else {
      forall q | 0 <= q < |s.pcs| ensures PcOk(Entered(s, p, Unsubscribe(t, ch), []), q) {
        assert PcOk(s, q);
      }
    }
  }

  lemma KeepEntered(s: State, p: nat, order: seq<string>)
    requires Inv(s) && p < |s.pcs| && s.readers == {} && s.pcs[p] == Announced(CloseAll) && Enumerates(order, s.subs)
    ensures Inv(Stepped(s, p, order))
  {
    forall q | 0 <= q < |s.pcs| ensures PcOk(Stepped(s, p, order), q) {
      assert PcOk(s, q);
    }
  }

  lemma KeepClosing(s: State, p: nat)
    requires Inv(s) && p < |s.pcs| && (s.pcs[p].Closing? || s.pcs[p].Unlocking?)
    ensures Inv(Stepped(s, p, []))
  {
    assert PcOk(s, p);
    forall q | 0 <= q < |s.pcs| ensures PcOk(Stepped(s, p, []), q) {
      assert PcOk(s, q);
    }
  }

  /** `Close` closes a channel that is still open. */
  lemma KeepSweepClose(s: State, p: nat)
    requires Inv(s) && p < |s.pcs| && s.pcs[p].Sweep? && s.pcs[p].todo != [] && s.pcs[p].k < |Subs(s, s.pcs[p].todo[0])|
    ensures Inv(Stepped(s, p, []))
  {
    assert PcOk(s, p);
    forall q | 0 <= q < |s.pcs| ensures PcOk(Stepped(s, p, []), q) {
      assert PcOk(s, q);
    }
  }

  lemma KeepSweepDelete(s: State, p: nat)
    requires Inv(s) && p < |s.pcs| && s.pcs[p].Sweep? && s.pcs[p].todo != [] && s.pcs[p].k >= |Subs(s, s.pcs[p].todo[0])|
    ensures Inv(Stepped(s, p, []))
  {
    assert PcOk(s, p);
    forall q | 0 <= q < |s.pcs| ensures PcOk(Stepped(s, p, []), q) {
      assert PcOk(s, q);
    }
  }

  lemma KeepSweepEnd(s: State, p: nat)
    requires Inv(s) && p < |s.pcs| && s.pcs[p].Sweep? && s.pcs[p].todo == []
    ensures Inv(Stepped(s, p, []))
  {
    assert PcOk(s, p);
    forall q | 0 <= q < |s.pcs| ensures PcOk(Stepped(s, p, []), q) {
      assert PcOk(s, q);
    }
  }
}
