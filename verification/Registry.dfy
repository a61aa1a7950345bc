/**
 The registry on top of the bus: `StartAll` starts a bridge and a service goroutine for every
 service, each bridge publishes what its service puts on its output channel, and `StopAll`
 cancels and waits for the wait group. Thread `i` of the bus is the bridge of service `i`;
 the other threads are clients.
 */
module Registry {
  import opened BusProtocol
  import opened BusSafety
  import opened BusTopics
  import opened BusDelivery
  import opened BusProgress

  datatype Life = Unborn | Live | Ended

  /** A bridge waits for its service's output or publishes what it took from it. */
  datatype Bridge = NotYet | Waiting | Forwarding(item: nat) | Gone

  /** `out` and `shut` are the output channel; the items are numbered as the service emits them. */
  datatype Svc = Svc(life: Life, bridge: Bridge, out: seq<nat>, shut: bool, emitted: nat)

  /** `StopAll`: cancel, call `Stop` on every service, wait, return. */
  datatype StopPC = Unstopped | Stopping(i: nat) | Awaiting | Returned

  /** `StartAll` has started `started` services and done `phase` of the four things it does for
      the next: count the bridge, start it, count the service, start it. */
  datatype System = System(bus: State, svcs: seq<Svc>, started: nat, phase: nat, wg: int, cancelled: bool, stop: StopPC)

  datatype Move =
    | Client(a: Action)            // a client calls, or a subscriber receives
    | Thread(p: nat, order: seq<string>)   // a bridge or a client takes a step inside a bus call
    | Start
    | Emit(i: nat)
    | Shut(i: nat)
    | ServiceEnds(i: nat)
    | Take(i: nat)
    | BridgeEnds(i: nat)
    | Cancel                        // the parent context ends
    | StopCalled
    | StopNext
    | StopReturns

  predicate Fits(r: System) {
    Sized(r.bus) && |r.svcs| <= |r.bus.pcs| && r.started <= |r.svcs| && r.phase < 4 && (r.started == |r.svcs| ==> r.phase == 0)
  }

  predicate Begins(r: System) {
    && Fits(r) && Init(r.bus) && r.started == 0 && r.phase == 0 && r.wg == 0 && !r.cancelled && r.stop == Unstopped
    && forall i | 0 <= i < |r.svcs| :: r.svcs[i] == Svc(Unborn, NotYet, [], false, 0)
  }

  ghost predicate CanMove(r: System, m: Move)
    requires Fits(r)
  {
    match m
    case Client(a) => !a.Step? && Enabled(r.bus, a) && (a.Call? ==> a.p >= |r.svcs|)
    case Thread(p, order) => Enabled(r.bus, Step(p, order))
    case Start => r.started < |r.svcs| && r.stop == Unstopped
    case Emit(i) => i < |r.svcs| && r.svcs[i].life == Live && !r.svcs[i].shut
    case Shut(i) => i < |r.svcs| && r.svcs[i].life == Live && !r.svcs[i].shut
    case ServiceEnds(i) => i < |r.svcs| && r.svcs[i].life == Live
    case Take(i) => i < |r.svcs| && r.svcs[i].bridge == Waiting && r.svcs[i].out != [] && r.bus.pcs[i] == Idle
    case BridgeEnds(i) =>
      i < |r.svcs| && r.svcs[i].bridge == Waiting && (r.cancelled || (r.svcs[i].shut && r.svcs[i].out == []))
    case Cancel => !r.cancelled
    case StopCalled => r.stop == Unstopped && r.started == |r.svcs|
    case StopNext => r.stop.Stopping?
    case StopReturns => r.stop == Awaiting && r.wg == 0
  }

  function With(r: System, i: nat, v: Svc): System
    requires i < |r.svcs|
  {
    r.(svcs := r.svcs[i := v])
  }

  /** A step of thread `p` inside the bus; when it is a bridge whose publication is done, it
      waits again. */
  function Threaded(r: System, p: nat, bus: State): System
    requires p < |bus.pcs|
  {
    var r' := r.(bus := bus);
    if p < |r.svcs| && bus.pcs[p] == Idle then With(r', p, r.svcs[p].(bridge := Waiting)) else r'
  }

  function Started(r: System): System
    requires r.started < |r.svcs|
  {
    var i, v := r.started, r.svcs[r.started];
    match r.phase
    case 1 => With(r, i, v.(bridge := Waiting)).(phase := 2)
    case 3 => With(r, i, v.(life := Live)).(phase := 0, started := i + 1)
    case _ => r.(wg := r.wg + 1, phase := r.phase + 1)
  }

  ghost function Moved(r: System, m: Move): System
    requires Fits(r) && CanMove(r, m)
  {
    match m
    case Client(a) => r.(bus := Next(r.bus, a))
    case Thread(p, order) => Threaded(r, p, Next(r.bus, Step(p, order)))
    case Start => Started(r)
    case Emit(i) => var v := r.svcs[i]; With(r, i, v.(out := v.out + [v.emitted], emitted := v.emitted + 1))
    case Shut(i) => With(r, i, r.svcs[i].(shut := true))
    case ServiceEnds(i) => With(r, i, r.svcs[i].(life := Ended)).(wg := r.wg - 1)
    case Take(i) =>
      var v := r.svcs[i];
      With(r, i, v.(out := v.out[1..], bridge := Forwarding(v.out[0]))).(bus := Next(r.bus, Call(i, Publishing)))
    case BridgeEnds(i) => With(r, i, r.svcs[i].(bridge := Gone)).(wg := r.wg - 1)
    case Cancel => r.(cancelled := true)
    case StopCalled => r.(cancelled := true, stop := Stopping(0))
    case StopNext => r.(stop := if r.stop.i < |r.svcs| then Stopping(r.stop.i + 1) else Awaiting)
    case StopReturns => r.(stop := Returned)
  }

  // ---- what every move keeps ----

  predicate Lives(b: Bridge) {
    b.Waiting? || b.Forwarding?
  }

  function LiveOf(v: Svc): nat {
    (if v.life == Live then 1 else 0) + (if Lives(v.bridge) then 1 else 0)
  }

  function LiveCounts(svcs: seq<Svc>): (w: seq<nat>)
    ensures |w| == |svcs| && forall i | 0 <= i < |w| :: w[i] == LiveOf(svcs[i])
  {
    seq(|svcs|, i requires 0 <= i < |svcs| => LiveOf(svcs[i]))
  }

  /** One service: the items it emitted are those already published, the one being published and
      those still on the channel, in this order. */
  ghost predicate SvcOk(r: System, i: nat)
    requires Fits(r) && i < |r.svcs|
  {
    var v, pc, n := r.svcs[i], r.bus.pcs[i], r.bus.count[i];
    && (pc.Idle? || pc.WaitRead? || pc.Loop?)
    && (v.bridge.Forwarding? <==> pc != Idle)
    && (v.bridge.Forwarding? ==> v.bridge.item == n)
    && (var taken := if v.bridge.Forwarding? then n + 1 else n; v.out == Span(taken, |v.out|) && taken + |v.out| == v.emitted)
    && (v.bridge == NotYet <==> i > r.started || (i == r.started && r.phase <= 1))
    && (v.life == Unborn <==> i >= r.started)
  }

  predicate Counted(r: System) {
    r.wg == Sum(LiveCounts(r.svcs)) + r.phase % 2
  }

  ghost predicate Sound(r: System) {
    && Fits(r) && Inv(r.bus) && History(r.bus) && OwnTopics(r.bus)
    && (forall i | 0 <= i < |r.svcs| :: SvcOk(r, i))
    && Counted(r)
    && (r.stop != Unstopped ==> r.started == |r.svcs| && r.cancelled)
    && (r.stop.Stopping? ==> r.stop.i <= |r.svcs|)
    && (r.stop == Returned ==> r.wg == 0)
  }

  lemma BeginsSound(r: System)
    requires Begins(r)
    ensures Sound(r)
  {
    NoneLive(r.svcs);
    forall i | 0 <= i < |r.svcs| ensures SvcOk(r, i) {}
  }

  lemma {:induction false} NoneLive(svcs: seq<Svc>)
    requires forall i | 0 <= i < |svcs| :: LiveOf(svcs[i]) == 0
    ensures Sum(LiveCounts(svcs)) == 0
  {
    if svcs != [] {
      NoneLive(svcs[1..]);
      assert LiveCounts(svcs)[1..] == LiveCounts(svcs[1..]);
    }
  }

  lemma Recount(r: System, i: nat, v: Svc)
    requires i < |r.svcs|
    ensures Sum(LiveCounts(With(r, i, v).svcs)) + LiveOf(r.svcs[i]) == Sum(LiveCounts(r.svcs)) + LiveOf(v)
  {
    assert LiveCounts(With(r, i, v).svcs) == LiveCounts(r.svcs)[i := LiveOf(v)];
    SumUpdate(LiveCounts(r.svcs), i, LiveOf(v));
  }

  /** A client's action and a step inside the bus leave every service consistent. */
  lemma ClientKeeps(r: System, a: Action, i: nat)
    requires Fits(r) && CanMove(r, Client(a)) && i < |r.svcs| && SvcOk(r, i)
    ensures SvcOk(Moved(r, Client(a)), i)
  {
  }

  /** What a step of thread `p` may do to a publisher: enter the loop, go round it, or finish,
      which counts one more publication. */
  predicate Published(s: State, s': State, p: nat)
    requires Sized(s) && Sized(s') && |s'.pcs| == |s.pcs| && p < |s.pcs|
  {
    if s.pcs[p].WaitRead? then s'.pcs[p].Loop? && s'.count[p] == s.count[p]
    else if s.pcs[p].Loop? then
      if s'.pcs[p] == Idle then s'.count[p] == s.count[p] + 1 else s'.pcs[p].Loop? && s'.count[p] == s.count[p]
    else true
  }

  lemma StepPublishes(s: State, p: nat, order: seq<string>)
    requires Sized(s) && p < |s.pcs| && Ready(s, s.pcs[p])
    ensures var s' := Stepped(s, p, order);
            && Sized(s') && |s'.pcs| == |s.pcs| && Published(s, s', p)
            && forall q | 0 <= q < |s.pcs| && q != p :: s'.pcs[q] == s.pcs[q] && s'.count[q] == s.count[q]
  {
  }

  lemma ThreadKeeps(r: System, p: nat, bus: State, i: nat)
    requires Fits(r) && Sized(bus) && |bus.pcs| == |r.bus.pcs| && p < |bus.pcs|
    requires Published(r.bus, bus, p) && r.bus.pcs[p] != Idle
    requires forall q | 0 <= q < |bus.pcs| && q != p :: bus.pcs[q] == r.bus.pcs[q] && bus.count[q] == r.bus.count[q]
    requires i < |r.svcs| && SvcOk(r, i)
    ensures SvcOk(Threaded(r, p, bus), i)
  {
  }

  lemma ThreadCounted(r: System, p: nat, bus: State)
    requires Fits(r) && Counted(r) && p < |bus.pcs| == |r.bus.pcs|
    requires r.bus.pcs[p] != Idle && (p < |r.svcs| ==> SvcOk(r, p))
    ensures Counted(Threaded(r, p, bus))
  {
    if p < |r.svcs| {
      Recount(r, p, r.svcs[p].(bridge := Waiting));
    }
  }

  lemma TakeKeeps(r: System, j: nat, i: nat)
    requires Fits(r) && CanMove(r, Take(j)) && i < |r.svcs| && SvcOk(r, i)
    ensures SvcOk(Moved(r, Take(j)), i)
  {
  }

  /** So do the moves outside the bus. */
  lemma OtherKeeps(r: System, m: Move, i: nat)
    requires Fits(r) && CanMove(r, m) && !m.Client? && !m.Thread? && !m.Take?
    requires i < |r.svcs| && SvcOk(r, i)
    ensures SvcOk(Moved(r, m), i)
  {
  }

  lemma SvcsKept(r: System, m: Move)
    requires Sound(r) && CanMove(r, m)
    ensures forall i | 0 <= i < |Moved(r, m).svcs| :: SvcOk(Moved(r, m), i)
  {
    forall i | 0 <= i < |r.svcs| ensures SvcOk(Moved(r, m), i) {
      assert SvcOk(r, i);
      match m
      case Client(a) => ClientKeeps(r, a, i);
      case Thread(p, order) =>
        StepPublishes(r.bus, p, order);
        ThreadKeeps(r, p, Next(r.bus, Step(p, order)), i);
      case Take(j) => TakeKeeps(r, j, i);
      case _ => OtherKeeps(r, m, i);
    }
  }

  lemma StartCounted(r: System)
    requires Fits(r) && Counted(r) && r.started < |r.svcs| && SvcOk(r, r.started)
    ensures Counted(Started(r))
  {
    var v := r.svcs[r.started];
    Recount(r, r.started, v.(bridge := Waiting));
    Recount(r, r.started, v.(life := Live));
  }

  lemma ServiceCounted(r: System, m: Move)
    requires Fits(r) && Counted(r) && CanMove(r, m) && (m.Emit? || m.Shut? || m.ServiceEnds? || m.BridgeEnds? || m.Take?)
    ensures Counted(Moved(r, m))
  {
    Recount(r, m.i, Moved(r, m).svcs[m.i]);
  }

  /** The wait group goes up and down with the goroutines. */
  lemma CountKept(r: System, m: Move)
    requires Sound(r) && CanMove(r, m)
    ensures Counted(Moved(r, m))
  {
    match m
    case Thread(p, order) =>
      if p < |r.svcs| { assert SvcOk(r, p); }
      ThreadCounted(r, p, Next(r.bus, Step(p, order)));
    case Start =>
      assert SvcOk(r, r.started);
      StartCounted(r);
    case Client(_) =>
    case Cancel =>
    case StopCalled =>
    case StopNext =>
    case StopReturns =>
    case _ => ServiceCounted(r, m);
  }

  /** What a move does to the bus, as a run of the bus. */
  function BusRun(m: Move): seq<Action> {
    match m
    case Client(a) => [a]
    case Thread(p, order) => [Step(p, order)]
    case Take(i) => [Call(i, Publishing)]
    case _ => []
  }

  lemma BusKept(r: System, m: Move)
    requires Fits(r) && CanMove(r, m)
    ensures Possible(r.bus, BusRun(m)) && Moved(r, m).bus == After(r.bus, BusRun(m)) && Fits(Moved(r, m))
  {
    if BusRun(m) != [] {
      var a := BusRun(m)[0];
      assert Enabled(r.bus, a);
      assert BusRun(m)[1..] == [];
      assert After(r.bus, BusRun(m)) == After(Next(r.bus, a), []);
    }
  }
}
