/**
 The alert monitor's state: the active alerts, the history and the snapshots it publishes.
 */
module Alerts {
  import opened Options
  import opened Sequences
  import opened AlertVerdicts

  const OUT_SIZE := 8

  /** A snapshot shares the array of the history it was made from. */
  datatype Snapshot = Snapshot(active: seq<Alert>, history: array<Alert>, len: nat)

  /** Every alert ever set, newest first. */
  function Log(vs: seq<Verdict>): seq<Alert> {
    if vs == [] then []
    else
      var front, last := Log(vs[..|vs| - 1]), vs[|vs| - 1];
      if last.alert.Some? then [last.alert.value] + front else front
  }

  function Limit(cfg: Config): nat {
    if cfg.maxHistory <= 0 then 50 else cfg.maxHistory
  }

  function Least(a: nat, b: nat): nat {
    if a < b then a else b
  }

  /** No source occurs twice. */
  ghost predicate SourcesDiffer(shown: seq<Alert>) {
    forall i, j | 0 <= i < j < |shown| :: shown[i].source != shown[j].source
  }

  /** `shown` lists the alerts of `active`, each once, in some order. */
  ghost predicate Lists(shown: seq<Alert>, active: map<Key, Alert>) {
    && SourcesDiffer(shown)
    && (forall i | 0 <= i < |shown| :: shown[i].source in active && active[shown[i].source] == shown[i])
    && (forall k | k in active :: active[k] in shown)
  }

  /** The snapshot shows the state as it was after the verdicts `vs`: the alerts then active, each
      once, and the newest part of the log of that time. */
  ghost predicate Shows(snap: Snapshot, vs: seq<Verdict>)
    reads snap.history
  {
    && snap.len <= snap.history.Length && snap.history[..snap.len] <= Log(vs)
    && SourcesDiffer(snap.active)
    && (forall i | 0 <= i < |snap.active| :: Decided(vs, snap.active[i].source) == Some(snap.active[i]))
    && (forall k | Decided(vs, k).Some? :: Decided(vs, k).value in snap.active)
  }

  ghost predicate Ascends(s: seq<nat>, limit: nat) {
    && (forall i | 0 <= i < |s| :: s[i] <= limit)
    && (forall i, j | 0 <= i < j < |s| :: s[i] < s[j])
  }

  /** `active` holds what the verdicts `vs` have decided. */
  ghost predicate Holds(active: map<Key, Alert>, vs: seq<Verdict>) {
    && (forall k :: k in active <==> Decided(vs, k).Some?)
    && (forall k | k in active :: active[k] == Decided(vs, k).value && active[k].source == k)
  }

  lemma HoldsNext(active: map<Key, Alert>, vs: seq<Verdict>, key: Key, alert: Alert)
    requires Holds(active, vs) && alert.source == key
    ensures Holds(active[key := alert], vs + [Verdict(key, Some(alert))])
  {
    LogNext(vs, Verdict(key, Some(alert)));
  }

  lemma HoldsWithout(active: map<Key, Alert>, vs: seq<Verdict>, key: Key)
    requires Holds(active, vs)
    ensures Holds(active - {key}, vs + [Verdict(key, None)])
  {
    LogNext(vs, Verdict(key, None));
  }

  /** The snapshots in the channel are the last of all that got there; each shows its moment. */
  ghost predicate ShotsShow(out: seq<Snapshot>, shots: seq<nat>, vs: seq<Verdict>)
    reads set i | 0 <= i < |out| :: out[i].history
  {
    && |out| <= |shots| && Ascends(shots, |vs|)
    && forall i | 0 <= i < |out| :: Shows(out[i], vs[..shots[|shots| - |out| + i]])
  }

  ghost predicate ShotsFull(out: seq<Snapshot>, shots: seq<nat>, vs: seq<Verdict>, limit: nat) {
    && |out| <= |shots| && Ascends(shots, |vs|)
    && forall i | 0 <= i < |out| :: FullLength(out[i], vs[..shots[|shots| - |out| + i]], limit)
  }

  /** Nothing of the log is missing in the snapshot but what the limit cuts off. */
  ghost predicate FullLength(snap: Snapshot, vs: seq<Verdict>, limit: nat) {
    snap.len == Least(|Log(vs)|, limit)
  }

  /** One more verdict does not change what the snapshots show. */
  lemma VerdictNext(out: seq<Snapshot>, shots: seq<nat>, vs: seq<Verdict>, v: Verdict)
    requires ShotsShow(out, shots, vs)
    ensures ShotsShow(out, shots, vs + [v]) && Ascends(shots + [|vs + [v]|], |vs + [v]|)
  {
    forall n: nat | n <= |vs| ensures (vs + [v])[..n] == vs[..n] {}
  }

  lemma VerdictFullNext(out: seq<Snapshot>, shots: seq<nat>, vs: seq<Verdict>, v: Verdict, limit: nat)
    requires ShotsFull(out, shots, vs, limit)
    ensures ShotsFull(out, shots, vs + [v], limit)
  {
    forall n: nat | n <= |vs| ensures (vs + [v])[..n] == vs[..n] {}
  }

  /** One more snapshot, taken now. */
  lemma ShotNext(out: seq<Snapshot>, shots: seq<nat>, vs: seq<Verdict>, snap: Snapshot)
    requires ShotsShow(out, shots, vs) && Ascends(shots + [|vs|], |vs|) && Shows(snap, vs)
    ensures ShotsShow(out + [snap], shots + [|vs|], vs)
  {
    var d := |shots| - |out|;
    TakeAll(vs);
    forall i | 0 <= i < |out + [snap]| ensures Shows((out + [snap])[i], vs[..(shots + [|vs|])[d + i]]) {
      if i < |out| {
        assert Shows(out[i], vs[..shots[d + i]]);
      }
    }
  }

  lemma ShotFullNext(out: seq<Snapshot>, shots: seq<nat>, vs: seq<Verdict>, snap: Snapshot, limit: nat)
    requires ShotsFull(out, shots, vs, limit) && Ascends(shots + [|vs|], |vs|)
    requires FullLength(snap, vs, limit)
    ensures ShotsFull(out + [snap], shots + [|vs|], vs, limit)
  {
    var d := |shots| - |out|;
    TakeAll(vs);
    forall i | 0 <= i < |out + [snap]| ensures FullLength((out + [snap])[i], vs[..(shots + [|vs|])[d + i]], limit) {
      if i < |out| {
        assert FullLength(out[i], vs[..shots[d + i]], limit);
      }
    }
  }

  /** The oldest snapshot taken away. */
  lemma ShotTaken(out: seq<Snapshot>, shots: seq<nat>, vs: seq<Verdict>, limit: nat)
    requires ShotsShow(out, shots, vs) && out != []
    ensures ShotsShow(out[1..], shots, vs) && Shows(out[0], vs[..shots[|shots| - |out|]])
    ensures ShotsFull(out, shots, vs, limit) ==>
      ShotsFull(out[1..], shots, vs, limit) && FullLength(out[0], vs[..shots[|shots| - |out|]], limit)
  {
    forall i | 0 <= i < |out| - 1 ensures Shows(out[1..][i], vs[..shots[|shots| - |out| + 1 + i]]) {
      assert Shows(out[i + 1], vs[..shots[|shots| - |out| + (i + 1)]]);
    }
  }

  lemma ShowsNow(alerts: seq<Alert>, active: map<Key, Alert>, history: array<Alert>, kept: nat, vs: seq<Verdict>)
    requires Lists(alerts, active) && Holds(active, vs) && kept <= history.Length && history[..kept] <= Log(vs)
    ensures Shows(Snapshot(alerts, history, kept), vs)
  {
  }

  class Service {
    var cfg: Config
    var active: map<Key, Alert>
    var history: array<Alert>
    var kept: nat
    var out: seq<Snapshot>
    ghost var verdicts: seq<Verdict>
    /** The number of verdicts before each snapshot that ever got into the output channel. */
    ghost var shots: seq<nat>

    /** How many of them the receiver has taken. */
    ghost function Taken(): int
      reads this
    {
      |shots| - |out|
    }

    /** The active alerts are those the last verdict for their key has set; the history is the
        newest part of the log; and the snapshots in the channel still show what they did. */
    ghost predicate Valid()
      reads this, history, set i | 0 <= i < |out| :: out[i].history
    {
      && kept <= history.Length && history[..kept] <= Log(verdicts)
      && Holds(active, verdicts)
      && |out| <= OUT_SIZE && ShotsShow(out, shots, verdicts)
    }

    /** Nothing of the log is missing but what the limit cuts off, in no snapshot either. */
    ghost predicate Full()
      reads this
    {
      kept == Least(|Log(verdicts)|, Limit(cfg)) && ShotsFull(out, shots, verdicts, Limit(cfg))
    }

    /** What the checks leave as it is: the configuration, and the snapshots published before. */
    twostate predicate Kept()
      reads this, history, set i | 0 <= i < |out| :: out[i].history
    {
      && Valid() && (old(Full()) ==> Full()) && cfg == old(cfg)
      && old(shots) <= shots && Taken() == old(Taken())
    }

    /** The state was offered to the output channel; a full channel drops it. */
    ghost predicate Announced(before: seq<Snapshot>)
      reads this
    {
      if |before| >= OUT_SIZE then out == before
      else |out| == |before| + 1 && out[..|before|] == before
           && Lists(out[|before|].active, active) && out[|before|].history == history && out[|before|].len == kept
    }

    constructor (cfg: Config)
      ensures Valid() && Full() && this.cfg == cfg && verdicts == [] && out == [] && shots == []
    {
      this.cfg := cfg;
      active := map[];
      history := new Alert[0];
      kept := 0;
      out := [];
      verdicts := [];
      shots := [];
    }

    /** A new configuration may cut the history only when the next alert is set. */
    method Reload(cfg: Config)
      requires Valid()
      modifies this`cfg
      ensures Valid() && this.cfg == cfg
    {
      this.cfg := cfg;
    }

    /** One more verdict; what the snapshots show is of the past. */
    ghost method Note(v: Verdict)
      requires ShotsShow(out, shots, verdicts)
      modifies this`verdicts
      ensures verdicts == old(verdicts) + [v]
      ensures ShotsShow(out, shots, verdicts) && Ascends(shots + [|verdicts|], |verdicts|)
      ensures ShotsFull(out, shots, old(verdicts), Limit(cfg)) ==> ShotsFull(out, shots, verdicts, Limit(cfg))
      ensures Log(verdicts) == if v.alert.Some? then [v.alert.value] + Log(old(verdicts)) else Log(old(verdicts))
    {
      LogNext(verdicts, v);
      VerdictNext(out, shots, verdicts, v);
      if ShotsFull(out, shots, verdicts, Limit(cfg)) {
        VerdictFullNext(out, shots, verdicts, v, Limit(cfg));
      }
      verdicts := verdicts + [v];
    }

    method SetAlert(key: Key, alert: Alert)
      requires Valid() && alert.source == key
      modifies this
      ensures Kept()
      ensures verdicts == old(verdicts) + [Verdict(key, Some(alert))]
      ensures kept == Least(old(kept) + 1, Limit(cfg)) && Announced(old(out))
    {
      Enter(key, alert);
      PublishLocked();
    }

    /** The first part of `setAlert`, before it publishes: the entry and the history. */
    method Enter(key: Key, alert: Alert)
      requires Valid() && alert.source == key
      modifies this`active, this`history, this`kept, this`verdicts
      ensures Valid() && (old(Full()) ==> Full()) && Ascends(shots + [|verdicts|], |verdicts|)
      ensures verdicts == old(verdicts) + [Verdict(key, Some(alert))]
      ensures kept == Least(old(kept) + 1, Limit(cfg))
    {
      PrefixNext(alert, history[..kept], Log(verdicts), Least(kept + 1, Limit(cfg)));
      HoldsNext(active, verdicts, key, alert);
      active := active[key := alert];
      Prepend(alert);
      assert history[..kept] <= [alert] + Log(verdicts);
      Note(Verdict(key, Some(alert)));
    }

    /** The history part of `setAlert`: the new alert goes in front, in a new array, and what
        is beyond the limit is cut off. */
    method Prepend(alert: Alert)
      requires kept <= history.Length
      modifies this`history, this`kept
      ensures fresh(history) && kept == Least(old(kept) + 1, Limit(cfg)) && kept <= history.Length
      ensures history[..kept] == ([alert] + old(history[..kept]))[..kept]
    {
      var n, all := kept + 1, [alert] + history[..kept];
      history := new Alert[n](i requires 0 <= i < n => all[i]);
      assert history[..n] == all;
      kept := n;
      var maxHist := cfg.maxHistory;
      if maxHist <= 0 {
        maxHist := 50;
      }
      if kept > maxHist {
        kept := maxHist;
      }
    }

    method ClearAlert(key: Key)
      requires Valid()
      modifies this
      ensures Kept()
      ensures verdicts == old(verdicts) + [Verdict(key, None)]
      ensures history == old(history) && kept == old(kept)
      ensures if key in old(active) then Announced(old(out)) else active == old(active) && out == old(out)
    {
      var present := Remove(key);
      if present {
        PublishLocked();
      }
    }

    /** The first part of `clearAlert`: the entry is deleted, if there is one. */
    method Remove(key: Key) returns (present: bool)
      requires Valid()
      modifies this`active, this`verdicts
      ensures Valid() && (old(Full()) ==> Full()) && Ascends(shots + [|verdicts|], |verdicts|)
      ensures verdicts == old(verdicts) + [Verdict(key, None)]
      ensures present == (key in old(active)) && active == old(active) - {key}
    {
      HoldsWithout(active, verdicts, key);
      Note(Verdict(key, None));
      present := key in active;
      if present {
        active := active - {key};
      }
      assert active == old(active) - {key};
    }

    /** Publishes the present state, unless the output channel is full. */
    method PublishLocked()
      requires Valid() && Ascends(shots + [|verdicts|], |verdicts|)
      modifies this`out, this`shots
      ensures Kept()
      ensures Announced(old(out))
    {
      var alerts := ListActive(active);
      var snap := Snapshot(alerts, history, kept);
      ShowsNow(alerts, active, history, kept, verdicts);
      Offer(snap);
    }

    /** The select with a default: a full channel drops the snapshot. */
    method Offer(snap: Snapshot)
      requires Valid() && Ascends(shots + [|verdicts|], |verdicts|)
      requires Shows(snap, verdicts) && snap.len == kept
      modifies this`out, this`shots
      ensures Kept()
      ensures out == if |old(out)| < OUT_SIZE then old(out) + [snap] else old(out)
    {
      if |out| < OUT_SIZE {
        ShotNext(out, shots, verdicts, snap);
        if Full() {
          ShotFullNext(out, shots, verdicts, snap, Limit(cfg));
        }
        out := out + [snap];
        shots := shots + [|verdicts|];
      }
    }

    /** The receiver takes the oldest snapshot from the output channel. */
    method Receive() returns (snap: Snapshot)
      requires Valid() && out != []
      modifies this`out
      ensures Valid() && (old(Full()) ==> Full()) && [snap] + out == old(out) && Taken() == old(Taken()) + 1
      ensures Shows(snap, verdicts[..shots[old(Taken())]])
      ensures old(Full()) ==> FullLength(snap, verdicts[..shots[old(Taken())]], Limit(cfg))
    {
      ShotTaken(out, shots, verdicts, Limit(cfg));
      snap := out[0];
      out := out[1..];
    }

    /** The comparison with the two thresholds that every check makes. */
    method Check(key: Key, v: real, warning: real, critical: real)
      requires Valid()
      modifies this
      ensures Kept()
      ensures verdicts == old(verdicts) + [Judge(key, v, warning, critical)]
    {
      if v >= critical {
        SetAlert(key, Alert(Critical, key, v, critical));
      } else if v >= warning {
        SetAlert(key, Alert(Warning, key, v, warning));
      } else {
        ClearAlert(key);
      }
    }

    method CheckCPU(pct: real)
      requires Valid()
      modifies this
      ensures Kept()
      ensures verdicts == old(verdicts) + VerdictsOf(cfg, CpuReading(pct))
    {
      Check(CpuKey, pct, cfg.cpuWarning, cfg.cpuCritical);
      ghost var before := verdicts;
      assert before + [] == before;
      for i := 0 to |cfg.rules|
        invariant Kept()
        invariant verdicts == before + RuleVerdicts(cfg.rules[..i], pct)
      {
        var rule := cfg.rules[i];
        TakeNext(cfg.rules, i);
        if rule.metric == "cpu" {
          Assoc(before, RuleVerdicts(cfg.rules[..i], pct), [RuleVerdict(rule, pct)]);
          CheckRule(rule, pct);
        }
      }
      TakeAll(cfg.rules);
      Assoc(old(verdicts), [Judge(CpuKey, pct, cfg.cpuWarning, cfg.cpuCritical)], RuleVerdicts(cfg.rules, pct));
    }

    /** The body of the loop over the custom rules. */
    method CheckRule(rule: Rule, pct: real)
      requires Valid()
      modifies this
      ensures Kept()
      ensures verdicts == old(verdicts) + [RuleVerdict(rule, pct)]
    {
      var ruleKey := CustomKey(rule.tag);
      if EvaluateCustomRule(rule, pct) {
        var lvl := Warning;
        if rule.severity == "critical" {
          lvl := Critical;
        }
        SetAlert(ruleKey, Alert(lvl, ruleKey, pct, rule.value));
      } else {
        ClearAlert(ruleKey);
      }
    }

    method CheckMemory(pct: real)
      requires Valid()
      modifies this
      ensures Kept()
      ensures verdicts == old(verdicts) + VerdictsOf(cfg, MemoryReading(pct))
    {
      Check(MemoryKey, pct, cfg.memoryWarning, cfg.memoryCritical);
    }

    method CheckDisk(disks: seq<Sample>)
      requires Valid()
      modifies this
      ensures Kept()
      ensures verdicts == old(verdicts) + VerdictsOf(cfg, DiskReading(disks))
    {
      ghost var before := verdicts;
      assert before + [] == before;
      for i := 0 to |disks|
        invariant Kept()
        invariant verdicts == before + DiskVerdicts(cfg, disks[..i])
      {
        TakeNext(disks, i);
        Assoc(before, DiskVerdicts(cfg, disks[..i]), [DiskVerdict(cfg, disks[i])]);
        Check(DiskKey(disks[i].name), disks[i].value, cfg.diskWarning, cfg.diskCritical);
      }
      TakeAll(disks);
    }

    method CheckThermal(zones: seq<Sample>)
      requires Valid()
      modifies this
      ensures Kept()
      ensures verdicts == old(verdicts) + VerdictsOf(cfg, ThermalReading(zones))
    {
      ghost var before := verdicts;
      assert before + [] == before;
      for i := 0 to |zones|
        invariant Kept()
        invariant verdicts == before + ZoneVerdicts(cfg, zones[..i])
      {
        TakeNext(zones, i);
        Assoc(before, ZoneVerdicts(cfg, zones[..i]), [ZoneVerdict(cfg, zones[i])]);
        Check(TempKey(zones[i].name), zones[i].value, cfg.tempWarning, cfg.tempCritical);
      }
      TakeAll(zones);
    }
  }

  /** The body of the monitor's loop: each kind of snapshot goes to its check. */
  method Handle(s: Service, r: Reading)
    requires s.Valid()
    modifies s
    ensures s.Kept()
    ensures s.verdicts == old(s.verdicts) + VerdictsOf(s.cfg, r)
  {
    match r
    case CpuReading(pct) => s.CheckCPU(pct);
    case MemoryReading(pct) => s.CheckMemory(pct);
    case DiskReading(disks) => s.CheckDisk(disks);
    case ThermalReading(zones) => s.CheckThermal(zones);
  }

  /** A reading arrives, or the receiver takes the next snapshot if there is one. */
  datatype Turn = Arrives(reading: Reading) | Takes

  function ReadingsOf(turns: seq<Turn>): seq<Reading> {
    if turns == [] then []
    else
      var front, last := ReadingsOf(turns[..|turns| - 1]), turns[|turns| - 1];
      if last.Arrives? then front + [last.reading] else front
  }

  /** The loop of `Start`, over the readings as they arrive from the four topics, with a receiver
      that takes snapshots in between whenever it likes. From a new store exactly the last verdict on
      each key of the whole run is active in the end, and the history is the newest part of all
      alerts of the run, as long as the limit allows. The snapshots taken show earlier moments of the
      run, in order, and still do at the end: nothing that came later has changed them. */
  method Start(cfg: Config, turns: seq<Turn>) returns (s: Service, got: seq<Snapshot>, ghost moments: seq<nat>)
    ensures fresh(s) && s.Valid() && s.cfg == cfg
    ensures var run := RunVerdicts(cfg, ReadingsOf(turns));
            && (forall k :: k in s.active <==> Decided(run, k).Some?)
            && (forall k | k in s.active :: Some(s.active[k]) == Decided(run, k))
            && s.history[..s.kept] == Log(run)[..Least(|Log(run)|, Limit(cfg))]
    ensures var run := RunVerdicts(cfg, ReadingsOf(turns));
            && |moments| == |got| && Ascends(moments, |run|)
            && forall m | 0 <= m < |got| ::
                 Shows(got[m], run[..moments[m]]) && FullLength(got[m], run[..moments[m]], Limit(cfg))
  {
    s := new Service(cfg);
    got := [];
    for i := 0 to |turns|
      invariant fresh(s) && s.Valid() && s.Full() && s.cfg == cfg && Collected(s, got)
      invariant s.verdicts == RunVerdicts(cfg, ReadingsOf(turns[..i]))
    {
      TakeNext(turns, i);
      match turns[i]
      case Arrives(r) =>
        RunNext(cfg, ReadingsOf(turns[..i]), r);
        HandleOne(s, r, got);
      case Takes =>
        got := TakeOne(s, got);
    }
    TakeAll(turns);
    moments := s.shots[..|got|];
  }

  /** The snapshots received so far are the first that were published, and show their moments. */
  ghost predicate Collected(s: Service, got: seq<Snapshot>)
    reads s, set m | 0 <= m < |got| :: got[m].history
  {
    && |got| == s.Taken() && |got| <= |s.shots| && Ascends(s.shots, |s.verdicts|)
    && forall m | 0 <= m < |got| ::
         && Shows(got[m], s.verdicts[..s.shots[m]])
         && FullLength(got[m], s.verdicts[..s.shots[m]], Limit(s.cfg))
  }

  method HandleOne(s: Service, r: Reading, ghost got: seq<Snapshot>)
    requires s.Valid() && s.Full() && Collected(s, got)
    modifies s
    ensures s.Kept() && Collected(s, got)
    ensures s.verdicts == old(s.verdicts) + VerdictsOf(s.cfg, r)
  {
    ghost var was, shots := s.verdicts, s.shots;
    Handle(s, r);
    forall m | 0 <= m < |got| ensures s.shots[m] == shots[m] && s.verdicts[..s.shots[m]] == was[..shots[m]] {}
  }

  method TakeOne(s: Service, got: seq<Snapshot>) returns (now: seq<Snapshot>)
    requires s.Valid() && s.Full() && Collected(s, got)
    modifies s`out
    ensures s.Valid() && s.Full() && Collected(s, now)
  {
    now := got;
    if s.out != [] {
      var snap := s.Receive();
      now := got + [snap];
    }
  }

  /** The loop of `publishLocked` over the active alerts. */
  method ListActive(active: map<Key, Alert>) returns (alerts: seq<Alert>)
    requires forall k | k in active :: active[k].source == k
    ensures Lists(alerts, active)
  {
    alerts := [];
    var todo := active.Keys;
    while todo != {}
      invariant todo <= active.Keys && SourcesDiffer(alerts)
      invariant forall i | 0 <= i < |alerts| :: alerts[i].source !in todo
      invariant forall i | 0 <= i < |alerts| :: alerts[i].source in active && active[alerts[i].source] == alerts[i]
      invariant forall k | k in active && k !in todo :: active[k] in alerts
      decreases |todo|
    {
      var k :| k in todo;
      alerts := alerts + [active[k]];
      todo := todo - {k};
    }
  }

  lemma PrefixNext<T>(x: T, part: seq<T>, whole: seq<T>, n: nat)
    requires part <= whole && n <= |part| + 1
    ensures ([x] + part)[..n] <= [x] + whole
  {
  }

  lemma LogNext(vs: seq<Verdict>, v: Verdict)
    ensures Log(vs + [v]) == if v.alert.Some? then [v.alert.value] + Log(vs) else Log(vs)
    ensures forall k :: Decided(vs + [v], k) == if v.key == k then v.alert else Decided(vs, k)
  {
    assert (vs + [v])[..|vs|] == vs;
  }
}
