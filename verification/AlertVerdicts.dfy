/**
 What the alert monitor makes of its readings: every reading yields verdicts, an alert or none
 for a key, and over a run the last verdict for a key counts.
 */
module AlertVerdicts {
  import opened Options
  import opened Sequences

  datatype Level = Warning | Critical

  /** What an alert is about. The program writes these as strings: "CPU", "Memory", and "Disk ",
      "Temp " and "Custom: " with a name behind. */
  datatype Key = CpuKey | MemoryKey | DiskKey(mount: string) | TempKey(zone: string) | CustomKey(tag: string)

  datatype Alert = Alert(level: Level, source: Key, value: real, threshold: real)

  datatype Rule = Rule(metric: string, operator: string, value: real, severity: string, tag: string)

  datatype Config = Config(cpuWarning: real, cpuCritical: real, memoryWarning: real, memoryCritical: real,
                           diskWarning: real, diskCritical: real, tempWarning: real, tempCritical: real,
                           maxHistory: int, rules: seq<Rule>)

  /** One mount point or thermal zone and its value. */
  datatype Sample = Sample(name: string, value: real)

  datatype Reading = CpuReading(pct: real)
      | MemoryReading(pct: real)
      | DiskReading(disks: seq<Sample>) | ThermalReading(zones: seq<Sample>)

  datatype Verdict = Verdict(key: Key, alert: Option<Alert>)

  // ---- the keys as strings ----

  function Written(k: Key): string {
    match k
    case CpuKey => "CPU"
    case MemoryKey => "Memory"
    case DiskKey(mount) => "Disk " + mount
    case TempKey(zone) => "Temp " + zone
    case CustomKey(tag) => "Custom: " + tag
  }

  /** Different sources never share a key. */
  lemma KeysApart(a: Key, b: Key)
    requires Written(a) == Written(b)
    ensures a == b
  {
    var s, t := Written(a), Written(b);
    assert s[0] == t[0] && s[1] == t[1];
    match a
    case DiskKey(x) => assert s[5..] == x && (b.DiskKey? ==> t[5..] == b.mount);
    case TempKey(x) => assert s[5..] == x && (b.TempKey? ==> t[5..] == b.zone);
    case CustomKey(x) => assert s[8..] == x && (b.CustomKey? ==> t[8..] == b.tag);
    case _ =>
  }

  // ---- one reading ----

  /** Critical before warning; below both, the alert is cleared. */
  function Judge(key: Key, v: real, warning: real, critical: real): Verdict {
    if v >= critical then Verdict(key, Some(Alert(Critical, key, v, critical)))
    else if v >= warning then Verdict(key, Some(Alert(Warning, key, v, warning)))
    else Verdict(key, None)
  }

  /** The operators a rule may use; any other never holds. */
  function EvaluateCustomRule(r: Rule, v: real): (fires: bool)
    ensures fires ==> r.operator in [">", ">=", "<", "=="]
  {
    if r.operator == ">" then v > r.value
    else if r.operator == ">=" then v >= r.value
    else if r.operator == "<" then v < r.value
    else if r.operator == "==" then v == r.value
    else false
  }

  function RuleVerdict(r: Rule, v: real): Verdict {
    var key := CustomKey(r.tag);
    Verdict(key, if EvaluateCustomRule(r, v) then Some(Alert(if r.severity == "critical" then Critical else Warning, key, v, r.value))
        else None)
  }

  function RuleVerdicts(rules: seq<Rule>, v: real): seq<Verdict> {
    if rules == [] then []
    else
      var front, last := RuleVerdicts(rules[..|rules| - 1], v), rules[|rules| - 1];
      if last.metric == "cpu" then front + [RuleVerdict(last, v)] else front
  }

  function DiskVerdict(cfg: Config, d: Sample): Verdict {
    Judge(DiskKey(d.name), d.value, cfg.diskWarning, cfg.diskCritical)
  }

  function DiskVerdicts(cfg: Config, disks: seq<Sample>): seq<Verdict> {
    if disks == [] then [] else DiskVerdicts(cfg, disks[..|disks| - 1]) + [DiskVerdict(cfg, disks[|disks| - 1])]
  }

  function ZoneVerdict(cfg: Config, z: Sample): Verdict {
    Judge(TempKey(z.name), z.value, cfg.tempWarning, cfg.tempCritical)
  }

  function ZoneVerdicts(cfg: Config, zones: seq<Sample>): seq<Verdict> {
    if zones == [] then [] else ZoneVerdicts(cfg, zones[..|zones| - 1]) + [ZoneVerdict(cfg, zones[|zones| - 1])]
  }

  /** The verdicts on a reading, in the order they are processed. */
  function VerdictsOf(cfg: Config, r: Reading): seq<Verdict> {
    match r
    case CpuReading(pct) => [Judge(CpuKey, pct, cfg.cpuWarning, cfg.cpuCritical)] + RuleVerdicts(cfg.rules, pct)
    case MemoryReading(pct) => [Judge(MemoryKey, pct, cfg.memoryWarning, cfg.memoryCritical)]
    case DiskReading(disks) => DiskVerdicts(cfg, disks)
    case ThermalReading(zones) => ZoneVerdicts(cfg, zones)
  }

  // ---- whole runs ----

  /** What the last verdict for a key says. */
  function Decided(vs: seq<Verdict>, k: Key): Option<Alert> {
    if vs == [] then None
    else
      var last := vs[|vs| - 1];
      if last.key == k then last.alert else Decided(vs[..|vs| - 1], k)
  }

  predicate Mentions(vs: seq<Verdict>, k: Key) {
    exists i | 0 <= i < |vs| :: vs[i].key == k
  }

  lemma {:induction false} DecidedAppend(a: seq<Verdict>, b: seq<Verdict>, k: Key)
    ensures Decided(a + b, k) == if Mentions(b, k) then Decided(b, k) else Decided(a, k)
    decreases |b|
  {
    if b == [] {
      assert a + b == a;
    } else {
      var front, last := b[..|b| - 1], b[|b| - 1];
      assert (a + b)[..|a + b| - 1] == a + front;
      DecidedAppend(a, front, k);
      MentionsNext(front, last, k);
      assert b == front + [last];
    }
  }

  lemma MentionsNext(front: seq<Verdict>, last: Verdict, k: Key)
    ensures Mentions(front + [last], k) <==> Mentions(front, k) || last.key == k
  {
    if Mentions(front, k) {
      var i :| 0 <= i < |front| && front[i].key == k;
      assert (front + [last])[i].key == k;
    }
    if last.key == k {
      assert (front + [last])[|front|].key == k;
    }
  }

  function RunVerdicts(cfg: Config, rs: seq<Reading>): seq<Verdict> {
    if rs == [] then [] else RunVerdicts(cfg, rs[..|rs| - 1]) + VerdictsOf(cfg, rs[|rs| - 1])
  }

  lemma RunNext(cfg: Config, rs: seq<Reading>, r: Reading)
    ensures RunVerdicts(cfg, rs + [r]) == RunVerdicts(cfg, rs) + VerdictsOf(cfg, r)
  {
    assert (rs + [r])[..|rs|] == rs;
  }

  /** Over a run the last reading that has a verdict for a key decides it. */
  lemma {:induction false} LastReadingDecides(cfg: Config, before: seq<Reading>, r: Reading, after: seq<Reading>, k: Key)
    requires Mentions(VerdictsOf(cfg, r), k)
    requires forall i | 0 <= i < |after| :: !Mentions(VerdictsOf(cfg, after[i]), k)
    ensures Decided(RunVerdicts(cfg, (before + [r]) + after), k) == Decided(VerdictsOf(cfg, r), k)
    decreases |after|
  {
    if after == [] {
      assert (before + [r]) + after == before + [r];
      RunNext(cfg, before, r);
      DecidedAppend(RunVerdicts(cfg, before), VerdictsOf(cfg, r), k);
    } else {
      var front, last := after[..|after| - 1], after[|after| - 1];
      FrontLast(before + [r], after);
      RunNext(cfg, (before + [r]) + front, last);
      LastReadingDecides(cfg, before, r, front, k);
      DecidedAppend(RunVerdicts(cfg, (before + [r]) + front), VerdictsOf(cfg, last), k);
    }
  }

  /** The source a reading belongs to. */
  predicate Concerns(r: Reading, k: Key) {
    match k
    case CpuKey => r.CpuReading?
    case CustomKey(_) => r.CpuReading?
    case MemoryKey => r.MemoryReading?
    case DiskKey(_) => r.DiskReading?
    case TempKey(_) => r.ThermalReading?
  }

  lemma {:induction false} RuleKeys(rules: seq<Rule>, v: real, i: nat)
    requires i < |RuleVerdicts(rules, v)|
    ensures RuleVerdicts(rules, v)[i].key.CustomKey?
  {
    var front := RuleVerdicts(rules[..|rules| - 1], v);
    if i < |front| {
      RuleKeys(rules[..|rules| - 1], v, i);
    }
  }

  lemma {:induction false} DiskKeys(cfg: Config, disks: seq<Sample>)
    ensures |DiskVerdicts(cfg, disks)| == |disks|
    ensures forall i | 0 <= i < |disks| :: DiskVerdicts(cfg, disks)[i] == DiskVerdict(cfg, disks[i])
  {
    if disks != [] {
      DiskKeys(cfg, disks[..|disks| - 1]);
    }
  }

  lemma {:induction false} ZoneKeys(cfg: Config, zones: seq<Sample>)
    ensures |ZoneVerdicts(cfg, zones)| == |zones|
    ensures forall i | 0 <= i < |zones| :: ZoneVerdicts(cfg, zones)[i] == ZoneVerdict(cfg, zones[i])
  {
    if zones != [] {
      ZoneKeys(cfg, zones[..|zones| - 1]);
    }
  }

  /** A reading never disturbs the keys of another source. */
  lemma OwnKeysOnly(cfg: Config, r: Reading, k: Key)
    requires Mentions(VerdictsOf(cfg, r), k)
    ensures Concerns(r, k)
  {
    var i :| 0 <= i < |VerdictsOf(cfg, r)| && VerdictsOf(cfg, r)[i].key == k;
    match r
    case CpuReading(pct) => if i > 0 { RuleKeys(cfg.rules, pct, i - 1); }
    case MemoryReading(_) =>
    case DiskReading(disks) => DiskKeys(cfg, disks);
    case ThermalReading(zones) => ZoneKeys(cfg, zones);
  }

  /** The CPU alert shows the level of the last CPU reading. */
  lemma CpuDecides(cfg: Config, before: seq<Reading>, pct: real, after: seq<Reading>)
    requires forall i | 0 <= i < |after| :: !after[i].CpuReading?
    ensures Decided(RunVerdicts(cfg, (before + [CpuReading(pct)]) + after), CpuKey)
            == Judge(CpuKey, pct, cfg.cpuWarning, cfg.cpuCritical).alert
  {
    var r := CpuReading(pct);
    assert VerdictsOf(cfg, r)[0].key == CpuKey;
    NotConcerned(cfg, after, CpuKey);
    LastReadingDecides(cfg, before, r, after, CpuKey);
    var rules := RuleVerdicts(cfg.rules, pct);
    if Mentions(rules, CpuKey) {
      var i :| 0 <= i < |rules| && rules[i].key == CpuKey;
      RuleKeys(cfg.rules, pct, i);
    }
    DecidedAppend([Judge(CpuKey, pct, cfg.cpuWarning, cfg.cpuCritical)], rules, CpuKey);
  }

  lemma NotConcerned(cfg: Config, after: seq<Reading>, k: Key)
    requires forall i | 0 <= i < |after| :: !Concerns(after[i], k)
    ensures forall i | 0 <= i < |after| :: !Mentions(VerdictsOf(cfg, after[i]), k)
  {
    forall i | 0 <= i < |after| ensures !Mentions(VerdictsOf(cfg, after[i]), k) {
      if Mentions(VerdictsOf(cfg, after[i]), k) {
        OwnKeysOnly(cfg, after[i], k);
      }
    }
  }

  /** A disk's alert shows the level of the last sample of its mount point. */
  lemma DiskDecides(cfg: Config, before: seq<Reading>, disks: seq<Sample>, j: nat, after: seq<Reading>)
    requires j < |disks| && forall i | j < i < |disks| :: disks[i].name != disks[j].name
    requires forall i | 0 <= i < |after| && after[i].DiskReading? :: forall d | 0 <= d < |after[i].disks| :: after[i].disks[d].name != disks[j].name
    ensures Decided(RunVerdicts(cfg, (before + [DiskReading(disks)]) + after), DiskKey(disks[j].name))
        == DiskVerdict(cfg, disks[j]).alert
  {
    var r, k := DiskReading(disks), DiskKey(disks[j].name);
    DiskKeys(cfg, disks);
    assert VerdictsOf(cfg, r)[j].key == k;
    forall i | 0 <= i < |after| ensures !Mentions(VerdictsOf(cfg, after[i]), k) {
      if Mentions(VerdictsOf(cfg, after[i]), k) {
        OwnKeysOnly(cfg, after[i], k);
        DiskKeys(cfg, after[i].disks);
      }
    }
    LastReadingDecides(cfg, before, r, after, k);
    DecidedAt(DiskVerdicts(cfg, disks), j);
  }

  /** The last verdict for a key is the one nothing later overrides. */
  lemma {:induction false} DecidedAt(vs: seq<Verdict>, j: nat)
    requires j < |vs| && forall i | j < i < |vs| :: vs[i].key != vs[j].key
    ensures Decided(vs, vs[j].key) == vs[j].alert
  {
    if j < |vs| - 1 {
      DecidedAt(vs[..|vs| - 1], j);
    }
  }

  // ---- custom rules ----

  /** Of the CPU rules with a label the last one decides its alert, by the last CPU reading. */
  lemma CustomDecides(cfg: Config, before: seq<Reading>, pct: real, after: seq<Reading>, j: nat)
    requires forall i | 0 <= i < |after| :: !after[i].CpuReading?
    requires j < |cfg.rules| && cfg.rules[j].metric == "cpu"
    requires forall i | j < i < |cfg.rules| && cfg.rules[i].metric == "cpu" :: cfg.rules[i].tag != cfg.rules[j].tag
    ensures Decided(RunVerdicts(cfg, (before + [CpuReading(pct)]) + after), CustomKey(cfg.rules[j].tag))
        == RuleVerdict(cfg.rules[j], pct).alert
  {
    var r, k := CpuReading(pct), CustomKey(cfg.rules[j].tag);
    var own := [Judge(CpuKey, pct, cfg.cpuWarning, cfg.cpuCritical)];
    RulesDecide(cfg.rules, pct, j);
    var rules := RuleVerdicts(cfg.rules, pct);
    var i :| 0 <= i < |rules| && rules[i].key == k;
    assert VerdictsOf(cfg, r)[1 + i] == rules[i];
    NotConcerned(cfg, after, k);
    LastReadingDecides(cfg, before, r, after, k);
    DecidedAppend(own, rules, k);
  }

  lemma {:induction false} RulesDecide(rules: seq<Rule>, v: real, j: nat)
    requires j < |rules| && rules[j].metric == "cpu"
    requires forall i | j < i < |rules| && rules[i].metric == "cpu" :: rules[i].tag != rules[j].tag
    ensures Mentions(RuleVerdicts(rules, v), CustomKey(rules[j].tag))
    ensures Decided(RuleVerdicts(rules, v), CustomKey(rules[j].tag)) == RuleVerdict(rules[j], v).alert
  {
    var front, last := rules[..|rules| - 1], rules[|rules| - 1];
    var fv, k := RuleVerdicts(front, v), CustomKey(rules[j].tag);
    MentionsNext(fv, RuleVerdict(last, v), k);
    DecidedAppend(fv, [RuleVerdict(last, v)], k);
    if j < |rules| - 1 {
      RulesDecide(front, v, j);
    }
    assert Mentions([RuleVerdict(last, v)], k) <==> last.tag == rules[j].tag by {
      MentionsNext([], RuleVerdict(last, v), k);
      assert [] + [RuleVerdict(last, v)] == [RuleVerdict(last, v)];
    }
  }

  /** With two CPU rules of the same label an earlier one that fires need not show: here the
      second clears what the first has set. */
  lemma SharedLabelHides()
    ensures var rules := [Rule("cpu", ">", 50.0, "critical", "load"), Rule("cpu", ">", 90.0, "warning", "load")];
            EvaluateCustomRule(rules[0], 60.0) && Decided(RuleVerdicts(rules, 60.0), CustomKey("load")) == None
  {
    var rules := [Rule("cpu", ">", 50.0, "critical", "load"), Rule("cpu", ">", 90.0, "warning", "load")];
    RulesDecide(rules, 60.0, 1);
  }
}
