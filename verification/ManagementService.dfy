/**
 Store and evaluator together: telemetry comes in, cycles take a snapshot and
 evaluate all rules on it. Which rules fire is settled by the full telemetry
 record and the clock, and a firing rests on fresh samples.
 */
module ManagementService {
  import opened Prelude
  import opened DeviceCatalog
  import opened CycleSnapshotStore
  import opened RuleEvaluator
  import RuleHistory

  datatype Config = Config(rules: seq<Rule>, entries: seq<Entry>, maxAgeMs: int)

  class Service {
    const rules: seq<Rule>
    const evaluator: Evaluator
    const store: Store

    constructor (rules: seq<Rule>, evaluator: Evaluator, store: Store)
      ensures this.rules == rules && this.evaluator == evaluator && this.store == store
    {
      this.rules, this.evaluator, this.store := rules, evaluator, store;
    }

    method OnManagementJob(deviceId: string, telemetries: seq<Telemetry>, now: int)
      modifies store
      ensures store.devices == Recorded(old(store.devices), deviceId, telemetries, now)
    {
      store.Record(deviceId, telemetries, now);
    }

    /** The rules handed to the executor; the source returns their number. Store and evaluator each read the clock. */
    method RunCycle(at: int, now: int) returns (fired: seq<Rule>)
      modifies store, evaluator
      ensures store.devices == Purged(old(store.devices), at, store.maxAgeMs)
      ensures (evaluator.states, fired) ==
              Evaluated(old(evaluator.states), rules, evaluator.catalog.entries, store.devices, now)
    {
      var snapshot := store.Snapshot(at);
      fired := evaluator.Evaluate(rules, snapshot, now);
    }
  }

  // ------------------------------------------------------------------- runs

  // A run is a sequence of the store's actions; each `Snapshot(at, now)` is an evaluation cycle.

  function StatesAfter(cfg: Config, actions: seq<Action>): States
    decreases |actions|, 1
  {
    if actions == [] then map[]
    else if actions[|actions| - 1].Snapshot? then CycleResult(cfg, actions).0
    else StatesAfter(cfg, actions[..|actions| - 1])
  }

  /** Outcome of the cycle that ends the run. */
  function CycleResult(cfg: Config, actions: seq<Action>): (States, seq<Rule>)
    requires actions != []
    decreases |actions|, 0
  {
    var front, a := actions[..|actions| - 1], actions[|actions| - 1];
    Evaluated(StatesAfter(cfg, front), cfg.rules, cfg.entries, Purged(Stored(cfg.maxAgeMs, front), a.at, cfg.maxAgeMs), Over(a))
  }

  /** The parts of the run that end in a cycle. */
  function Cycles(actions: seq<Action>): (r: seq<seq<Action>>)
    ensures forall k | 0 <= k < |r| :: r[k] != []
  {
    if actions == [] then []
    else Cycles(actions[..|actions| - 1]) + (if actions[|actions| - 1].Snapshot? then [actions] else [])
  }

  function Owed(cfg: Config, part: seq<Action>, d: string, key: string): Option<SnapshotValue>
    requires part != []
  {
    Answer(FullLog(part), part[|part| - 1].at, cfg.maxAgeMs, d, key)
  }

  /** The condition on the full record: some selected device is owed a value that satisfies it. */
  predicate Holds(cfg: Config, c: Condition, part: seq<Action>)
    requires part != []
  {
    exists d :: d in Resolved(cfg.entries, c.device) && Satisfies(Owed(cfg, part, d, c.telemetry), c)
  }

  predicate Present(cfg: Config, c: Condition, part: seq<Action>)
    requires part != []
  {
    exists d :: d in Resolved(cfg.entries, c.device) && Owed(cfg, part, d, c.telemetry).Some?
  }

  function CycleObs(cfg: Config, rule: Rule, part: seq<Action>): Obs
    requires part != []
  {
    var cs := Conditions(rule);
    Obs(CycleTime(part), seq(|cs|, i requires 0 <= i < |cs| => Holds(cfg, cs[i], part)),
        forall i | 0 <= i < |cs| :: Present(cfg, cs[i], part))
  }

  /** What each cycle of the run sees of a rule, by the full record. */
  function RuleRecord(cfg: Config, rule: Rule, actions: seq<Action>): (h: RuleHistory.History)
    ensures |h| == |Cycles(actions)| && RuleHistory.Fits(rule, h)
  {
    var cycles := Cycles(actions);
    seq(|cycles|, k requires 0 <= k < |cycles| => CycleObs(cfg, rule, cycles[k]))
  }

  predicate UniqueNames(rules: seq<Rule>) {
    forall i, j | 0 <= i < j < |rules| :: rules[i].name != rules[j].name
  }

  /** The rules the specification fires, in rule order. */
  function FiringRules(cfg: Config, rules: seq<Rule>, actions: seq<Action>): seq<Rule> {
    if rules == [] then []
    else
      var rule := rules[|rules| - 1];
      FiringRules(cfg, rules[..|rules| - 1], actions) +
      (if Enabled(rule) && RuleHistory.Fires(rule, RuleRecord(cfg, rule, actions)) then [rule] else [])
  }

  // -------------------------------------------------------------- the theorem

  lemma SnapshotShowsRecord(cfg: Config, rule: Rule, front: seq<Action>, at: int, now: int)
    requires ClockRuns(front, at)
    ensures Observe(rule, cfg.entries, Purged(Stored(cfg.maxAgeMs, front), at, cfg.maxAgeMs), now) ==
            CycleObs(cfg, rule, front + [CycleSnapshotStore.Snapshot(at, now)])
  {
    hide Answer, Lookup, Purged, Stored, Satisfies;
    var part := front + [CycleSnapshotStore.Snapshot(at, now)];
    var copy := Purged(Stored(cfg.maxAgeMs, front), at, cfg.maxAgeMs);
    DropLast(front, CycleSnapshotStore.Snapshot(at, now));
    assert FullLog(part) == FullLog(front);
    PurgingChangesNoAnswer(cfg.maxAgeMs, front, at);
    assert forall d, k :: Lookup(copy, d, k) == Owed(cfg, part, d, k);
    forall c: Condition
      ensures ConditionTrue(c, cfg.entries, copy) == Holds(cfg, c, part)
      ensures HasValue(c, cfg.entries, copy) == Present(cfg, c, part)
    {
    }
  }

  /** With unique names each rule goes its own way, whatever the others do. */
  lemma {:induction false} RulesAreIndependent(
    states: States, rules: seq<Rule>, entries: seq<Entry>, snapshot: Devices, now: int, name: string)
    requires UniqueNames(rules)
    ensures var after := Evaluated(states, rules, entries, snapshot, now).0;
            && (forall i | 0 <= i < |rules| && rules[i].name == name && Enabled(rules[i]) ::
                  Get(after, name) ==
                  Some(RuleStep(rules[i], StateFor(states, rules[i]), Observe(rules[i], entries, snapshot, now)).0))
            && ((forall i | 0 <= i < |rules| :: rules[i].name != name || !Enabled(rules[i])) ==>
                  Get(after, name) == Get(states, name))
  {
    hide RuleStep, Observe;
    if rules != [] {
      var front, rule := rules[..|rules| - 1], rules[|rules| - 1];
      assert forall i | 0 <= i < |front| :: front[i] == rules[i];
      RulesAreIndependent(states, front, entries, snapshot, now, name);
      RulesAreIndependent(states, front, entries, snapshot, now, rule.name);
    }
  }

  ghost predicate Summarised(cfg: Config, rule: Rule, states: States, h: RuleHistory.History) {
    RuleHistory.Fits(rule, h) && StateFor(states, rule) == RuleHistory.StateAfter(rule, h)
  }

  lemma {:induction false} CycleTimes(actions: seq<Action>, now: int)
    requires ClockRuns(actions, now)
    ensures forall k | 0 <= k < |Cycles(actions)| :: CycleTime(Cycles(actions)[k]) <= now
    ensures forall j, k | 0 <= j < k < |Cycles(actions)| ::
      CycleTime(Cycles(actions)[j]) <= CycleTime(Cycles(actions)[k])
  {
    if actions != [] {
      var front, a := actions[..|actions| - 1], actions[|actions| - 1];
      assert forall i | 0 <= i < |front| :: front[i] == actions[i];
      CycleTimes(front, a.at);
      var cycles, before := Cycles(actions), Cycles(front);
      assert forall k | 0 <= k < |cycles| :: if k < |before| then cycles[k] == before[k] else cycles[k] == actions;
    }
  }

  lemma RecordClock(cfg: Config, rule: Rule, actions: seq<Action>, now: int)
    requires ClockRuns(actions, now)
    ensures RuleHistory.ClockRuns(RuleRecord(cfg, rule, actions))
    ensures forall k | 0 <= k < |Cycles(actions)| :: RuleRecord(cfg, rule, actions)[k].now <= now
  {
    CycleTimes(actions, now);
    var h, cycles := RuleRecord(cfg, rule, actions), Cycles(actions);
    forall k | 0 <= k < |h| ensures h[k].now == CycleTime(cycles[k]) {}
  }

  lemma CycleExtendsRecord(cfg: Config, rule: Rule, front: seq<Action>, at: int, now: int)
    requires ClockRuns(front, at)
    ensures var actions := front + [CycleSnapshotStore.Snapshot(at, now)];
            RuleRecord(cfg, rule, actions) ==
            RuleRecord(cfg, rule, front)
            + [Observe(rule, cfg.entries, Purged(Stored(cfg.maxAgeMs, front), at, cfg.maxAgeMs), now)]
  {
    DropLast(front, CycleSnapshotStore.Snapshot(at, now));
    SnapshotShowsRecord(cfg, rule, front, at, now);
  }

  /** One cycle keeps the summary of a rule up to date. */
  lemma CycleSummarises(cfg: Config, front: seq<Action>, at: int, now: int, i: nat)
    requires ClockRuns(front, at) && UniqueNames(cfg.rules) && i < |cfg.rules| && Enabled(cfg.rules[i])
    requires Summarised(cfg, cfg.rules[i], StatesAfter(cfg, front), RuleRecord(cfg, cfg.rules[i], front))
    ensures var actions := front + [CycleSnapshotStore.Snapshot(at, now)];
            Summarised(cfg, cfg.rules[i], StatesAfter(cfg, actions), RuleRecord(cfg, cfg.rules[i], actions))
  {
    var rule := cfg.rules[i];
    DropLast(front, CycleSnapshotStore.Snapshot(at, now));
    CycleExtendsRecord(cfg, rule, front, at, now);
    var copy := Purged(Stored(cfg.maxAgeMs, front), at, cfg.maxAgeMs);
    var o := Observe(rule, cfg.entries, copy, now);
    RulesAreIndependent(StatesAfter(cfg, front), cfg.rules, cfg.entries, copy, now, rule.name);
    DropLast(RuleRecord(cfg, rule, front), o);
  }

  lemma RecordingLeavesRecord(cfg: Config, rule: Rule, front: seq<Action>, a: Action)
    requires !a.Snapshot?
    ensures StatesAfter(cfg, front + [a]) == StatesAfter(cfg, front)
    ensures RuleRecord(cfg, rule, front + [a]) == RuleRecord(cfg, rule, front)
  {
    DropLast(front, a);
    assert Cycles(front + [a]) == Cycles(front);
  }

  lemma NothingSummarised(cfg: Config, rule: Rule)
    ensures Summarised(cfg, rule, StatesAfter(cfg, []), RuleRecord(cfg, rule, []))
  {
  }

  lemma FrontClock(actions: seq<Action>, now: int)
    requires ClockRuns(actions, now) && actions != []
    ensures ClockRuns(actions[..|actions| - 1], actions[|actions| - 1].at)
  {
  }

  /** The state kept under a rule's name is the summary of the rule's own record. */
  lemma {:induction false} StatesSummarise(cfg: Config, actions: seq<Action>, now: int, i: nat)
    requires ClockRuns(actions, now) && UniqueNames(cfg.rules) && i < |cfg.rules| && Enabled(cfg.rules[i])
    ensures Summarised(cfg, cfg.rules[i], StatesAfter(cfg, actions), RuleRecord(cfg, cfg.rules[i], actions))
  {
    hide *;
    if actions == [] {
      NothingSummarised(cfg, cfg.rules[i]);
    } else {
      var front, a := actions[..|actions| - 1], actions[|actions| - 1];
      FrontClock(actions, now);
      StatesSummarise(cfg, front, a.at, i);
      assert actions == front + [a];
      if a.Snapshot? {
        CycleSummarises(cfg, front, a.at, a.evaluated, i);
      } else {
        RecordingLeavesRecord(cfg, cfg.rules[i], front, a);
      }
    }
  }

  lemma {:induction false} FiredList(cfg: Config, rules: seq<Rule>, front: seq<Action>, at: int, now: int)
    requires ClockRuns(front, at) && at <= now && UniqueNames(cfg.rules) && rules <= cfg.rules
    ensures Evaluated(StatesAfter(cfg, front), rules, cfg.entries, Purged(Stored(cfg.maxAgeMs, front), at, cfg.maxAgeMs), now).1
            == FiringRules(cfg, rules, front + [CycleSnapshotStore.Snapshot(at, now)])
    decreases |rules|
  {
    if rules != [] {
      var init, rule := rules[..|rules| - 1], rules[|rules| - 1];
      var states, copy := StatesAfter(cfg, front), Purged(Stored(cfg.maxAgeMs, front), at, cfg.maxAgeMs);
      assert init <= cfg.rules && rule == cfg.rules[|init|];
      FiredList(cfg, init, front, at, now);
      if Enabled(rule) {
        assert forall i | 0 <= i < |init| :: init[i] == cfg.rules[i];
        RulesAreIndependent(states, init, cfg.entries, copy, now, rule.name);
        StatesSummarise(cfg, front, at, |init|);
        ReturnedIffFires(cfg, rule, front, at, now, StateFor(states, rule));
      }
    }
  }

  lemma ReturnedIffFires(cfg: Config, rule: Rule, front: seq<Action>, at: int, now: int, s: RuleState)
    requires ClockRuns(front, at) && at <= now && s == RuleHistory.StateAfter(rule, RuleRecord(cfg, rule, front))
    ensures var o := Observe(rule, cfg.entries, Purged(Stored(cfg.maxAgeMs, front), at, cfg.maxAgeMs), now);
            RuleStep(rule, s, o).1 <==>
            RuleHistory.Fires(rule, RuleRecord(cfg, rule, front + [CycleSnapshotStore.Snapshot(at, now)]))
  {
    var o := Observe(rule, cfg.entries, Purged(Stored(cfg.maxAgeMs, front), at, cfg.maxAgeMs), now);
    var actions := front + [CycleSnapshotStore.Snapshot(at, now)];
    CycleExtendsRecord(cfg, rule, front, at, now);
    RecordClock(cfg, rule, actions, now);
    RuleHistory.EvaluatorRefinesHistory(rule, RuleRecord(cfg, rule, actions));
    DropLast(RuleRecord(cfg, rule, front), o);
  }

  /**
   Main result: a cycle returns exactly the enabled rules that fire on the full
   telemetry record, in rule order, although neither store nor evaluator keeps it.
   */
  lemma CycleReturnsFiringRules(cfg: Config, front: seq<Action>, at: int, now: int)
    requires ClockRuns(front, at) && at <= now && UniqueNames(cfg.rules)
    ensures var actions := front + [CycleSnapshotStore.Snapshot(at, now)];
            CycleResult(cfg, actions).1 == FiringRules(cfg, cfg.rules, actions)
  {
    DropLast(front, CycleSnapshotStore.Snapshot(at, now));
    FiredList(cfg, cfg.rules, front, at, now);
  }

  // ---------------------------------------------------------------- freshness

  /** A recorded sample of a selected device, at most `maxAgeMs` old at the end of the part, satisfies the condition. */
  ghost predicate FreshWitness(cfg: Config, c: Condition, part: seq<Action>)
    requires part != []
  {
    exists s :: s in FullLog(part) && IsWitness(cfg, c, part[|part| - 1].at, s)
  }

  predicate IsWitness(cfg: Config, c: Condition, now: int, s: Sample) {
    && s.deviceId in Resolved(cfg.entries, c.device)
    && (s.t.name == c.telemetry || Tag(s.t) == Some(c.telemetry))
    && now - s.at <= cfg.maxAgeMs
    && Compare(s.t.value, c.op, c.threshold)
  }

  lemma {:induction false} LatestIsSample(log: seq<Sample>, d: string, k: string)
    ensures LatestNamed(log, d, k).Some? ==>
              exists s :: s in log && s.deviceId == d && s.t.name == k && LatestNamed(log, d, k) == Some(Taken(s))
    ensures LatestTagged(log, d, k).Some? ==>
              exists s :: s in log && s.deviceId == d && Tag(s.t) == Some(k) && LatestTagged(log, d, k) == Some(Taken(s))
  {
    if log != [] {
      LatestIsSample(log[..|log| - 1], d, k);
      assert log[|log| - 1] in log && forall s | s in log[..|log| - 1] :: s in log;
    }
  }

  lemma HoldingHasWitness(cfg: Config, c: Condition, part: seq<Action>)
    requires part != [] && Holds(cfg, c, part)
    ensures FreshWitness(cfg, c, part)
  {
    var log, now := FullLog(part), part[|part| - 1].at;
    var d :| d in Resolved(cfg.entries, c.device) && Satisfies(Owed(cfg, part, d, c.telemetry), c);
    LatestIsSample(log, d, c.telemetry);
    var s: Sample;
    if IfFresh(LatestNamed(log, d, c.telemetry), now, cfg.maxAgeMs).Some? {
      s :| s in log && s.deviceId == d && s.t.name == c.telemetry && LatestNamed(log, d, c.telemetry) == Some(Taken(s));
    } else {
      s :| s in log && s.deviceId == d && Tag(s.t) == Some(c.telemetry) && LatestTagged(log, d, c.telemetry) == Some(Taken(s));
    }
    assert IsWitness(cfg, c, now, s);
  }

  /**
   Main result: when a cycle returns an `all` rule, every condition has been
   satisfied by a fresh sample of a selected device at this cycle and at every
   earlier one back to a cycle at least the debounce time ago.
   */
  lemma FiringRestsOnFreshSamples(cfg: Config, front: seq<Action>, at: int, now: int, rule: Rule, i: nat) returns (j: nat)
    requires ClockRuns(front, at) && at <= now && UniqueNames(cfg.rules)
    requires rule in CycleResult(cfg, front + [CycleSnapshotStore.Snapshot(at, now)]).1
    requires rule.when.all.Some? && i < |Conditions(rule)|
    ensures var cycles := Cycles(front + [CycleSnapshotStore.Snapshot(at, now)]);
            j < |cycles| && HeldOnFreshSamples(cfg, Conditions(rule)[i], cycles, j)
  {
    var actions := front + [CycleSnapshotStore.Snapshot(at, now)];
    CycleReturnsFiringRules(cfg, front, at, now);
    FiringRulesFire(cfg, cfg.rules, actions, rule);
    j := RuleHistory.FiringStretch(rule, RuleRecord(cfg, rule, actions), i);
    RecordSpan(cfg, rule, actions, j);
    StretchHasWitnesses(cfg, rule, actions, i, j);
  }

  lemma RecordSpan(cfg: Config, rule: Rule, actions: seq<Action>, j: nat)
    requires j < |Cycles(actions)|
    ensures var h, cycles := RuleRecord(cfg, rule, actions), Cycles(actions);
      h[|h| - 1].now - h[j].now == CycleTime(cycles[|cycles| - 1]) - CycleTime(cycles[j])
  {
  }

  lemma TrueHasWitness(cfg: Config, rule: Rule, actions: seq<Action>, i: nat, k: nat)
    requires i < |Conditions(rule)| && k < |Cycles(actions)| && RuleRecord(cfg, rule, actions)[k].truths[i]
    ensures FreshWitness(cfg, Conditions(rule)[i], Cycles(actions)[k])
  {
    HoldingHasWitness(cfg, Conditions(rule)[i], Cycles(actions)[k]);
  }

  lemma StretchHasWitnesses(cfg: Config, rule: Rule, actions: seq<Action>, i: nat, j: nat)
    requires i < |Conditions(rule)| && j < |Cycles(actions)|
    requires RuleHistory.TrueSince(RuleRecord(cfg, rule, actions), i, j)
    requires CycleTime(Cycles(actions)[|Cycles(actions)| - 1]) - CycleTime(Cycles(actions)[j]) >= Debounce(Conditions(rule)[i])
    ensures HeldOnFreshSamples(cfg, Conditions(rule)[i], Cycles(actions), j)
  {
    forall k | j <= k < |Cycles(actions)| ensures FreshWitness(cfg, Conditions(rule)[i], Cycles(actions)[k]) {
      TrueHasWitness(cfg, rule, actions, i, k);
    }
  }

  ghost predicate HeldOnFreshSamples(cfg: Config, c: Condition, cycles: seq<seq<Action>>, j: nat)
    requires j < |cycles| && forall k | 0 <= k < |cycles| :: cycles[k] != []
  {
    && CycleTime(cycles[|cycles| - 1]) - CycleTime(cycles[j]) >= Debounce(c)
    && forall k | j <= k < |cycles| :: FreshWitness(cfg, c, cycles[k])
  }

  /** The evaluator's reading of the clock in the cycle that ends the part. */
  function CycleTime(part: seq<Action>): int
    requires part != []
  {
    Over(part[|part| - 1])
  }

  lemma {:induction false} FiringRulesFire(cfg: Config, rules: seq<Rule>, actions: seq<Action>, rule: Rule)
    requires rule in FiringRules(cfg, rules, actions)
    ensures rule in rules && RuleHistory.Fires(rule, RuleRecord(cfg, rule, actions))
  {
    var front := rules[..|rules| - 1];
    if rule in FiringRules(cfg, front, actions) { FiringRulesFire(cfg, front, actions, rule); }
  }

  lemma {:induction false} FiringIsReturned(cfg: Config, rules: seq<Rule>, actions: seq<Action>, rule: Rule)
    requires rule in rules && RuleEvaluator.Enabled(rule) && RuleHistory.Fires(rule, RuleRecord(cfg, rule, actions))
    ensures rule in FiringRules(cfg, rules, actions)
  {
    if rule != rules[|rules| - 1] {
      assert rule in rules[..|rules| - 1];
      FiringIsReturned(cfg, rules[..|rules| - 1], actions, rule);
    }
  }

  /** Which cycles return a rule: exactly those that end a history on which it fires. */
  lemma ReturnedIff(cfg: Config, i: nat, front: seq<Action>, at: int, now: int)
    requires ClockRuns(front, at) && at <= now && UniqueNames(cfg.rules)
    requires i < |cfg.rules| && cfg.rules[i].enabled != Some(false)
    ensures var actions := front + [CycleSnapshotStore.Snapshot(at, now)];
      cfg.rules[i] in CycleResult(cfg, actions).1 <==> RuleHistory.Fires(cfg.rules[i], RuleRecord(cfg, cfg.rules[i], actions))
  {
    var actions := front + [CycleSnapshotStore.Snapshot(at, now)];
    CycleReturnsFiringRules(cfg, front, at, now);
    if RuleHistory.Fires(cfg.rules[i], RuleRecord(cfg, cfg.rules[i], actions)) { FiringIsReturned(cfg, cfg.rules, actions, cfg.rules[i]); }
    if cfg.rules[i] in CycleResult(cfg, actions).1 { FiringRulesFire(cfg, cfg.rules, actions, cfg.rules[i]); }
  }
}
