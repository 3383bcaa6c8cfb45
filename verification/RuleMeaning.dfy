/** What the operators of a rule mean, and when a threshold rule fires, told by the values themselves. */
module RuleMeaning {
  import opened Prelude
  import opened DeviceCatalog
  import opened CycleSnapshotStore
  import opened RuleEvaluator
  import opened ManagementService
  import opened RuleHistory

  predicate On(op: Operator, x: real, threshold: real) { Compare(Number(x), op, threshold) }

  /**
   The order operators: `gt` begins strictly above the threshold and holds from there up, `gte` adds
   the threshold itself, `lte` and `lt` are what is left; the absolute ones look both ways.
   */
  lemma OrderOperators(x: real, y: real, threshold: real)
    ensures !On(Gt, threshold, threshold) && (x > threshold ==> On(Gt, x, threshold))
    ensures On(Gt, x, threshold) && x <= y ==> On(Gt, y, threshold)
    ensures On(Gte, x, threshold) <==> On(Gt, x, threshold) || On(Eq, x, threshold)
    ensures On(Lte, x, threshold) <==> !On(Gt, x, threshold)
    ensures On(Lt, x, threshold) <==> !On(Gte, x, threshold)
    ensures On(Eq, x, threshold) <==> x == threshold
    ensures On(Neq, x, threshold) <==> !On(Eq, x, threshold)
    ensures On(AbsGt, x, threshold) <==> On(Gt, x, threshold) || On(Lt, x, -threshold)
    ensures On(AbsGte, x, threshold) <==> On(Gte, x, threshold) || On(Lte, x, -threshold)
  {
  }

  /** A value that is no number satisfies `neq` and nothing else. */
  lemma OnlyNumbersCompare(v: Value, op: Operator, threshold: real)
    requires !v.Number?
    ensures Compare(v, op, threshold) <==> op == Neq
  {
  }

  // ------------------------------------------------------- firing rests on levels

  /** What a condition asks of a number. */
  predicate Level(op: Operator, x: real, t: real) {
    match op
    case Eq => t == x
    case Neq => t < x || x < t
    case Gt => t < x
    case Gte => t < x || t == x
    case Lt => x < t
    case Lte => x < t || t == x
    case AbsGt => t < x || x < -t
    case AbsGte => t <= x || x <= -t
  }

  /** Some sample of a selected device, at most `maxAgeMs` old at the end of the part, is at the level asked for. */
  ghost predicate AtLevel(cfg: Config, c: Condition, part: seq<Action>)
    requires part != []
  {
    exists s :: s in FullLog(part) && IsAtLevel(cfg, c, part[|part| - 1].at, s)
  }

  predicate IsAtLevel(cfg: Config, c: Condition, now: int, s: Sample) {
    && s.deviceId in Resolved(cfg.entries, c.device)
    && (s.t.name == c.telemetry || s.t.canonical == Some(c.telemetry))
    && now - s.at <= cfg.maxAgeMs
    && if s.t.value.Number? then Level(c.op, s.t.value.n, c.threshold) else c.op == Neq
  }

  /**
   When a cycle returns an `all` rule, each condition has had a fresh sample at its level at this
   cycle and at every earlier one back to a cycle at least the debounce time ago.
   */
  lemma FiringRestsOnLevels(cfg: Config, front: seq<Action>, at: int, now: int, rule: Rule, i: nat) returns (j: nat)
    requires CycleSnapshotStore.ClockRuns(front, at) && at <= now && UniqueNames(cfg.rules)
    requires rule in CycleResult(cfg, front + [CycleSnapshotStore.Snapshot(at, now)]).1
    requires rule.when.all.Some? && i < |rule.when.all.value|
    ensures HeldAtLevel(cfg, rule.when.all.value[i], Cycles(front + [CycleSnapshotStore.Snapshot(at, now)]), j)
  {
    j := FiringRestsOnFreshSamples(cfg, front, at, now, rule, i);
    FreshIsAtLevel(cfg, rule.when.all.value[i], Cycles(front + [CycleSnapshotStore.Snapshot(at, now)]), j);
  }

  /** At cycle `j` and ever since, the condition has had a fresh sample at its level, for the debounce time at least. */
  ghost predicate HeldAtLevel(cfg: Config, c: Condition, cycles: seq<seq<Action>>, j: nat)
    requires forall k | 0 <= k < |cycles| :: cycles[k] != []
  {
    && j < |cycles| && CycleTime(cycles[|cycles| - 1]) - CycleTime(cycles[j]) >= c.debounceMs.GetOr(0)
    && forall k | j <= k < |cycles| :: AtLevel(cfg, c, cycles[k])
  }

  lemma FreshIsAtLevel(cfg: Config, c: Condition, cycles: seq<seq<Action>>, j: nat)
    requires j < |cycles| && forall k | 0 <= k < |cycles| :: cycles[k] != []
    requires HeldOnFreshSamples(cfg, c, cycles, j)
    ensures HeldAtLevel(cfg, c, cycles, j)
  {
    hide AtLevel, FreshWitness;
    forall k | j <= k < |cycles| ensures AtLevel(cfg, c, cycles[k]) { WitnessAtLevel(cfg, c, cycles[k]); }
  }

  /** And when it returns an `any` rule, some condition of it has. */
  lemma AnyFiringRestsOnLevels(cfg: Config, front: seq<Action>, at: int, now: int, rule: Rule) returns (i: nat, j: nat)
    requires CycleSnapshotStore.ClockRuns(front, at) && at <= now && UniqueNames(cfg.rules)
    requires rule in CycleResult(cfg, front + [CycleSnapshotStore.Snapshot(at, now)]).1
    requires rule.when.all.None?
    ensures rule.when.any.Some? && i < |rule.when.any.value|
    ensures HeldAtLevel(cfg, rule.when.any.value[i], Cycles(front + [CycleSnapshotStore.Snapshot(at, now)]), j)
  {
    var actions := front + [CycleSnapshotStore.Snapshot(at, now)];
    CycleReturnsFiringRules(cfg, front, at, now);
    FiringRulesFire(cfg, cfg.rules, actions, rule);
    i, j := AnyFiringStretch(rule, RuleRecord(cfg, rule, actions));
    RecordSpan(cfg, rule, actions, j);
    StretchHasWitnesses(cfg, rule, actions, i, j);
    FreshIsAtLevel(cfg, rule.when.any.value[i], Cycles(actions), j);
  }

  lemma WitnessAtLevel(cfg: Config, c: Condition, part: seq<Action>)
    requires part != [] && FreshWitness(cfg, c, part)
    ensures AtLevel(cfg, c, part)
  {
    var s :| s in FullLog(part) && IsWitness(cfg, c, part[|part| - 1].at, s);
    CompareIsLevel(s.t.value, c.op, c.threshold);
    assert IsAtLevel(cfg, c, part[|part| - 1].at, s);
  }

  lemma CompareIsLevel(v: Value, op: Operator, threshold: real)
    ensures Compare(v, op, threshold) <==> if v.Number? then Level(op, v.n, threshold) else op == Neq
  {
    if v.Number? { OrderOperators(v.n, v.n, threshold); }
  }

  // --------------------------------------------------------- crossing a threshold

  /** A rule of one condition that fires on every edge. */
  predicate Plain(rule: Rule, c: Condition) {
    Conditions(rule) == [c] && c.debounceMs == None && rule.cooldownMs == None && rule.armAfterFalse == None
  }

  /** The condition's one device is owed a value at the level at the end of the part. */
  predicate Reached(cfg: Config, c: Condition, d: string, part: seq<Action>)
    requires part != []
  {
    var v := Owed(cfg, part, d, c.telemetry);
    v.Some? && if v.value.value.Number? then Level(c.op, v.value.value.n, c.threshold) else c.op == Neq
  }

  lemma HoldsIffReached(cfg: Config, c: Condition, d: string, part: seq<Action>)
    requires part != [] && Resolved(cfg.entries, c.device) == [d]
    ensures Holds(cfg, c, part) <==> Reached(cfg, c, d, part)
  {
    var v := Owed(cfg, part, d, c.telemetry);
    if v.Some? { CompareIsLevel(v.value.value, c.op, c.threshold); }
    assert d in Resolved(cfg.entries, c.device);
  }

  /** A plain rule is true exactly when its condition is, now. */
  lemma PlainIsDirect(rule: Rule, c: Condition, h: History)
    requires Plain(rule, c) && Fits(rule, h) && h != []
    ensures RuleTrue(rule, h) <==> h[|h| - 1].truths[0]
  {
    var o := h[|h| - 1];
    NoDebounceIsDirect(rule, h);
    assert |o.truths| == 1;
  }

  /** It fires on every edge. */
  lemma PlainFiresOnEdges(rule: Rule, c: Condition, h: History)
    requires Plain(rule, c) && Fits(rule, h) && RuleHistory.ClockRuns(h)
    ensures Fires(rule, h) <==> h != [] && h[|h| - 1].truths[0] && (|h| == 1 || !h[|h| - 2].truths[0])
  {
    if h != [] {
      var front := h[..|h| - 1];
      PlainIsDirect(rule, c, h);
      if front != [] { PlainIsDirect(rule, c, front); }
      LastFiringIsPast(rule, front, h[|h| - 1].now);
    }
  }

  lemma {:induction false} LastFiringIsPast(rule: Rule, h: History, now: int)
    requires forall k | 0 <= k < |h| :: h[k].now <= now
    ensures LastFiring(rule, h).Some? ==> LastFiring(rule, h).value <= now
  {
    if h != [] { LastFiringIsPast(rule, h[..|h| - 1], now); }
  }

  /**
   Main result: a plain threshold rule over one device is returned by a cycle exactly when the value owed
   to it is at the level now and was not at the cycle before.
   */
  lemma FiresOnCrossing(cfg: Config, i: nat, c: Condition, d: string, front: seq<Action>, at: int, now: int)
    requires CycleSnapshotStore.ClockRuns(front, at) && at <= now && UniqueNames(cfg.rules)
    requires i < |cfg.rules| && cfg.rules[i].enabled != Some(false) && Plain(cfg.rules[i], c)
    requires Resolved(cfg.entries, c.device) == [d]
    ensures var actions := front + [CycleSnapshotStore.Snapshot(at, now)];
      cfg.rules[i] in CycleResult(cfg, actions).1 <==>
      Reached(cfg, c, d, actions) && (Cycles(front) == [] || !Reached(cfg, c, d, Cycles(front)[|Cycles(front)| - 1]))
  {
    hide Fires, Reached, Plain, UniqueNames, CycleResult, CycleObs;
    var rule, actions := cfg.rules[i], front + [CycleSnapshotStore.Snapshot(at, now)];
    var h := RuleRecord(cfg, rule, actions);
    RecordTruths(cfg, rule, c, d, front, at, now);
    RecordClock(cfg, rule, actions, now);
    PlainFiresOnEdges(rule, c, h);
    ReturnedIff(cfg, i, front, at, now);
  }

  lemma RecordTruths(cfg: Config, rule: Rule, c: Condition, d: string, front: seq<Action>, at: int, now: int)
    requires Plain(rule, c) && Resolved(cfg.entries, c.device) == [d]
    ensures var actions := front + [CycleSnapshotStore.Snapshot(at, now)];
      var h, before := RuleRecord(cfg, rule, actions), Cycles(front);
      && |h| == |before| + 1 && h[|h| - 1].truths[0] == Reached(cfg, c, d, actions)
      && (before != [] ==> h[|h| - 2].truths[0] == Reached(cfg, c, d, before[|before| - 1]))
  {
    hide Holds, Present, Reached;
    DropLast(front, CycleSnapshotStore.Snapshot(at, now));
    var actions := front + [CycleSnapshotStore.Snapshot(at, now)];
    HoldsIffReached(cfg, c, d, actions);
    if Cycles(front) != [] { HoldsIffReached(cfg, c, d, Cycles(front)[|Cycles(front)| - 1]); }
  }
}
