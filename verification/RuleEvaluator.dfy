/**
 The edge-triggered rule evaluator. Its small per-rule state is shown to be a
 summary of the whole history of evaluations, and firing is characterised on
 that history alone.
 */
module RuleEvaluator {
  import opened Prelude
  import opened DeviceCatalog
  import opened CycleSnapshotStore

  datatype Operator = Eq | Neq | Gt | Gte | Lt | Lte | AbsGt | AbsGte

  datatype Condition = Condition(
    device: Option<Selector>, telemetry: string, op: Operator, threshold: real, debounceMs: Option<int>)

  datatype When = When(all: Option<seq<Condition>>, any: Option<seq<Condition>>)

  datatype Rule = Rule(
    name: string, enabled: Option<bool>, cooldownMs: Option<int>, armAfterFalse: Option<bool>, when: When)

  /** `heldSince[i]` is absent while condition `i` is not held. */
  datatype RuleState = RuleState(fired: bool, armed: bool, lastFiredAt: Option<int>, heldSince: map<nat, int>)

  type States = map<string, RuleState>

  function Conditions(rule: Rule): seq<Condition> {
    match rule.when.all case Some(cs) => cs case None => rule.when.any.GetOr([])
  }

  function Compare(v: Value, op: Operator, threshold: real): bool {
    match op
    case Eq => v == Number(threshold)
    case Neq => v != Number(threshold)
    case Gt => v.Number? && v.n > threshold
    case Gte => v.Number? && v.n >= threshold
    case Lt => v.Number? && v.n < threshold
    case Lte => v.Number? && v.n <= threshold
    case AbsGt => v.Number? && Abs(v.n) > threshold
    case AbsGte => v.Number? && Abs(v.n) >= threshold
  }

  predicate Satisfies(v: Option<SnapshotValue>, c: Condition) {
    v.Some? && Compare(v.value.value, c.op, c.threshold)
  }

  /** Some target of the condition has a value that satisfies it. */
  predicate ConditionTrue(c: Condition, entries: seq<Entry>, snapshot: Devices) {
    exists d :: d in Resolved(entries, c.device) && Satisfies(Lookup(snapshot, d, c.telemetry), c)
  }

  predicate HasValue(c: Condition, entries: seq<Entry>, snapshot: Devices) {
    exists d :: d in Resolved(entries, c.device) && Lookup(snapshot, d, c.telemetry).Some?
  }

  /** All that one evaluation of a rule depends on. */
  datatype Obs = Obs(now: int, truths: seq<bool>, present: bool)

  function Truths(cs: seq<Condition>, entries: seq<Entry>, snapshot: Devices): (r: seq<bool>)
    ensures |r| == |cs|
  {
    seq(|cs|, i requires 0 <= i < |cs| => ConditionTrue(cs[i], entries, snapshot))
  }

  predicate AllPresent(cs: seq<Condition>, entries: seq<Entry>, snapshot: Devices) {
    forall i | 0 <= i < |cs| :: HasValue(cs[i], entries, snapshot)
  }

  function Observe(rule: Rule, entries: seq<Entry>, snapshot: Devices, now: int): Obs {
    Obs(now, Truths(Conditions(rule), entries, snapshot), AllPresent(Conditions(rule), entries, snapshot))
  }

  function Debounce(c: Condition): int { c.debounceMs.GetOr(0) }

  /** The held-since times after an evaluation; times of conditions the rule no longer has are left alone. */
  function HeldAfter(held: map<nat, int>, o: Obs): map<nat, int> {
    map i | i in held.Keys + (set k | 0 <= k < |o.truths| && o.truths[k]) && (i < |o.truths| ==> o.truths[i]) ::
      if i in held then held[i] else o.now
  }

  function Debounced(cs: seq<Condition>, held: map<nat, int>, o: Obs): (r: seq<bool>)
    requires |o.truths| == |cs| && forall i | 0 <= i < |cs| && o.truths[i] :: i in held
    ensures |r| == |cs|
  {
    seq(|cs|, i requires 0 <= i < |cs| => o.truths[i] && o.now - held[i] >= Debounce(cs[i]))
  }

  predicate Every(bs: seq<bool>) { forall i | 0 <= i < |bs| :: bs[i] }
  predicate AnyOf(bs: seq<bool>) { exists i | 0 <= i < |bs| :: bs[i] }

  predicate Combined(rule: Rule, bs: seq<bool>) {
    if rule.when.all.Some? then Every(bs) else AnyOf(bs)
  }

  function NewState(rule: Rule): RuleState {
    RuleState(false, rule.armAfterFalse != Some(true), None, map[])
  }

  predicate CoolingDown(rule: Rule, last: Option<int>, now: int) {
    last.Some? && now - last.value < rule.cooldownMs.GetOr(0)
  }

  /** One evaluation of one rule: the new state, and whether the rule is returned. */
  function RuleStep(rule: Rule, s: RuleState, o: Obs): (RuleState, bool)
    requires |o.truths| == |Conditions(rule)|
  {
    var held := HeldAfter(s.heldSince, o);
    var t := s.(heldSince := held);
    if !Combined(rule, Debounced(Conditions(rule), held, o)) then
      (t.(fired := false, armed := s.armed || o.present), false)
    else if s.fired then (t, false)
    else if !s.armed || CoolingDown(rule, s.lastFiredAt, o.now) then (t.(fired := true), false)
    else (t.(fired := true, lastFiredAt := Some(o.now)), true)
  }

  predicate Enabled(rule: Rule) { rule.enabled != Some(false) }

  function StateFor(states: States, rule: Rule): RuleState {
    if rule.name in states then states[rule.name] else NewState(rule)
  }

  /** `evaluate`: the rules in order, each updating the state kept under its name. */
  function Evaluated(states: States, rules: seq<Rule>, entries: seq<Entry>, snapshot: Devices, now: int): (States, seq<Rule>) {
    if rules == [] then (states, [])
    else
      var (before, fired) := Evaluated(states, rules[..|rules| - 1], entries, snapshot, now);
      var rule := rules[|rules| - 1];
      if !Enabled(rule) then (before, fired)
      else
        var (s, fires) := RuleStep(rule, StateFor(before, rule), Observe(rule, entries, snapshot, now));
        (before[rule.name := s], if fires then fired + [rule] else fired)
  }

  class Evaluator {
    const catalog: Catalog
    var states: States

    constructor (catalog: Catalog)
      ensures this.catalog == catalog && states == map[]
    {
      this.catalog := catalog;
      states := map[];
    }

    method Evaluate(rules: seq<Rule>, snapshot: Devices, now: int) returns (fired: seq<Rule>)
      modifies this
      ensures (states, fired) == Evaluated(old(states), rules, catalog.entries, snapshot, now)
    {
      fired := [];
      for i := 0 to |rules|
        invariant (states, fired) == Evaluated(old(states), rules[..i], catalog.entries, snapshot, now)
      {
        TakeNext(rules, i + 1);
        DropLast(rules[..i], rules[i]);
        if Enabled(rules[i]) {
          var state := StateFor(states, rules[i]);
          var after, fires := EvaluateRule(rules[i], state, snapshot, now);
          states := states[rules[i].name := after];
          if fires { fired := fired + [rules[i]]; }
        }
      }
      assert rules[..|rules|] == rules;
    }

    method EvaluateRule(rule: Rule, state: RuleState, snapshot: Devices, now: int)
      returns (after: RuleState, fires: bool)
      ensures (after, fires) == RuleStep(rule, state, Observe(rule, catalog.entries, snapshot, now))
    {
      var conditions := Conditions(rule);
      var truths: seq<bool> := [];
      for i := 0 to |conditions|
        invariant |truths| == i && forall k | 0 <= k < i :: truths[k] == ConditionTrue(conditions[k], catalog.entries, snapshot)
      {
        var b := TestCondition(conditions[i], snapshot);
        truths := truths + [b];
      }
      ghost var o := Observe(rule, catalog.entries, snapshot, now);
      assert truths == o.truths;
      var held, debounced := DebounceAll(conditions, state.heldSince, truths, now, o);
      after := state.(heldSince := held);
      fires := false;
      if !Combined(rule, debounced) {
        after := after.(fired := false);
        if !after.armed {
          var present := TestPresence(conditions, snapshot);
          if present { after := after.(armed := true); }
        }
        return;
      }
      if after.fired { return; }
      after := after.(fired := true);
      if !after.armed { return; }
      if after.lastFiredAt.Some? && now - after.lastFiredAt.value < rule.cooldownMs.GetOr(0) { return; }
      after := after.(lastFiredAt := Some(now));
      fires := true;
    }

    method DebounceAll(conditions: seq<Condition>, before: map<nat, int>, truths: seq<bool>, now: int, ghost o: Obs)
      returns (held: map<nat, int>, debounced: seq<bool>)
      requires |truths| == |conditions| && o.truths == truths && o.now == now
      ensures held == HeldAfter(before, o) && debounced == Debounced(conditions, held, o)
    {
      held, debounced := before, [];
      assert HeldUpTo(before, o, 0) == before;
      for i := 0 to |conditions|
        invariant held == HeldUpTo(before, o, i)
        invariant |debounced| == i
        invariant forall k | 0 <= k < i :: debounced[k] == DebouncedAt(conditions[k], before, o, k)
      {
        HeldOnce(before, o, i);
        var d := false;
        if !truths[i] {
          held := map k | k in held && k != i :: held[k];
        } else {
          if i !in held { held := held[i := now]; }
          d := now - held[i] >= conditions[i].debounceMs.GetOr(0);
        }
        debounced := debounced + [d];
      }
      HeldAll(before, o);
    }

    method TestCondition(condition: Condition, snapshot: Devices) returns (b: bool)
      ensures b == ConditionTrue(condition, catalog.entries, snapshot)
    {
      var targets := catalog.ResolveTargets(condition.device);
      for i := 0 to |targets|
        invariant forall k | 0 <= k < i :: !Satisfies(Lookup(snapshot, targets[k], condition.telemetry), condition)
      {
        var value := Lookup(snapshot, targets[i], condition.telemetry);
        if value.Some? && Compare(value.value.value, condition.op, condition.threshold) {
          assert targets[i] in targets;
          return true;
        }
      }
      b := false;
    }

    method TestPresence(conditions: seq<Condition>, snapshot: Devices) returns (b: bool)
      ensures b == AllPresent(conditions, catalog.entries, snapshot)
    {
      for i := 0 to |conditions|
        invariant forall k | 0 <= k < i :: HasValue(conditions[k], catalog.entries, snapshot)
      {
        var targets := catalog.ResolveTargets(conditions[i].device);
        var found := false;
        for j := 0 to |targets|
          invariant found == exists k | 0 <= k < j :: Lookup(snapshot, targets[k], conditions[i].telemetry).Some?
        {
          found := found || Lookup(snapshot, targets[j], conditions[i].telemetry).Some?;
        }
        if !found {
          assert !HasValue(conditions[i], catalog.entries, snapshot);
          return false;
        }
        assert HasValue(conditions[i], catalog.entries, snapshot);
      }
      b := true;
    }
  }

  ghost predicate DebouncedAt(c: Condition, before: map<nat, int>, o: Obs, k: nat)
    requires k < |o.truths|
  {
    o.truths[k] && o.now - HeldAfter(before, o)[k] >= Debounce(c)
  }

  /** Held-since times once the first `n` conditions have been looked at. */
  ghost function HeldUpTo(held: map<nat, int>, o: Obs, n: nat): map<nat, int>
    requires n <= |o.truths|
  {
    map i | i in held.Keys + (set k | 0 <= k < n && o.truths[k]) && (i < n ==> o.truths[i]) ::
      if i in held then held[i] else o.now
  }

  lemma HeldOnce(held: map<nat, int>, o: Obs, n: nat)
    requires n < |o.truths|
    ensures var before := HeldUpTo(held, o, n);
            HeldUpTo(held, o, n + 1) ==
            (if !o.truths[n] then map k | k in before && k != n :: before[k]
             else if n in before then before else before[n := o.now])
    ensures o.truths[n] ==> n in HeldUpTo(held, o, n + 1) && n in HeldAfter(held, o)
                            && HeldUpTo(held, o, n + 1)[n] == HeldAfter(held, o)[n]
  {
  }

  lemma HeldAll(held: map<nat, int>, o: Obs)
    ensures HeldUpTo(held, o, |o.truths|) == HeldAfter(held, o)
  {
  }
}
