/**
 When a rule that arms after a false fires early, told by telemetry: exactly when some
 telemetry shows the rule pending, its values satisfied and a debounce still running.
 */
module RuleArming {
  import opened Prelude
  import opened DeviceCatalog
  import opened CycleSnapshotStore
  import opened RuleEvaluator
  import opened ManagementService
  import opened RuleHistory

  /** All values are there and satisfy the rule, which yet counts as false for its debounce. */
  predicate IsPending(rule: Rule, o: Obs) {
    o.present && Combined(rule, o.truths) && !RuleTrue(rule, [o])
  }

  // ---------------------------------------------------------------- on histories

  lemma HeldSoon(h: History, i: nat, d: int)
    requires h != [] && i < |h[|h| - 1].truths| && HeldLongEnough([h[|h| - 1]], i, d)
    ensures HeldLongEnough(h, i, d)
  {
    var j := StretchStart([h[|h| - 1]], i, d);
    assert TrueSince(h, i, |h| - 1);
  }

  lemma TrueSoon(rule: Rule, h: History)
    requires Fits(rule, h) && h != [] && RuleTrue(rule, [h[|h| - 1]])
    ensures RuleTrue(rule, h)
  {
    hide HeldLongEnough;
    var last := [h[|h| - 1]];
    forall i | 0 <= i < |Conditions(rule)| && HeldLongEnough(last, i, Debounce(Conditions(rule)[i]))
      ensures HeldLongEnough(h, i, Debounce(Conditions(rule)[i]))
    {
      HeldSoon(h, i, Debounce(Conditions(rule)[i]));
    }
  }

  /** A firing without a really false evaluation before it was armed by a pending one. */
  lemma {:induction false} EarlyFiringWasPending(rule: Rule, h: History) returns (n: nat)
    requires rule.armAfterFalse == Some(true) && Fits(rule, h) && Fires(rule, h) && !RealFalseBefore(rule, h)
    ensures n < |h| && IsPending(rule, h[n])
  {
    hide RuleTrue, Combined;
    var front := h[..|h| - 1];
    assert Armed(rule, front);
    var m :| 0 < m <= |front| && SeenFalse(rule, front, m);
    n := m - 1;
    var upTo := front[..m];
    assert upTo[|upTo| - 1] == h[n];
    if RuleTrue(rule, [h[n]]) { TrueSoon(rule, upTo); }
  }

  /** The same values seen again when every debounce is over: the rule fires. */
  lemma PendingThenFires(rule: Rule, a: Obs, b: Obs)
    requires rule.armAfterFalse == Some(true) && |a.truths| == |Conditions(rule)| && IsPending(rule, a)
    requires b.truths == a.truths && forall k | 0 <= k < |Conditions(rule)| :: Debounce(Conditions(rule)[k]) <= b.now - a.now
    ensures Fires(rule, [a, b]) && !RealFalseBefore(rule, [a, b])
  {
    var h := [a, b];
    forall k | 0 <= k < |Conditions(rule)| && a.truths[k] ensures HeldLongEnough(h, k, Debounce(Conditions(rule)[k])) {
      assert TrueSince(h, k, 0) && h[|h| - 1].now - h[0].now >= Debounce(Conditions(rule)[k]);
    }
    assert h[..1] == [a] && [a][..0] == [] && [a][..1] == [a];
    assert SeenFalse(rule, [a], 1);
    assert LastFiring(rule, [a]) == None;
  }

  // -------------------------------------------------------- the same telemetry again

  function LaterSample(s: Sample, ms: int): Sample { s.(at := s.at + ms) }

  function LaterLog(log: seq<Sample>, ms: int): seq<Sample> {
    seq(|log|, i requires 0 <= i < |log| => LaterSample(log[i], ms))
  }

  function LaterValue(v: Option<SnapshotValue>, ms: int): Option<SnapshotValue> {
    match v
    case Some(x) => Some(x.(recordedAt := x.recordedAt + ms))
    case None => None
  }

  lemma {:induction false} LatestLater(log: seq<Sample>, ms: int, d: string, k: string)
    ensures LatestNamed(LaterLog(log, ms), d, k) == LaterValue(LatestNamed(log, d, k), ms)
    ensures LatestTagged(LaterLog(log, ms), d, k) == LaterValue(LatestTagged(log, d, k), ms)
  {
    if log != [] {
      LatestLater(log[..|log| - 1], ms, d, k);
      assert LaterLog(log, ms)[..|log| - 1] == LaterLog(log[..|log| - 1], ms);
    }
  }

  lemma {:induction false} LatestJoin(a: seq<Sample>, b: seq<Sample>, d: string, k: string)
    ensures LatestNamed(a + b, d, k) == if LatestNamed(b, d, k).Some? then LatestNamed(b, d, k) else LatestNamed(a, d, k)
    ensures LatestTagged(a + b, d, k) == if LatestTagged(b, d, k).Some? then LatestTagged(b, d, k) else LatestTagged(a, d, k)
  {
    if b == [] {
      assert a + b == a;
    } else {
      AppendedFront(a, b);
      LatestJoin(a, b[..|b| - 1], d, k);
    }
  }

  /** Recorded once more, all telemetry answers as it did, that much later. */
  lemma AnswerAgain(log: seq<Sample>, ms: int, now: int, maxAgeMs: int, d: string, k: string)
    ensures Answer(log + LaterLog(log, ms), now + ms, maxAgeMs, d, k) == LaterValue(Answer(log, now, maxAgeMs, d, k), ms)
  {
    LatestJoin(log, LaterLog(log, ms), d, k);
    LatestLater(log, ms, d, k);
  }

  // --------------------------------------------------------------------- on runs

  /** A run that records these samples, one at a time. */
  function Recording(log: seq<Sample>): (r: seq<Action>)
    ensures |r| == |log|
  {
    seq(|log|, i requires 0 <= i < |log| => CycleSnapshotStore.Record(log[i].deviceId, [log[i].t], log[i].at))
  }

  lemma RecordOne(before: seq<Action>, s: Sample)
    ensures var actions := before + [CycleSnapshotStore.Record(s.deviceId, [s.t], s.at)];
      FullLog(actions) == FullLog(before) + [s] && Cycles(actions) == Cycles(before)
  {
    DropLast(before, CycleSnapshotStore.Record(s.deviceId, [s.t], s.at));
    assert Samples(s.deviceId, [s.t], s.at) == [s];
    assert Cycles(before) + [] == Cycles(before);
  }

  lemma {:induction false} RecordingLog(front: seq<Action>, log: seq<Sample>)
    ensures FullLog(front + Recording(log)) == FullLog(front) + log
    ensures Cycles(front + Recording(log)) == Cycles(front)
  {
    hide FullLog, Cycles;
    if log == [] {
      assert front + Recording(log) == front;
    } else {
      var init, s := log[..|log| - 1], log[|log| - 1];
      var before, a := front + Recording(init), CycleSnapshotStore.Record(s.deviceId, [s.t], s.at);
      RecordingLog(front, init);
      assert front + Recording(log) == before + [a];
      RecordOne(before, s);
      Assoc(FullLog(front), init, [s]);
      assert init + [s] == log;
    }
  }

  predicate InOrder(log: seq<Sample>, now: int) {
    (forall i | 0 <= i < |log| :: log[i].at <= now) && forall i, j | 0 <= i < j < |log| :: log[i].at <= log[j].at
  }

  lemma {:induction false} LogInOrder(actions: seq<Action>, now: int)
    requires CycleSnapshotStore.ClockRuns(actions, now)
    ensures InOrder(FullLog(actions), now)
  {
    if actions != [] {
      FrontClock(actions, now);
      LogInOrder(actions[..|actions| - 1], actions[|actions| - 1].at);
    }
  }

  /** A run that ends in a cycle at `at`, evaluated at `now`. */
  function Cycle(front: seq<Action>, at: int, now: int): (part: seq<Action>)
    ensures part != [] && part[|part| - 1] == CycleSnapshotStore.Snapshot(at, now) && part[..|part| - 1] == front
  {
    front + [CycleSnapshotStore.Snapshot(at, now)]
  }

  /** The samples, a first cycle, and the same samples once more `ms` later. */
  function Twice(log: seq<Sample>, at: int, now: int, ms: int): seq<Action> {
    Cycle(Recording(log), at, now) + Recording(LaterLog(log, ms))
  }

  lemma TwiceLog(log: seq<Sample>, at: int, now: int, ms: int)
    ensures FullLog(Cycle(Recording(log), at, now)) == log
    ensures FullLog(Twice(log, at, now, ms)) == log + LaterLog(log, ms)
    ensures Cycles(Twice(log, at, now, ms)) == [Cycle(Recording(log), at, now)]
  {
    assert [] + Recording(log) == Recording(log) && [] + log == log;
    RecordingLog([], log);
    assert log + [] == log;
    RecordingLog(Cycle(Recording(log), at, now), LaterLog(log, ms));
  }

  /** The clock runs, when the second time is no earlier than the end of the first cycle. */
  lemma TwiceClock(log: seq<Sample>, at: int, now: int, ms: int)
    requires InOrder(log, at) && at <= now <= at + ms && (log != [] ==> now <= log[0].at + ms)
    ensures CycleSnapshotStore.ClockRuns(Twice(log, at, now, ms), at + ms)
  {
    var first := Cycle(Recording(log), at, now);
    var actions, later := Twice(log, at, now, ms), LaterLog(log, ms);
    forall i | 0 <= i < |actions|
      ensures if i < |log| then actions[i].Record? && actions[i].at == log[i].at
              else if i == |log| then actions[i] == CycleSnapshotStore.Snapshot(at, now)
              else actions[i].Record? && actions[i].at == log[i - |log| - 1].at + ms
    {
      if i > |log| { assert actions[i] == Recording(later)[i - |log| - 1]; } else { assert actions[i] == first[i]; }
    }
  }

  /** A cycle that is owed the same values sees the same. */
  lemma SeesTheSame(cfg: Config, rule: Rule, p: seq<Action>, q: seq<Action>, ms: int)
    requires p != [] && q != []
    requires forall d, k :: Owed(cfg, q, d, k) == LaterValue(Owed(cfg, p, d, k), ms)
    ensures CycleObs(cfg, rule, q) == CycleObs(cfg, rule, p).(now := CycleTime(q))
  {
    hide Owed, Compare;
    forall c: Condition
      ensures Holds(cfg, c, q) == Holds(cfg, c, p)
      ensures Present(cfg, c, q) == Present(cfg, c, p)
    {
    }
  }

  lemma CycleLog(front: seq<Action>, at: int, now: int)
    ensures FullLog(Cycle(front, at, now)) == FullLog(front)
    ensures Cycles(Cycle(front, at, now)) == Cycles(front) + [Cycle(front, at, now)]
    ensures CycleTime(Cycle(front, at, now)) == now
  {
    assert FullLog(front) + [] == FullLog(front);
  }

  /** What is owed at the end of a run rests on its log and the time alone. */
  lemma OwedOfLog(cfg: Config, front: seq<Action>, at: int, now: int, d: string, k: string)
    ensures Owed(cfg, Cycle(front, at, now), d, k) == Answer(FullLog(front), at, cfg.maxAgeMs, d, k)
  {
    hide Answer;
    CycleLog(front, at, now);
  }

  lemma SecondSeesFirst(cfg: Config, rule: Rule, log: seq<Sample>, at: int, now: int, ms: int)
    ensures CycleObs(cfg, rule, Cycle(Twice(log, at, now, ms), at + ms, now + ms))
         == CycleObs(cfg, rule, Cycle(Recording(log), at, now)).(now := now + ms)
  {
    hide Answer, Owed, CycleObs, Cycle, Twice;
    var p, q := Cycle(Recording(log), at, now), Cycle(Twice(log, at, now, ms), at + ms, now + ms);
    TwiceLog(log, at, now, ms);
    CycleLog(Recording(log), at, now);
    CycleLog(Twice(log, at, now, ms), at + ms, now + ms);
    forall d, k ensures Owed(cfg, q, d, k) == LaterValue(Owed(cfg, p, d, k), ms) {
      OwedOfLog(cfg, Recording(log), at, now, d, k);
      OwedOfLog(cfg, Twice(log, at, now, ms), at + ms, now + ms, d, k);
      AnswerAgain(log, ms, at, cfg.maxAgeMs, d, k);
    }
    SeesTheSame(cfg, rule, p, q, ms);
  }

  lemma RecordingSeesRun(cfg: Config, rule: Rule, front: seq<Action>, at: int, now: int)
    ensures CycleObs(cfg, rule, Cycle(Recording(FullLog(front)), at, now)) == CycleObs(cfg, rule, Cycle(front, at, now))
    ensures CycleObs(cfg, rule, Cycle(front, at, now)).now == now
  {
    hide Answer, Owed, Cycle;
    var log := FullLog(front);
    TwiceLog(log, at, now, 0);
    CycleLog(Recording(log), at, now);
    CycleLog(front, at, now);
    forall d, k ensures Owed(cfg, Cycle(front, at, now), d, k) == LaterValue(Owed(cfg, Cycle(Recording(log), at, now), d, k), 0) {
      OwedOfLog(cfg, Recording(log), at, now, d, k);
      OwedOfLog(cfg, front, at, now, d, k);
    }
    SeesTheSame(cfg, rule, Cycle(Recording(log), at, now), Cycle(front, at, now), 0);
  }

  /** Both cycles of the run see what a cycle at the end of `front` sees. */
  lemma TwiceSeen(cfg: Config, rule: Rule, front: seq<Action>, at: int, now: int, ms: int)
    ensures var o := CycleObs(cfg, rule, Cycle(front, at, now));
      && o.now == now
      && RuleRecord(cfg, rule, Cycle(Twice(FullLog(front), at, now, ms), at + ms, now + ms)) == [o, o.(now := now + ms)]
  {
    hide CycleObs, Cycle, Twice, Cycles;
    var log := FullLog(front);
    TwiceLog(log, at, now, ms);
    CycleLog(Twice(log, at, now, ms), at + ms, now + ms);
    SecondSeesFirst(cfg, rule, log, at, now, ms);
    RecordingSeesRun(cfg, rule, front, at, now);
  }

  // ------------------------------------------------------------------ the theorem

  /** On this run the rule is returned although no earlier cycle really found it false. */
  ghost predicate FiresEarly(cfg: Config, rule: Rule, front: seq<Action>, at: int, now: int) {
    && CycleSnapshotStore.ClockRuns(front, at) && at <= now
    && rule in CycleResult(cfg, Cycle(front, at, now)).1
    && !RealFalseBefore(rule, RuleRecord(cfg, rule, Cycle(front, at, now)))
  }

  /** A cycle after this run finds the rule pending. */
  ghost predicate ShowsPending(cfg: Config, rule: Rule, front: seq<Action>, at: int, now: int) {
    CycleSnapshotStore.ClockRuns(front, at) && at <= now && IsPending(rule, CycleObs(cfg, rule, Cycle(front, at, now)))
  }

  /** Each cycle of a run ends a run of its own. */
  lemma {:induction false} CycleEndsRun(actions: seq<Action>, now: int, k: nat) returns (front: seq<Action>, at: int, seen: int)
    requires CycleSnapshotStore.ClockRuns(actions, now) && k < |Cycles(actions)|
    ensures Cycles(actions)[k] == Cycle(front, at, seen) && CycleSnapshotStore.ClockRuns(front, at) && at <= seen
  {
    FrontClock(actions, now);
    var init, a := actions[..|actions| - 1], actions[|actions| - 1];
    if k < |Cycles(init)| {
      front, at, seen := CycleEndsRun(init, a.at, k);
    } else {
      front, at, seen := init, a.at, a.evaluated;
      assert actions == init + [a];
    }
  }

  lemma PendingFiresEarly(cfg: Config, i: nat, front: seq<Action>, at: int, now: int)
    returns (longer: seq<Action>, at': int, now': int)
    requires UniqueNames(cfg.rules) && i < |cfg.rules| && RuleEvaluator.Enabled(cfg.rules[i])
    requires cfg.rules[i].armAfterFalse == Some(true) && ShowsPending(cfg, cfg.rules[i], front, at, now)
    ensures FiresEarly(cfg, cfg.rules[i], longer, at', now')
  {
    hide IsPending, CycleObs, Fires, RealFalseBefore, RuleRecord, Twice, CycleResult, UniqueNames;
    var rule, log := cfg.rules[i], FullLog(front);
    var o := CycleObs(cfg, rule, Cycle(front, at, now));
    LogInOrder(front, at);
    var longest := 0;
    if Conditions(rule) != [] {
      var k := LongestWait(Conditions(rule));
      longest := Max(0, Debounce(Conditions(rule)[k]));
    }
    var ms := longest + now - (if log == [] then at else log[0].at);
    longer, at', now' := Twice(log, at, now, ms), at + ms, now + ms;
    TwiceClock(log, at, now, ms);
    TwiceSeen(cfg, rule, front, at, now, ms);
    assert RuleRecord(cfg, rule, Cycle(longer, at', now'))[0] == o;
    PendingThenFires(rule, o, o.(now := now + ms));
    ReturnedIff(cfg, i, longer, at', now');
  }

  lemma EarlyFiringShowsPending(cfg: Config, rule: Rule, front: seq<Action>, at: int, now: int)
    returns (shorter: seq<Action>, at': int, now': int)
    requires UniqueNames(cfg.rules) && rule.armAfterFalse == Some(true) && FiresEarly(cfg, rule, front, at, now)
    ensures ShowsPending(cfg, rule, shorter, at', now')
  {
    hide IsPending, CycleObs, Fires, RealFalseBefore, CycleResult, UniqueNames, FiringRules;
    var actions := Cycle(front, at, now);
    CycleReturnsFiringRules(cfg, front, at, now);
    FiringRulesFire(cfg, cfg.rules, actions, rule);
    var n := EarlyFiringWasPending(rule, RuleRecord(cfg, rule, actions));
    shorter, at', now' := CycleEndsRun(actions, now, n);
  }

  /**
   Main result: whatever the conditions, devices and telemetry, an `armAfterFalse` rule fires on some
   run without a really false cycle before exactly when some telemetry shows it pending. A rule none
   of whose conditions waits never is, nor one whose conditions no telemetry satisfies.
   */
  lemma FiresEarlyIffPendingShown(cfg: Config, i: nat)
    requires UniqueNames(cfg.rules) && i < |cfg.rules| && RuleEvaluator.Enabled(cfg.rules[i])
    requires cfg.rules[i].armAfterFalse == Some(true)
    ensures (exists front, at, now :: FiresEarly(cfg, cfg.rules[i], front, at, now))
       <==> (exists front, at, now :: ShowsPending(cfg, cfg.rules[i], front, at, now))
  {
    hide FiresEarly, ShowsPending, UniqueNames;
    if exists front, at, now :: FiresEarly(cfg, cfg.rules[i], front, at, now) {
      var front, at, now :| FiresEarly(cfg, cfg.rules[i], front, at, now);
      var shorter, at', now' := EarlyFiringShowsPending(cfg, cfg.rules[i], front, at, now);
    }
    if exists front, at, now :: ShowsPending(cfg, cfg.rules[i], front, at, now) {
      var front, at, now :| ShowsPending(cfg, cfg.rules[i], front, at, now);
      var longer, at', now' := PendingFiresEarly(cfg, i, front, at, now);
    }
  }

  lemma WaitsAlone(rule: Rule, c: Condition, o: Obs)
    requires Conditions(rule) == [c] && Debounce(c) > 0 && o.present && o.truths == [true]
    ensures IsPending(rule, o)
  {
    assert forall k, ms | ms > 0 :: !HeldLongEnough([o], k, ms);
    assert !HeldLongEnough([o], 0, Debounce(Conditions(rule)[0])) && o.truths[0];
  }

  lemma OneSampleHolds(cfg: Config, c: Condition, d: string, t: Telemetry)
    requires cfg.maxAgeMs >= 0 && d in Resolved(cfg.entries, c.device)
    requires t.name == c.telemetry && Compare(t.value, c.op, c.threshold)
    ensures var part := Cycle(Recording([Sample(d, t, 0)]), 0, 0); Holds(cfg, c, part) && Present(cfg, c, part)
  {
    hide Cycle, FullLog, Compare, Recording;
    var log := [Sample(d, t, 0)];
    TwiceLog(log, 0, 0, 0);
    OwedOfLog(cfg, Recording(log), 0, 0, d, c.telemetry);
    CycleLog(Recording(log), 0, 0);
    assert Owed(cfg, Cycle(Recording(log), 0, 0), d, c.telemetry) == Some(Taken(log[0]));
  }

  /** For one: a rule of one waiting condition that a value of a known device satisfies. One sample shows it pending. */
  lemma OneSampleShowsPending(cfg: Config, rule: Rule, c: Condition, d: string, t: Telemetry)
    requires Conditions(rule) == [c] && Debounce(c) > 0 && cfg.maxAgeMs >= 0
    requires d in Resolved(cfg.entries, c.device) && t.name == c.telemetry && Compare(t.value, c.op, c.threshold)
    ensures ShowsPending(cfg, rule, Recording([Sample(d, t, 0)]), 0, 0)
  {
    hide IsPending, Cycle, Compare, Holds, Present, Resolved;
    OneSampleHolds(cfg, c, d, t);
    WaitsAlone(rule, c, CycleObs(cfg, rule, Cycle(Recording([Sample(d, t, 0)]), 0, 0)));
  }
}
