/** Detector and table together: from start-up on, the table mirrors what was last observed. */
module AlarmProjection {
  import opened Prelude
  import opened AlarmTransitionDetector
  import opened AlarmStateRepository

  /** The statement a transition issues. */
  function Statement(l: Logged): Op {
    if l.transition.kind == Set
    then Activate(l.deviceId, l.transition.name, l.transition.severity, l.transition.description)
    else Deactivate(l.deviceId, l.transition.name)
  }

  /** A write that reached the table, one that failed, or a technician's mark in between. */
  datatype Event =
    | Write(logged: Logged, at: int, ok: bool)
    | Mark(deviceId: string, name: string, username: string, at: int)

  function Written(start: Table, events: seq<Event>): Table {
    if events == [] then start
    else
      var before := Written(start, events[..|events| - 1]);
      match events[|events| - 1]
      case Write(l, at, ok) => if ok then Apply(before, Statement(l), at) else before
      case Mark(d, n, u, at) => Apply(before, Resolve(d, n, u), at)
  }

  /** The transitions whose writes are among the events. */
  function Issued(events: seq<Event>, successful: bool): seq<Logged> {
    if events == [] then []
    else
      var e := events[|events| - 1];
      Issued(events[..|events| - 1], successful) + (if e.Write? && (!successful || e.ok) then [e.logged] else [])
  }

  function LastKind(log: seq<Logged>, d: string, n: string): Kind {
    var ks := KindsOf(log, d, n);
    if ks == [] then Clear else ks[|ks| - 1]
  }

  class AlarmPath {
    const detector: Detector
    const repository: Repository

    constructor (detector: Detector, repository: Repository)
      ensures this.detector == detector && this.repository == repository
    {
      this.detector, this.repository := detector, repository;
    }

    /** Start-up: stale rows are closed and the device's traces forgotten. */
    method Start(deviceIds: seq<string>, now: int)
      modifies detector, repository
      ensures repository.rows == ResetTable(old(repository.rows), deviceIds, now)
      ensures detector.lastActive == ResetEach(old(detector.lastActive), deviceIds)
    {
      repository.ResetDevices(deviceIds, now);
      for i := 0 to |deviceIds|
        invariant repository.rows == ResetTable(old(repository.rows), deviceIds, now)
        invariant detector.lastActive == ResetEach(old(detector.lastActive), deviceIds[..i])
      {
        TakeNext(deviceIds, i + 1);
        DropLast(deviceIds[..i], deviceIds[i]);
        detector.Reset(deviceIds[i]);
      }
      assert deviceIds[..|deviceIds|] == deviceIds;
    }

    /** One poll; `ok[i]` tells whether the i-th statement reaches the table. A failed write is not retried. */
    method EvaluateAlarms(deviceId: string, rules: seq<AlarmRule>, telemetry: seq<Reading>, ok: nat -> bool, now: int)
      returns (transitions: seq<Transition>)
      modifies detector, repository
      ensures (detector.lastActive, transitions) == Detected(old(detector.lastActive), deviceId, Sampled(rules, telemetry))
      ensures repository.rows == Written(old(repository.rows), PollEvents(deviceId, transitions, ok, now))
    {
      var samples := AlarmSamples(rules, telemetry);
      if |samples| == 0 { return []; }
      transitions := detector.Detect(deviceId, samples);
      ghost var events := PollEvents(deviceId, transitions, ok, now);
      for i := 0 to |transitions|
        invariant repository.rows == Written(old(repository.rows), events[..i])
        invariant (detector.lastActive, transitions) == Detected(old(detector.lastActive), deviceId, samples)
      {
        TakeNext(events, i + 1);
        DropLast(events[..i], events[i]);
        if ok(i) {
          if transitions[i].kind == Set {
            repository.ActivateAlarm(deviceId, transitions[i].name, transitions[i].severity, transitions[i].description, now);
          } else {
            repository.DeactivateAlarm(deviceId, transitions[i].name, now);
          }
        }
      }
      assert events[..|transitions|] == events;
    }
  }

  function PollEvents(deviceId: string, ts: seq<Transition>, ok: nat -> bool, now: int): (r: seq<Event>)
    ensures |r| == |ts|
  {
    seq(|ts|, i requires 0 <= i < |ts| => Write(Logged(deviceId, ts[i]), now, ok(i)))
  }

  function ResetEach(last: Memory, deviceIds: seq<string>): Memory {
    if deviceIds == [] then last
    else AfterReset(ResetEach(last, deviceIds[..|deviceIds| - 1]), deviceIds[|deviceIds| - 1])
  }

  lemma {:induction false} StartForgets(last: Memory, deviceIds: seq<string>, d: string, n: string)
    requires d in deviceIds
    ensures Key(d, n) !in ResetEach(last, deviceIds)
  {
    var front, e := deviceIds[..|deviceIds| - 1], deviceIds[|deviceIds| - 1];
    if d == e {
      assert OwnedBy(Key(d, n), d);
    } else {
      assert deviceIds == front + [e];
      StartForgets(last, front, d, n);
    }
  }

  lemma StatementDecides(t: Table, l: Logged, at: int, d: string, n: string)
    ensures IsActive(Apply(t, Statement(l), at), d, n) <==>
            if l.deviceId == d && l.transition.name == n then l.transition.kind == Set else IsActive(t, d, n)
  {
  }

  lemma MarkKeepsActive(t: Table, e: string, m: string, u: string, at: int, d: string, n: string)
    ensures IsActive(Apply(t, Resolve(e, m, u), at), d, n) == IsActive(t, d, n)
  {
  }

  lemma LastKindNext(log: seq<Logged>, l: Logged, d: string, n: string)
    ensures LastKind(log + [l], d, n) ==
            if l.deviceId == d && l.transition.name == n then l.transition.kind else LastKind(log, d, n)
  {
    DropLast(log, l);
  }

  /** The row is active exactly when the last statement that reached the table was a set. */
  lemma {:induction false} RowFollowsLastWrite(start: Table, events: seq<Event>, d: string, n: string)
    requires !IsActive(start, d, n)
    ensures IsActive(Written(start, events), d, n) <==> LastKind(Issued(events, true), d, n) == Set
  {
    if events != [] {
      var front, e := events[..|events| - 1], events[|events| - 1];
      RowFollowsLastWrite(start, front, d, n);
      assert Issued(front, true) + [] == Issued(front, true);
      match e
      case Write(l, at, ok) =>
        StatementDecides(Written(start, front), l, at, d, n);
        LastKindNext(Issued(front, true), l, d, n);
      case Mark(x, m, u, at) => MarkKeepsActive(Written(start, front), x, m, u, at, d, n);
    }
  }

  lemma {:induction false} AllSucceeded(events: seq<Event>)
    requires forall e | e in events :: e.Write? ==> e.ok
    ensures Issued(events, true) == Issued(events, false)
  {
    if events != [] {
      assert events[|events| - 1] in events && forall e | e in events[..|events| - 1] :: e in events;
      AllSucceeded(events[..|events| - 1]);
    }
  }

  lemma LastEdgeIsLastAct(log: seq<Logged>, acts: seq<bool>, d: string, n: string)
    requires KindsOf(log, d, n) == EdgesOf(acts)
    ensures LastKind(log, d, n) == Set <==> acts != [] && acts[|acts| - 1]
  {
    EdgesAlternate(acts);
  }

  /**
   Main result: start up, then poll any devices while technicians mark alarms. For
   each alarm of a started device the row agrees with the last observation exactly
   when the last statement that got through says the same as the last one issued;
   in particular always when every write succeeds.
   */
  lemma TableMirrorsDetector(
    table: Table, memory: Memory, deviceIds: seq<string>, startedAt: int,
    polls: seq<Poll>, events: seq<Event>, d: string, n: string)
    requires d in deviceIds && KeyIsOwn(polls, d, n)
    requires Issued(events, false) == Polled(ResetEach(memory, deviceIds), polls).1
    ensures var acts := Acts(polls, d, n);
            var on := acts != [] && acts[|acts| - 1];
            var rows := Written(ResetTable(table, deviceIds, startedAt), events);
            && (IsActive(rows, d, n) == on <==>
                LastKind(Issued(events, true), d, n) == LastKind(Issued(events, false), d, n))
            && ((forall e | e in events :: e.Write? ==> e.ok) ==> IsActive(rows, d, n) == on)
            && Get(Polled(ResetEach(memory, deviceIds), polls).0, Key(d, n)) == (if acts == [] then None else Some(on))
  {
    var start := ResetEach(memory, deviceIds);
    StartForgets(memory, deviceIds, d, n);
    TransitionsAreEdges(start, polls, d, n);
    LastEdgeIsLastAct(Polled(start, polls).1, Acts(polls, d, n), d, n);
    RowFollowsLastWrite(ResetTable(table, deviceIds, startedAt), events, d, n);
    if forall e | e in events :: e.Write? ==> e.ok { AllSucceeded(events); }
  }

  // ------------------------------------- the writes of one poll run side by side

  function RowAt(t: Table, k: (string, string)): Option<Row> { if k in t then Some(t[k]) else None }

  function RowOf(e: Event): (string, string) {
    match e
    case Write(l, _, _) => (l.deviceId, l.transition.name)
    case Mark(d, n, _, _) => (d, n)
  }

  ghost predicate SeparateRows(events: seq<Event>) {
    forall i, j | 0 <= i < j < |events| :: RowOf(events[i]) != RowOf(events[j])
  }

  /** An event changes its own row, by what that row held, and no other. */
  lemma EventIsLocal(t: Table, u: Table, e: Event, k: (string, string))
    requires RowAt(t, k) == RowAt(u, k)
    ensures RowAt(Written(t, [e]), k) == if RowOf(e) == k then RowAt(Written(u, [e]), k) else RowAt(t, k)
  {
    assert [e][..0] == [];
  }

  lemma WrittenNext(start: Table, front: seq<Event>, e: Event)
    ensures Written(start, front + [e]) == Written(Written(start, front), [e])
  {
    DropLast(front, e);
    assert [e][..0] == [];
  }

  lemma {:induction false} RowUntouched(start: Table, events: seq<Event>, k: (string, string))
    requires forall e | e in events :: RowOf(e) != k
    ensures RowAt(Written(start, events), k) == RowAt(start, k)
  {
    if events != [] {
      var front, e := events[..|events| - 1], events[|events| - 1];
      assert events == front + [e];
      WrittenNext(start, front, e);
      RowUntouched(start, front, k);
      EventIsLocal(Written(start, front), Written(start, front), e, k);
    }
  }

  lemma {:induction false} RowHasOneWrite(start: Table, events: seq<Event>, e: Event)
    requires SeparateRows(events) && e in events
    ensures RowAt(Written(start, events), RowOf(e)) == RowAt(Written(start, [e]), RowOf(e))
  {
    var front, last := events[..|events| - 1], events[|events| - 1];
    assert events == front + [last];
    WrittenNext(start, front, last);
    if last == e {
      assert forall f | f in front :: RowOf(f) != RowOf(e);
      RowUntouched(start, front, RowOf(e));
      EventIsLocal(Written(start, front), start, e, RowOf(e));
    } else {
      RowHasOneWrite(start, front, e);
      var i :| 0 <= i < |front| && front[i] == e;
      EventIsLocal(Written(start, front), Written(start, front), last, RowOf(e));
    }
  }

  /** Events on separate rows leave the same table in whatever order they take effect. */
  lemma OrderIsFree(start: Table, events: seq<Event>, others: seq<Event>)
    requires SeparateRows(events) && SeparateRows(others) && forall e :: e in events <==> e in others
    ensures Written(start, events) == Written(start, others)
  {
    var t, u := Written(start, events), Written(start, others);
    forall k ensures RowAt(t, k) == RowAt(u, k) {
      if e :| e in events && RowOf(e) == k {
        RowHasOneWrite(start, events, e);
        RowHasOneWrite(start, others, e);
      } else {
        RowUntouched(start, events, k);
        RowUntouched(start, others, k);
      }
    }
    assert forall k :: k in t <==> RowAt(t, k).Some?;
    assert forall k :: k in u <==> RowAt(u, k).Some?;
  }

  predicate DistinctAlarms(rules: seq<AlarmRule>) {
    forall i, j | 0 <= i < j < |rules| :: rules[i].telemetry != rules[j].telemetry
  }

  ghost predicate HasRule(rules: seq<AlarmRule>, name: string) { exists r :: r in rules && r.telemetry == name }

  ghost predicate HasSample(samples: seq<Sample>, name: string) { exists s :: s in samples && s.name == name }

  predicate DistinctSamples(samples: seq<Sample>) {
    forall i, j | 0 <= i < j < |samples| :: samples[i].name != samples[j].name
  }

  predicate DistinctTransitions(ts: seq<Transition>) {
    forall i, j | 0 <= i < j < |ts| :: ts[i].name != ts[j].name
  }

  lemma {:induction false} SamplesAreDistinct(rules: seq<AlarmRule>, telemetry: seq<Reading>)
    requires DistinctAlarms(rules)
    ensures forall s | s in Sampled(rules, telemetry) :: HasRule(rules, s.name)
    ensures DistinctSamples(Sampled(rules, telemetry))
  {
    if rules != [] {
      var front, rule := rules[..|rules| - 1], rules[|rules| - 1];
      var before := Sampled(front, telemetry);
      SamplesAreDistinct(front, telemetry);
      forall s | s in before ensures HasRule(rules, s.name) && s.name != rule.telemetry {
        var r :| r in front && r.telemetry == s.name;
      }
      assert rule in rules && HasRule(rules, rule.telemetry);
      assert forall i | 0 <= i < |before| :: before[i] in before;
    }
  }

  lemma {:induction false} TransitionsAreDistinct(last: Memory, deviceId: string, samples: seq<Sample>)
    requires DistinctSamples(samples)
    ensures var ts := Detected(last, deviceId, samples).1;
      (forall t | t in ts :: HasSample(samples, t.name)) && DistinctTransitions(ts)
  {
    if samples != [] {
      var front, s := samples[..|samples| - 1], samples[|samples| - 1];
      var before := Detected(last, deviceId, front).1;
      TransitionsAreDistinct(last, deviceId, front);
      forall t | t in before ensures HasSample(samples, t.name) && t.name != s.name {
        var r :| r in front && r.name == t.name;
      }
      assert s in samples && HasSample(samples, s.name);
      assert forall i | 0 <= i < |before| :: before[i] in before;
      var ts := Detected(last, deviceId, samples).1;
      if ts != before {
        assert ts == before + [ts[|before|]] && ts[|before|].name == s.name;
      }
    }
  }

  lemma EventsAreSeparate(deviceId: string, ts: seq<Transition>, ok: nat -> bool, now: int)
    requires DistinctTransitions(ts)
    ensures SeparateRows(PollEvents(deviceId, ts, ok, now))
  {
    var events := PollEvents(deviceId, ts, ok, now);
    forall i, j | 0 <= i < j < |events| ensures RowOf(events[i]) != RowOf(events[j]) {
      assert RowOf(events[i]) == (deviceId, ts[i].name) && RowOf(events[j]) == (deviceId, ts[j].name);
      assert ts[i].name != ts[j].name;
    }
  }

  /**
   The writes of one poll run concurrently: with one rule per alarm they leave the same table in
   whatever order they take effect, lost ones included.
   */
  lemma PollOrderIsFree(
    table: Table, last: Memory, deviceId: string, rules: seq<AlarmRule>, telemetry: seq<Reading>, ok: nat -> bool, now: int,
    others: seq<Event>)
    requires DistinctAlarms(rules) && SeparateRows(others)
    requires var events := PollEvents(deviceId, Detected(last, deviceId, Sampled(rules, telemetry)).1, ok, now);
      forall e :: e in events <==> e in others
    ensures Written(table, others)
         == Written(table, PollEvents(deviceId, Detected(last, deviceId, Sampled(rules, telemetry)).1, ok, now))
  {
    SamplesAreDistinct(rules, telemetry);
    TransitionsAreDistinct(last, deviceId, Sampled(rules, telemetry));
    var ts := Detected(last, deviceId, Sampled(rules, telemetry)).1;
    var events := PollEvents(deviceId, ts, ok, now);
    EventsAreSeparate(deviceId, ts, ok, now);
    OrderIsFree(table, events, others);
  }

  /** The row of a transition that got through shows what the transition says. */
  lemma RowShowsTransition(start: Table, front: seq<Event>, l: Logged, at: int)
    requires l.transition.kind == Set
    ensures var rows, k := Written(start, front + [Write(l, at, true)]), (l.deviceId, l.transition.name);
      && k in rows && rows[k].active
      && rows[k].severity == l.transition.severity && rows[k].description == l.transition.description
  {
    DropLast(front, Write(l, at, true));
  }
}
