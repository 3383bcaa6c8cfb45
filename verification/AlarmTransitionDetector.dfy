/** Alarm edges: from telemetry and rules to set/clear transitions. */
module AlarmTransitionDetector {
  import opened Prelude
  import opened Text

  datatype Severity = ErrorSeverity | WarningSeverity | InfoSeverity
  datatype AlarmRule = AlarmRule(telemetry: string, severity: Severity, description: Option<string>, activeLow: bool)

  /** `Number(value)` of a telemetry value. */
  datatype Coerced = NotANumber | Finite(n: real)
  datatype Reading = Reading(name: string, value: Coerced)

  datatype Sample = Sample(name: string, severity: Severity, description: Option<string>, active: bool)
  datatype Kind = Set | Clear
  datatype Transition = Transition(name: string, severity: Severity, description: Option<string>, kind: Kind)

  predicate Triggers(rule: AlarmRule, value: Coerced) {
    if rule.activeLow then value == Finite(0.0) else value != Finite(0.0)
  }

  predicate Reported(telemetry: seq<Reading>, name: string) {
    exists i | 0 <= i < |telemetry| :: telemetry[i].name == name
  }

  /** Several readings of one name are combined by "or". */
  predicate AlarmOn(rule: AlarmRule, telemetry: seq<Reading>) {
    exists i | 0 <= i < |telemetry| :: telemetry[i].name == rule.telemetry && Triggers(rule, telemetry[i].value)
  }

  /** One sample for each rule whose telemetry was reported, in rule order. */
  function Sampled(rules: seq<AlarmRule>, telemetry: seq<Reading>): seq<Sample> {
    if rules == [] then []
    else
      var rule := rules[|rules| - 1];
      Sampled(rules[..|rules| - 1], telemetry) +
      (if Reported(telemetry, rule.telemetry)
       then [Sample(rule.telemetry, rule.severity, rule.description, AlarmOn(rule, telemetry))] else [])
  }

  ghost predicate Groups(byName: map<string, seq<Coerced>>, telemetry: seq<Reading>) {
    && (forall name :: name in byName <==> Reported(telemetry, name))
    && (forall name, v | name in byName :: v in byName[name] <==>
          exists i | 0 <= i < |telemetry| :: telemetry[i].name == name && telemetry[i].value == v)
  }

  method GroupByName(telemetry: seq<Reading>) returns (byName: map<string, seq<Coerced>>)
    ensures Groups(byName, telemetry)
  {
    byName := map[];
    for i := 0 to |telemetry|
      invariant Groups(byName, telemetry[..i])
    {
      var entry := telemetry[i];
      ghost var before := byName;
      byName := byName[entry.name := (if entry.name in byName then byName[entry.name] else []) + [entry.value]];
      GroupGrows(before, telemetry[..i], entry, byName);
      TakeNext(telemetry, i + 1);
    }
    assert telemetry[..|telemetry|] == telemetry;
  }

  lemma GroupGrows(before: map<string, seq<Coerced>>, telemetry: seq<Reading>, e: Reading, after: map<string, seq<Coerced>>)
    requires Groups(before, telemetry)
    requires after == before[e.name := (if e.name in before then before[e.name] else []) + [e.value]]
    ensures Groups(after, telemetry + [e])
  {
    var all := telemetry + [e];
    assert all[|telemetry|] == e && forall i | 0 <= i < |telemetry| :: all[i] == telemetry[i];
    forall name ensures name in after <==> Reported(all, name) {
      if Reported(telemetry, name) {
        var i :| 0 <= i < |telemetry| && telemetry[i].name == name;
        assert all[i].name == name;
      }
    }
    forall name, v | name in after
      ensures v in after[name] <==> exists i | 0 <= i < |all| :: all[i].name == name && all[i].value == v
    {
      if name in before && v in before[name] {
        var i :| 0 <= i < |telemetry| && telemetry[i].name == name && telemetry[i].value == v;
        assert all[i].name == name && all[i].value == v;
      }
      if exists i | 0 <= i < |all| :: all[i].name == name && all[i].value == v {
        var i :| 0 <= i < |all| && all[i].name == name && all[i].value == v;
        if i < |telemetry| { assert telemetry[i].name == name && telemetry[i].value == v; }
      }
    }
  }

  method AlarmSamples(rules: seq<AlarmRule>, telemetry: seq<Reading>) returns (samples: seq<Sample>)
    ensures samples == Sampled(rules, telemetry)
  {
    if |rules| == 0 { return []; }
    var byName := GroupByName(telemetry);
    samples := [];
    for i := 0 to |rules|
      invariant samples == Sampled(rules[..i], telemetry)
    {
      TakeNext(rules, i + 1);
      DropLast(rules[..i], rules[i]);
      var rule := rules[i];
      if rule.telemetry in byName {
        var active := exists v | v in byName[rule.telemetry] :: Triggers(rule, v);
        ActiveByGroup(rule, telemetry, byName);
        samples := samples + [Sample(rule.telemetry, rule.severity, rule.description, active)];
      }
    }
    assert rules[..|rules|] == rules;
  }

  lemma ActiveByGroup(rule: AlarmRule, telemetry: seq<Reading>, byName: map<string, seq<Coerced>>)
    requires Groups(byName, telemetry) && rule.telemetry in byName
    ensures (exists v | v in byName[rule.telemetry] :: Triggers(rule, v)) <==> AlarmOn(rule, telemetry)
  {
    if AlarmOn(rule, telemetry) {
      var i :| 0 <= i < |telemetry| && telemetry[i].name == rule.telemetry && Triggers(rule, telemetry[i].value);
      assert telemetry[i].value in byName[rule.telemetry];
    }
  }

  // ------------------------------------------------------------------ detector

  type Memory = map<string, bool>

  function Key(deviceId: string, name: string): string { deviceId + [':'] + name }

  function Get(m: Memory, k: string): Option<bool> { if k in m then Some(m[k]) else None }

  function EdgeKind(active: bool): Kind { if active then Set else Clear }

  /** `detect`: the new memory and the transitions. */
  function Detected(last: Memory, deviceId: string, samples: seq<Sample>): (Memory, seq<Transition>) {
    if samples == [] then (last, [])
    else
      var (before, ts) := Detected(last, deviceId, samples[..|samples| - 1]);
      var s := samples[|samples| - 1];
      var key := Key(deviceId, s.name);
      (before[key := s.active],
       if s.active != (Get(before, key) == Some(true))
       then ts + [Transition(s.name, s.severity, s.description, EdgeKind(s.active))] else ts)
  }

  predicate OwnedBy(key: string, deviceId: string) { deviceId + [':'] <= key }

  /** `reset`: every key that starts with the device id and a colon is forgotten. */
  function AfterReset(last: Memory, deviceId: string): Memory {
    map k | k in last && !OwnedBy(k, deviceId) :: last[k]
  }

  class Detector {
    var lastActive: Memory

    constructor ()
      ensures lastActive == map[]
    {
      lastActive := map[];
    }

    method Detect(deviceId: string, samples: seq<Sample>) returns (transitions: seq<Transition>)
      modifies this
      ensures (lastActive, transitions) == Detected(old(lastActive), deviceId, samples)
    {
      transitions := [];
      for i := 0 to |samples|
        invariant (lastActive, transitions) == Detected(old(lastActive), deviceId, samples[..i])
      {
        TakeNext(samples, i + 1);
        DropLast(samples[..i], samples[i]);
        var sample := samples[i];
        var key := Key(deviceId, sample.name);
        var last := Get(lastActive, key);
        if sample.active && last != Some(true) {
          transitions := transitions + [Transition(sample.name, sample.severity, sample.description, Set)];
        } else if !sample.active && last == Some(true) {
          transitions := transitions + [Transition(sample.name, sample.severity, sample.description, Clear)];
        }
        lastActive := lastActive[key := sample.active];
      }
      assert samples[..|samples|] == samples;
    }

    method Reset(deviceId: string)
      modifies this
      ensures lastActive == AfterReset(old(lastActive), deviceId)
    {
      var todo := lastActive.Keys;
      while todo != {}
        invariant todo <= old(lastActive).Keys
        invariant lastActive == map k | k in old(lastActive) && (k in todo || !OwnedBy(k, deviceId)) :: old(lastActive)[k]
        decreases todo
      {
        var key :| key in todo;
        todo := todo - {key};
        if OwnedBy(key, deviceId) { lastActive := lastActive - {key}; }
      }
    }
  }

  // -------------------------------------------------- edges of a whole history

  /** The edges of a sequence of observations, before which the alarm counts as off. */
  function EdgesOf(acts: seq<bool>): seq<Kind> {
    if acts == [] then []
    else
      var front, a := acts[..|acts| - 1], acts[|acts| - 1];
      EdgesOf(front) + (if a != (front != [] && front[|front| - 1]) then [EdgeKind(a)] else [])
  }

  /** Edges strictly alternate, beginning with a set; an odd number means the alarm is on. */
  lemma {:induction false} EdgesAlternate(acts: seq<bool>)
    ensures forall i | 0 <= i < |EdgesOf(acts)| :: EdgesOf(acts)[i] == if i % 2 == 0 then Set else Clear
    ensures |EdgesOf(acts)| % 2 == 1 <==> acts != [] && acts[|acts| - 1]
  {
    if acts != [] { EdgesAlternate(acts[..|acts| - 1]); }
  }

  datatype Poll = Poll(deviceId: string, samples: seq<Sample>)
  datatype Logged = Logged(deviceId: string, transition: Transition)

  function Tagged(deviceId: string, ts: seq<Transition>): seq<Logged> {
    seq(|ts|, i requires 0 <= i < |ts| => Logged(deviceId, ts[i]))
  }

  /** Memory and all transitions after a sequence of polls. */
  function Polled(start: Memory, polls: seq<Poll>): (Memory, seq<Logged>) {
    if polls == [] then (start, [])
    else
      var (before, log) := Polled(start, polls[..|polls| - 1]);
      var p := polls[|polls| - 1];
      var (after, ts) := Detected(before, p.deviceId, p.samples);
      (after, log + Tagged(p.deviceId, ts))
  }

  /** What the samples say of one alarm. */
  function SampleActs(samples: seq<Sample>, name: string): seq<bool> {
    if samples == [] then []
    else SampleActs(samples[..|samples| - 1], name) +
         (if samples[|samples| - 1].name == name then [samples[|samples| - 1].active] else [])
  }

  /** All observations of one alarm of one device. */
  function Acts(polls: seq<Poll>, deviceId: string, name: string): seq<bool> {
    if polls == [] then []
    else
      var p := polls[|polls| - 1];
      Acts(polls[..|polls| - 1], deviceId, name) + (if p.deviceId == deviceId then SampleActs(p.samples, name) else [])
  }

  function KindsOf(log: seq<Logged>, deviceId: string, name: string): seq<Kind> {
    if log == [] then []
    else
      var l := log[|log| - 1];
      KindsOf(log[..|log| - 1], deviceId, name) +
      (if l.deviceId == deviceId && l.transition.name == name then [l.transition.kind] else [])
  }

  predicate ColonFree(id: string) { ':' !in id }

  lemma KeysDistinct(d: string, n: string, e: string, m: string)
    requires ColonFree(d) && ColonFree(e) && Key(d, n) == Key(e, m)
    ensures d == e && n == m
  {
    CutFirst(d, n, e, m, ':');
  }

  lemma SameDeviceKeys(d: string, n: string, m: string)
    ensures Key(d, n) == Key(d, m) <==> n == m
  {
    assert n == Key(d, n)[|d| + 1..] && m == Key(d, m)[|d| + 1..];
  }

  lemma {:induction false} KindsOfJoin(a: seq<Logged>, b: seq<Logged>, d: string, n: string)
    ensures KindsOf(a + b, d, n) == KindsOf(a, d, n) + KindsOf(b, d, n)
  {
    if b == [] {
      assert a + b == a;
    } else {
      assert (a + b)[..|a + b| - 1] == a + b[..|b| - 1];
      KindsOfJoin(a, b[..|b| - 1], d, n);
    }
  }

  ghost predicate Remembers(last: Memory, d: string, n: string, acts: seq<bool>) {
    Get(last, Key(d, n)) == if acts == [] then None else Some(acts[|acts| - 1])
  }

  /** Kinds of the transitions named `n`. */
  function Kinds(ts: seq<Transition>, n: string): seq<Kind> {
    if ts == [] then []
    else Kinds(ts[..|ts| - 1], n) + (if ts[|ts| - 1].name == n then [ts[|ts| - 1].kind] else [])
  }

  lemma {:induction false} TaggedKinds(deviceId: string, ts: seq<Transition>, d: string, n: string)
    ensures KindsOf(Tagged(deviceId, ts), d, n) == if deviceId == d then Kinds(ts, n) else []
  {
    if ts != [] {
      TaggedKinds(deviceId, ts[..|ts| - 1], d, n);
      assert Tagged(deviceId, ts)[..|ts| - 1] == Tagged(deviceId, ts[..|ts| - 1]);
    }
  }

  /** One device's own samples add the edges of its alarm. */
  lemma {:induction false} DetectOwn(last: Memory, d: string, samples: seq<Sample>, n: string, acts: seq<bool>)
    requires Remembers(last, d, n, acts)
    ensures var (after, ts) := Detected(last, d, samples);
            && Remembers(after, d, n, acts + SampleActs(samples, n))
            && EdgesOf(acts + SampleActs(samples, n)) == EdgesOf(acts) + Kinds(ts, n)
    decreases |samples|
  {
    if samples == [] {
      assert acts + [] == acts;
    } else {
      var front, s := samples[..|samples| - 1], samples[|samples| - 1];
      DetectOwn(last, d, front, n, acts);
      var (mid, ts) := Detected(last, d, front);
      SampleEdge(mid, d, s, n, acts + SampleActs(front, n));
      Assoc(acts, SampleActs(front, n), [s.active]);
      DropLast(ts, Transition(s.name, s.severity, s.description, EdgeKind(s.active)));
      Assoc(EdgesOf(acts), Kinds(ts, n), [EdgeKind(s.active)]);
      assert acts + SampleActs(samples, n) ==
             if s.name == n then (acts + SampleActs(front, n)) + [s.active] else acts + SampleActs(front, n);
    }
  }

  lemma SampleEdge(last: Memory, d: string, s: Sample, n: string, acts: seq<bool>)
    requires Remembers(last, d, n, acts)
    ensures Remembers(last[Key(d, s.name) := s.active], d, n, if s.name == n then acts + [s.active] else acts)
    ensures EdgesOf(acts + [s.active]) ==
            EdgesOf(acts) + (if s.active != (Get(last, Key(d, n)) == Some(true)) then [EdgeKind(s.active)] else [])
  {
    SameDeviceKeys(d, s.name, n);
    DropLast(acts, s.active);
  }

  /** None of the samples has the alarm's key. */
  predicate OtherKeys(e: string, samples: seq<Sample>, d: string, n: string) {
    forall i | 0 <= i < |samples| :: Key(e, samples[i].name) != Key(d, n)
  }

  /** Samples with other keys leave the alarm alone. */
  lemma {:induction false} DetectOther(last: Memory, e: string, samples: seq<Sample>, d: string, n: string)
    requires OtherKeys(e, samples, d, n)
    ensures Get(Detected(last, e, samples).0, Key(d, n)) == Get(last, Key(d, n))
    decreases |samples|
  {
    if samples != [] {
      var front := samples[..|samples| - 1];
      assert forall i | 0 <= i < |front| :: front[i] == samples[i];
      DetectOther(last, e, front, d, n);
    }
  }

  /** Polls of other devices never use the alarm's key. */
  predicate KeyIsOwn(polls: seq<Poll>, d: string, n: string) {
    forall i | 0 <= i < |polls| && polls[i].deviceId != d :: OtherKeys(polls[i].deviceId, polls[i].samples, d, n)
  }

  /** The transitions of the alarm are the edges of what was observed of it, and the last observation is remembered. */
  ghost predicate GivesEdges(start: Memory, polls: seq<Poll>, d: string, n: string) {
    var (last, log) := Polled(start, polls);
    KindsOf(log, d, n) == EdgesOf(Acts(polls, d, n)) && Remembers(last, d, n, Acts(polls, d, n))
  }

  /**
   Main result: from a memory without a trace of the alarm, its transitions over any
   sequence of polls are exactly the edges of what was observed of it, and the memory
   holds the last observation, as long as no other device's alarm has its key.
   */
  lemma {:induction false} TransitionsAreEdges(start: Memory, polls: seq<Poll>, d: string, n: string)
    requires Key(d, n) !in start && KeyIsOwn(polls, d, n)
    ensures GivesEdges(start, polls, d, n)
  {
    if polls != [] {
      var front, p := polls[..|polls| - 1], polls[|polls| - 1];
      assert forall i | 0 <= i < |front| :: front[i] == polls[i];
      TransitionsAreEdges(start, front, d, n);
      var (before, log) := Polled(start, front);
      var ts := Detected(before, p.deviceId, p.samples).1;
      KindsOfJoin(log, Tagged(p.deviceId, ts), d, n);
      TaggedKinds(p.deviceId, ts, d, n);
      if p.deviceId == d {
        DetectOwn(before, d, p.samples, n, Acts(front, d, n));
      } else {
        DetectOther(before, p.deviceId, p.samples, d, n);
        assert Acts(front, d, n) + [] == Acts(front, d, n);
      }
    }
  }

  /** The polls report only these alarms. */
  predicate Within(polls: seq<Poll>, alarms: set<(string, string)>) {
    forall i, j | 0 <= i < |polls| && 0 <= j < |polls[i].samples| :: (polls[i].deviceId, polls[i].samples[j].name) in alarms
  }

  /** Some other alarm of the configuration has the same key. */
  predicate Clashes(alarms: set<(string, string)>, d: string, n: string) {
    exists a :: a in alarms && a != (d, n) && Key(a.0, a.1) == Key(d, n)
  }

  lemma NoClashIsOwn(polls: seq<Poll>, alarms: set<(string, string)>, d: string, n: string)
    requires Within(polls, alarms) && !Clashes(alarms, d, n)
    ensures KeyIsOwn(polls, d, n)
  {
    forall i | 0 <= i < |polls| && polls[i].deviceId != d ensures OtherKeys(polls[i].deviceId, polls[i].samples, d, n) {
      forall j | 0 <= j < |polls[i].samples| ensures Key(polls[i].deviceId, polls[i].samples[j].name) != Key(d, n) {
        assert (polls[i].deviceId, polls[i].samples[j].name) in alarms;
      }
    }
  }

  lemma DetectOne(last: Memory, d: string, s: Sample)
    ensures Detected(last, d, [s]) ==
      (last[Key(d, s.name) := s.active],
       if s.active != (Get(last, Key(d, s.name)) == Some(true))
       then [Transition(s.name, s.severity, s.description, EdgeKind(s.active))] else [])
  {
    assert [s][..|[s]| - 1] == [];
    var none: seq<Transition> := [];
    assert Detected(last, d, []) == (last, none);
    var t := Transition(s.name, s.severity, s.description, EdgeKind(s.active));
    assert none + [t] == [t];
  }

  lemma ActsNext(front: seq<Poll>, p: Poll, d: string, n: string)
    ensures Acts(front + [p], d, n) == Acts(front, d, n) + (if p.deviceId == d then SampleActs(p.samples, n) else [])
  {
    DropLast(front, p);
    assert Acts(front, d, n) + [] == Acts(front, d, n);
  }

  lemma OneAct(s: Sample, n: string)
    ensures SampleActs([s], n) == if s.name == n then [s.active] else []
  {
    assert [s][..0] == [];
    assert SampleActs([], n) == [];
  }

  lemma PolledNext(start: Memory, front: seq<Poll>, p: Poll)
    ensures var (before, log) := Polled(start, front);
      var (after, ts) := Detected(before, p.deviceId, p.samples);
      Polled(start, front + [p]) == (after, log + Tagged(p.deviceId, ts))
  {
    DropLast(front, p);
  }

  /** Two alarms with one key: after the other one came on, this one comes on unnoticed. */
  lemma ClashHidesEdge(d: string, n: string, e: string, m: string, severity: Severity) returns (polls: seq<Poll>)
    requires (e, m) != (d, n) && Key(e, m) == Key(d, n)
    ensures polls == [Poll(e, [Sample(m, severity, None, true)])] + [Poll(d, [Sample(n, severity, None, true)])]
    ensures KindsOf(Polled(map[], polls).1, d, n) == [] && EdgesOf(Acts(polls, d, n)) == [Set]
  {
    var a, b := Sample(m, severity, None, true), Sample(n, severity, None, true);
    SameDeviceKeys(d, m, n);
    var p, q := Poll(e, [a]), Poll(d, [b]);
    polls := [p] + [q];
    assert [] + [p] == [p];
    PolledNext(map[], [], p);
    PolledNext(map[], [p], q);
    DetectOne(map[], e, a);
    DetectOne(map[Key(e, m) := true], d, b);
    var l := Logged(e, Transition(m, severity, None, Set));
    assert Tagged(e, [l.transition]) == [l] && Tagged(d, []) == [];
    assert Polled(map[], polls).1 == [l];
    assert KindsOf([l], d, n) == [] by { assert [l][..0] == []; }
    ActsNext([], p, d, n);
    ActsNext([p], q, d, n);
    OneAct(a, n);
    OneAct(b, n);
    assert Acts(polls, d, n) == [true];
    assert [true][..0] == [];
  }

  /**
   Exactly for which configurations the transitions of an alarm can be relied on,
   whatever is observed: those in which no other alarm has its key.
   */
  lemma EdgesReliableIffNoClash(alarms: set<(string, string)>, d: string, n: string, severity: Severity)
    requires (d, n) in alarms
    ensures (forall polls: seq<Poll> | Within(polls, alarms) :: GivesEdges(map[], polls, d, n)) <==> !Clashes(alarms, d, n)
  {
    if Clashes(alarms, d, n) {
      var a :| a in alarms && a != (d, n) && Key(a.0, a.1) == Key(d, n);
      var polls := ClashHidesEdge(d, n, a.0, a.1, severity);
      assert Within(polls, alarms) && !GivesEdges(map[], polls, d, n);
    } else {
      forall polls: seq<Poll> | Within(polls, alarms) ensures GivesEdges(map[], polls, d, n) {
        NoClashIsOwn(polls, alarms, d, n);
        TransitionsAreEdges(map[], polls, d, n);
      }
    }
  }

  /** Resetting a device forgets its alarms and no others, as long as ids have no colon. */
  lemma ResetForgetsItsOwn(last: Memory, d: string, e: string, n: string)
    requires ColonFree(d) && ColonFree(e)
    ensures Get(AfterReset(last, d), Key(e, n)) == if e == d then None else Get(last, Key(e, n))
  {
    if OwnedBy(Key(e, n), d) {
      var rest := Key(e, n)[|d| + 1..];
      assert Key(e, n) == Key(d, rest);
      KeysDistinct(e, n, d, rest);
    }
  }

  /** A reset of `d` can never touch an alarm of `e`. */
  ghost predicate Spares(d: string, e: string) {
    forall last: Memory, n: string :: Get(AfterReset(last, d), Key(e, n)) == Get(last, Key(e, n))
  }

  lemma OwnedMeansNested(d: string, e: string, n: string)
    requires OwnedBy(Key(e, n), d)
    ensures Nested(d + [':'], e + [':'])
  {
    CommonExtension(d + [':'], Key(e, n)[|d| + 1..], e + [':'], n);
  }

  /** Exactly when, for any ids: neither id followed by a colon begins with the other followed by a colon. */
  lemma SparesIffNotNested(d: string, e: string)
    ensures Spares(d, e) <==> !Nested(d + [':'], e + [':'])
  {
    if Nested(d + [':'], e + [':']) {
      var s, n := Extend(d + [':'], e + [':']);
      var last: Memory := map[Key(e, n) := true];
      assert d + [':'] <= Key(e, n);
      assert Get(AfterReset(last, d), Key(e, n)) != Get(last, Key(e, n));
    } else {
      forall last: Memory, n: string ensures Get(AfterReset(last, d), Key(e, n)) == Get(last, Key(e, n)) {
        if OwnedBy(Key(e, n), d) { OwnedMeansNested(d, e, n); }
      }
    }
  }

  // ------------------------------------------------------- which readings matter

  /** An alarm is on for any reading of its name but the number 0; an active-low one, for a reading that is the number 0. */
  lemma AlarmOnIff(rule: AlarmRule, telemetry: seq<Reading>)
    ensures AlarmOn(rule, telemetry) <==>
            if rule.activeLow then Reading(rule.telemetry, Finite(0.0)) in telemetry
            else exists r :: r in telemetry && r.name == rule.telemetry && r.value != Finite(0.0)
  {
    if AlarmOn(rule, telemetry) {
      var i :| 0 <= i < |telemetry| && telemetry[i].name == rule.telemetry && Triggers(rule, telemetry[i].value);
      assert telemetry[i] in telemetry;
    }
    if exists r :: r in telemetry && r.name == rule.telemetry && Triggers(rule, r.value) {
      var r :| r in telemetry && r.name == rule.telemetry && Triggers(rule, r.value);
      var i :| 0 <= i < |telemetry| && telemetry[i] == r;
    }
    if rule.activeLow && Reading(rule.telemetry, Finite(0.0)) in telemetry {
      var i :| 0 <= i < |telemetry| && telemetry[i] == Reading(rule.telemetry, Finite(0.0));
      assert telemetry[i].name == rule.telemetry && Triggers(rule, telemetry[i].value);
    }
  }

  /** The sample that a rule with some reading of its name gives; a rule without one gives none. */
  lemma {:induction false} SamplesOfRules(rules: seq<AlarmRule>, telemetry: seq<Reading>, s: Sample)
    ensures s in Sampled(rules, telemetry) <==>
            exists rule :: rule in rules && (exists r :: r in telemetry && r.name == rule.telemetry)
              && s == Sample(rule.telemetry, rule.severity, rule.description, AlarmOn(rule, telemetry))
  {
    if rules != [] {
      var front, last := rules[..|rules| - 1], rules[|rules| - 1];
      assert rules == front + [last];
      SamplesOfRules(front, telemetry, s);
      if Reported(telemetry, last.telemetry) {
        var i :| 0 <= i < |telemetry| && telemetry[i].name == last.telemetry;
        assert telemetry[i] in telemetry;
      }
      if exists r :: r in telemetry && r.name == last.telemetry {
        var r :| r in telemetry && r.name == last.telemetry;
        var i :| 0 <= i < |telemetry| && telemetry[i] == r;
        assert Reported(telemetry, last.telemetry);
      }
    }
  }
}
