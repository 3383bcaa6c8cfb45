/**
 The store of latest telemetry values. Stale entries are purged from both indexes,
 yet no query can tell: answers are those of the full, never purged record.
 */
module CycleSnapshotStore {
  import opened Prelude

  datatype Value = Number(n: real) | Flag(b: bool) | Text(s: string)
  datatype Telemetry = Telemetry(name: string, value: Value, unit: string, canonical: Option<string>)
  datatype SnapshotValue = SnapshotValue(value: Value, unit: string, recordedAt: int)
  datatype DeviceValues = DeviceValues(byName: map<string, SnapshotValue>, byCanonical: map<string, SnapshotValue>)
  type Devices = map<string, DeviceValues>

  function Get<V>(m: map<string, V>, k: string): Option<V> { if k in m then Some(m[k]) else None }

  /** `CycleSnapshot.value`: by name first, then by canonical tag. */
  function Lookup(devices: Devices, deviceId: string, key: string): Option<SnapshotValue> {
    if deviceId !in devices then None
    else
      var device := devices[deviceId];
      match Get(device.byName, key)
      case Some(v) => Some(v)
      case None => Get(device.byCanonical, key)
  }

  function Tag(t: Telemetry): Option<string> {
    if t.canonical.Some? && |t.canonical.value| > 0 then t.canonical else None
  }

  function Entered(device: DeviceValues, t: Telemetry, now: int): DeviceValues {
    var entry := SnapshotValue(t.value, t.unit, now);
    DeviceValues(device.byName[t.name := entry],
                 if Tag(t).Some? then device.byCanonical[Tag(t).value := entry] else device.byCanonical)
  }

  function EnteredAll(device: DeviceValues, ts: seq<Telemetry>, now: int): DeviceValues {
    if ts == [] then device else Entered(EnteredAll(device, ts[..|ts| - 1], now), ts[|ts| - 1], now)
  }

  function Recorded(devices: Devices, deviceId: string, ts: seq<Telemetry>, now: int): Devices {
    devices[deviceId := EnteredAll(if deviceId in devices then devices[deviceId] else DeviceValues(map[], map[]), ts, now)]
  }

  predicate Fresh(at: int, now: int, maxAgeMs: int) { now - at <= maxAgeMs }

  function FreshOnly(m: map<string, SnapshotValue>, now: int, maxAgeMs: int): map<string, SnapshotValue> {
    map k | k in m && Fresh(m[k].recordedAt, now, maxAgeMs) :: m[k]
  }

  /** What `snapshot` leaves in the store; a device without fresh names goes away. */
  function Purged(devices: Devices, now: int, maxAgeMs: int): Devices {
    map d | d in devices && FreshOnly(devices[d].byName, now, maxAgeMs) != map[] ::
      DeviceValues(FreshOnly(devices[d].byName, now, maxAgeMs), FreshOnly(devices[d].byCanonical, now, maxAgeMs))
  }

  class Store {
    var devices: Devices
    const maxAgeMs: int

    constructor (maxAgeMs: int)
      ensures devices == map[] && this.maxAgeMs == maxAgeMs
    {
      devices := map[];
      this.maxAgeMs := maxAgeMs;
    }

    method Record(deviceId: string, telemetries: seq<Telemetry>, now: int)
      modifies this
      ensures devices == Recorded(old(devices), deviceId, telemetries, now)
    {
      if deviceId !in devices {
        devices := devices[deviceId := DeviceValues(map[], map[])];
      }
      var device := devices[deviceId];
      ghost var start, before := device, devices;
      for i := 0 to |telemetries|
        invariant devices == before && device == EnteredAll(start, telemetries[..i], now)
      {
        TakeNext(telemetries, i + 1);
        DropLast(telemetries[..i], telemetries[i]);
        var t := telemetries[i];
        var entry := SnapshotValue(t.value, t.unit, now);
        device := device.(byName := device.byName[t.name := entry]);
        if t.canonical.Some? && |t.canonical.value| > 0 {
          device := device.(byCanonical := device.byCanonical[t.canonical.value := entry]);
        }
      }
      assert telemetries[..|telemetries|] == telemetries;
      devices := devices[deviceId := device];
    }

    method Snapshot(now: int) returns (copy: Devices)
      modifies this
      ensures devices == copy == Purged(old(devices), now, maxAgeMs)
    {
      var todo := devices.Keys;
      while todo != {}
        invariant todo <= old(devices).Keys
        invariant forall d | d in todo :: d in devices && devices[d] == old(devices)[d]
        invariant forall d | d !in todo :: Get(devices, d) == Get(Purged(old(devices), now, maxAgeMs), d)
        decreases todo
      {
        var d :| d in todo;
        todo := todo - {d};
        var names := DropStale(devices[d].byName, now);
        var tags := DropStale(devices[d].byCanonical, now);
        devices := if names == map[] then devices - {d} else devices[d := DeviceValues(names, tags)];
      }
      assert forall d :: Get(devices, d) == Get(Purged(old(devices), now, maxAgeMs), d);
      SameMap(devices, Purged(old(devices), now, maxAgeMs));
      copy := devices;
    }

    method DropStale(m: map<string, SnapshotValue>, now: int) returns (r: map<string, SnapshotValue>)
      ensures r == FreshOnly(m, now, maxAgeMs)
    {
      r := m;
      var todo := m.Keys;
      while todo != {}
        invariant todo <= m.Keys
        invariant r == map k | k in m && (k in todo || Fresh(m[k].recordedAt, now, maxAgeMs)) :: m[k]
        decreases todo
      {
        var k :| k in todo;
        todo := todo - {k};
        if now - m[k].recordedAt > maxAgeMs { r := r - {k}; }
      }
    }
  }

  lemma SameMap<V>(m: map<string, V>, w: map<string, V>)
    requires forall k :: Get(m, k) == Get(w, k)
    ensures m == w
  {
    forall k ensures k in m <==> k in w { assert Get(m, k) == Get(w, k); }
    forall k | k in m ensures m[k] == w[k] { assert Get(m, k) == Get(w, k); }
  }

  // ------------------------------------------- the record that is never purged

  datatype Sample = Sample(deviceId: string, t: Telemetry, at: int)

  function Taken(s: Sample): SnapshotValue { SnapshotValue(s.t.value, s.t.unit, s.at) }

  /** Latest sample of the device with this name. */
  function LatestNamed(log: seq<Sample>, d: string, name: string): Option<SnapshotValue> {
    if log == [] then None
    else
      var s := log[|log| - 1];
      if s.deviceId == d && s.t.name == name then Some(Taken(s)) else LatestNamed(log[..|log| - 1], d, name)
  }

  /** Latest sample of the device with this canonical tag. */
  function LatestTagged(log: seq<Sample>, d: string, tag: string): Option<SnapshotValue> {
    if log == [] then None
    else
      var s := log[|log| - 1];
      if s.deviceId == d && Tag(s.t) == Some(tag) then Some(Taken(s)) else LatestTagged(log[..|log| - 1], d, tag)
  }

  function IfFresh(v: Option<SnapshotValue>, now: int, maxAgeMs: int): Option<SnapshotValue> {
    if v.Some? && Fresh(v.value.recordedAt, now, maxAgeMs) then v else None
  }

  /** The answer owed to a query: the latest by name if fresh, else the latest by tag if fresh. */
  function Answer(log: seq<Sample>, now: int, maxAgeMs: int, d: string, key: string): Option<SnapshotValue> {
    match IfFresh(LatestNamed(log, d, key), now, maxAgeMs)
    case Some(v) => Some(v)
    case None => IfFresh(LatestTagged(log, d, key), now, maxAgeMs)
  }

  /** `evaluated` is the second reading of the clock in a cycle, by the evaluator that gets the copy. */
  datatype Action =
    | Record(deviceId: string, telemetries: seq<Telemetry>, at: int)
    | Snapshot(at: int, evaluated: int)

  /** The store after a run. */
  function Stored(maxAgeMs: int, actions: seq<Action>): Devices {
    if actions == [] then map[]
    else
      var before := Stored(maxAgeMs, actions[..|actions| - 1]);
      match actions[|actions| - 1]
      case Record(d, ts, at) => Recorded(before, d, ts, at)
      case Snapshot(at, _) => Purged(before, at, maxAgeMs)
  }

  function Samples(d: string, ts: seq<Telemetry>, at: int): seq<Sample> {
    seq(|ts|, i requires 0 <= i < |ts| => Sample(d, ts[i], at))
  }

  /** Everything recorded in a run. */
  function FullLog(actions: seq<Action>): seq<Sample> {
    if actions == [] then []
    else
      FullLog(actions[..|actions| - 1]) +
      match actions[|actions| - 1]
      case Record(d, ts, at) => Samples(d, ts, at)
      case Snapshot(_, _) => []
  }

  /** The last reading of the clock in an action. */
  function Over(a: Action): int {
    if a.Snapshot? then a.evaluated else a.at
  }

  predicate ClockRuns(actions: seq<Action>, now: int) {
    (forall i | 0 <= i < |actions| :: actions[i].at <= Over(actions[i]) <= now)
    && (forall i, j | 0 <= i < j < |actions| :: Over(actions[i]) <= actions[j].at)
  }

  // ------------------------------------------------ purging changes no answer

  function Named(devices: Devices, d: string, k: string): Option<SnapshotValue> {
    if d in devices then Get(devices[d].byName, k) else None
  }

  function Tagged(devices: Devices, d: string, k: string): Option<SnapshotValue> {
    if d in devices then Get(devices[d].byCanonical, k) else None
  }

  /** The stored entry is the latest one, or that one is gone because it went stale. */
  ghost predicate Tracks(stored: Option<SnapshotValue>, latest: Option<SnapshotValue>, now: int, maxAgeMs: int) {
    stored == latest || (stored == None && !Fresh(latest.value.recordedAt, now, maxAgeMs))
  }

  /** A tagged entry never outlives all names of its device. */
  ghost predicate Covered(devices: Devices, d: string, tag: string) {
    Tagged(devices, d, tag).Some? ==>
    exists k :: Named(devices, d, k).Some?
                && Named(devices, d, k).value.recordedAt >= Tagged(devices, d, tag).value.recordedAt
  }

  ghost predicate Faithful(devices: Devices, log: seq<Sample>, now: int, maxAgeMs: int) {
    && (forall i | 0 <= i < |log| :: log[i].at <= now)
    && (forall d, k :: Tracks(Named(devices, d, k), LatestNamed(log, d, k), now, maxAgeMs))
    && (forall d, k :: Tracks(Tagged(devices, d, k), LatestTagged(log, d, k), now, maxAgeMs))
    && (forall d, k :: Covered(devices, d, k))
  }

  lemma {:induction false} LatestIsLogged(log: seq<Sample>, d: string, k: string, now: int)
    requires forall i | 0 <= i < |log| :: log[i].at <= now
    ensures LatestNamed(log, d, k).Some? ==> LatestNamed(log, d, k).value.recordedAt <= now
    ensures LatestTagged(log, d, k).Some? ==> LatestTagged(log, d, k).value.recordedAt <= now
  {
    if log != [] { LatestIsLogged(log[..|log| - 1], d, k, now); }
  }

  lemma TimePasses(devices: Devices, log: seq<Sample>, now: int, later: int, maxAgeMs: int)
    requires Faithful(devices, log, now, maxAgeMs) && now <= later
    ensures Faithful(devices, log, later, maxAgeMs)
  {
    forall d, k
      ensures Tracks(Named(devices, d, k), LatestNamed(log, d, k), later, maxAgeMs)
      ensures Tracks(Tagged(devices, d, k), LatestTagged(log, d, k), later, maxAgeMs)
    {
      assert Tracks(Named(devices, d, k), LatestNamed(log, d, k), now, maxAgeMs);
      assert Tracks(Tagged(devices, d, k), LatestTagged(log, d, k), now, maxAgeMs);
    }
  }

  lemma OneSampleEntered(devices: Devices, log: seq<Sample>, s: Sample, maxAgeMs: int)
    requires Faithful(devices, log, s.at, maxAgeMs) && s.deviceId in devices
    ensures Faithful(devices[s.deviceId := Entered(devices[s.deviceId], s.t, s.at)], log + [s], s.at, maxAgeMs)
  {
    var after := devices[s.deviceId := Entered(devices[s.deviceId], s.t, s.at)];
    DropLast(log, s);
    forall d, k
      ensures Tracks(Named(after, d, k), LatestNamed(log + [s], d, k), s.at, maxAgeMs)
      ensures Tracks(Tagged(after, d, k), LatestTagged(log + [s], d, k), s.at, maxAgeMs)
      ensures Covered(after, d, k)
    {
      assert Tracks(Named(devices, d, k), LatestNamed(log, d, k), s.at, maxAgeMs);
      assert Tracks(Tagged(devices, d, k), LatestTagged(log, d, k), s.at, maxAgeMs);
      assert Covered(devices, d, k);
      EnteredCovers(devices, log, s, maxAgeMs, d, k);
    }
  }

  lemma EnteredCovers(devices: Devices, log: seq<Sample>, s: Sample, maxAgeMs: int, d: string, k: string)
    requires Faithful(devices, log, s.at, maxAgeMs) && s.deviceId in devices
    ensures Covered(devices[s.deviceId := Entered(devices[s.deviceId], s.t, s.at)], d, k)
  {
    var after := devices[s.deviceId := Entered(devices[s.deviceId], s.t, s.at)];
    assert Covered(devices, d, k);
    if Tagged(after, d, k).Some? {
      if d == s.deviceId {
        assert Named(after, d, s.t.name) == Some(Taken(s));
        if Tagged(after, d, k) == Tagged(devices, d, k) {
          assert Tracks(Tagged(devices, d, k), LatestTagged(log, d, k), s.at, maxAgeMs);
          LatestIsLogged(log, d, k, s.at);
        }
      } else {
        var n :| Named(devices, d, n).Some?
                 && Named(devices, d, n).value.recordedAt >= Tagged(devices, d, k).value.recordedAt;
        assert Named(after, d, n) == Named(devices, d, n);
      }
    }
  }

  lemma {:induction false} AllSamplesEntered(devices: Devices, log: seq<Sample>, d: string, ts: seq<Telemetry>, at: int, maxAgeMs: int)
    requires Faithful(devices, log, at, maxAgeMs)
    ensures Faithful(Recorded(devices, d, ts, at), log + Samples(d, ts, at), at, maxAgeMs)
    decreases |ts|
  {
    if ts == [] {
      var after := Recorded(devices, d, ts, at);
      assert log + Samples(d, ts, at) == log;
      forall x, k
        ensures Named(after, x, k) == Named(devices, x, k) && Tagged(after, x, k) == Tagged(devices, x, k)
        ensures Tracks(Named(after, x, k), LatestNamed(log, x, k), at, maxAgeMs)
        ensures Tracks(Tagged(after, x, k), LatestTagged(log, x, k), at, maxAgeMs)
      {
        assert Tracks(Named(devices, x, k), LatestNamed(log, x, k), at, maxAgeMs);
        assert Tracks(Tagged(devices, x, k), LatestTagged(log, x, k), at, maxAgeMs);
      }
      forall x, k ensures Covered(after, x, k) {
        assert Covered(devices, x, k);
        if Tagged(after, x, k).Some? {
          var n :| Named(devices, x, n).Some?
                   && Named(devices, x, n).value.recordedAt >= Tagged(devices, x, k).value.recordedAt;
          assert Named(after, x, n) == Named(devices, x, n);
        }
      }
    } else {
      var front, last := ts[..|ts| - 1], ts[|ts| - 1];
      AllSamplesEntered(devices, log, d, front, at, maxAgeMs);
      var mid := Recorded(devices, d, front, at);
      OneSampleEntered(mid, log + Samples(d, front, at), Sample(d, last, at), maxAgeMs);
      assert Samples(d, ts, at) == Samples(d, front, at) + [Sample(d, last, at)];
      Assoc(log, Samples(d, front, at), [Sample(d, last, at)]);
      assert Recorded(devices, d, ts, at) == mid[d := Entered(mid[d], last, at)];
    }
  }

  /** A fresh entry, by name or by tag, is still there after the purge: its device keeps a fresh name. */
  lemma PurgeKeepsFresh(devices: Devices, log: seq<Sample>, now: int, maxAgeMs: int, d: string, k: string)
    requires Faithful(devices, log, now, maxAgeMs)
    ensures Named(Purged(devices, now, maxAgeMs), d, k) == IfFresh(LatestNamed(log, d, k), now, maxAgeMs)
    ensures Tagged(Purged(devices, now, maxAgeMs), d, k) == IfFresh(LatestTagged(log, d, k), now, maxAgeMs)
  {
    assert Tracks(Named(devices, d, k), LatestNamed(log, d, k), now, maxAgeMs);
    assert Tracks(Tagged(devices, d, k), LatestTagged(log, d, k), now, maxAgeMs);
    assert Covered(devices, d, k);
    if d in devices {
      var names := FreshOnly(devices[d].byName, now, maxAgeMs);
      if IfFresh(Named(devices, d, k), now, maxAgeMs).Some? { assert k in names; }
      if IfFresh(Tagged(devices, d, k), now, maxAgeMs).Some? {
        var n :| Named(devices, d, n).Some?
                 && Named(devices, d, n).value.recordedAt >= Tagged(devices, d, k).value.recordedAt;
        assert n in names;
      }
    }
  }

  lemma PurgeKeepsFaithful(devices: Devices, log: seq<Sample>, now: int, maxAgeMs: int)
    requires Faithful(devices, log, now, maxAgeMs)
    ensures Faithful(Purged(devices, now, maxAgeMs), log, now, maxAgeMs)
  {
    var after := Purged(devices, now, maxAgeMs);
    forall d, k
      ensures Tracks(Named(after, d, k), LatestNamed(log, d, k), now, maxAgeMs)
      ensures Tracks(Tagged(after, d, k), LatestTagged(log, d, k), now, maxAgeMs)
      ensures Covered(after, d, k)
    {
      PurgeKeepsFresh(devices, log, now, maxAgeMs, d, k);
      if Tagged(after, d, k).Some? {
        assert Covered(devices, d, k);
        var n :| Named(devices, d, n).Some?
                 && Named(devices, d, n).value.recordedAt >= Tagged(devices, d, k).value.recordedAt;
        assert Named(after, d, n) == Named(devices, d, n);
      }
    }
  }

  lemma {:induction false} StoreStaysFaithful(maxAgeMs: int, actions: seq<Action>, now: int)
    requires ClockRuns(actions, now)
    ensures Faithful(Stored(maxAgeMs, actions), FullLog(actions), now, maxAgeMs)
  {
    if actions != [] {
      var front, a := actions[..|actions| - 1], actions[|actions| - 1];
      assert forall i | 0 <= i < |front| :: front[i] == actions[i];
      StoreStaysFaithful(maxAgeMs, front, a.at);
      match a
      case Record(d, ts, at) => AllSamplesEntered(Stored(maxAgeMs, front), FullLog(front), d, ts, at, maxAgeMs);
      case Snapshot(at, _) =>
        PurgeKeepsFaithful(Stored(maxAgeMs, front), FullLog(front), at, maxAgeMs);
        assert FullLog(front) + [] == FullLog(front);
      TimePasses(Stored(maxAgeMs, actions), FullLog(actions), a.at, now, maxAgeMs);
    }
  }

  /**
   Main result: after any run of records and snapshots under a non-decreasing clock,
   a snapshot answers every query as the full record would, although the store keeps
   only what it has not purged; and it lists exactly the devices with a fresh name.
   */
  lemma PurgingChangesNoAnswer(maxAgeMs: int, actions: seq<Action>, now: int)
    requires ClockRuns(actions, now)
    ensures var copy := Purged(Stored(maxAgeMs, actions), now, maxAgeMs);
            && (forall d, k :: Lookup(copy, d, k) == Answer(FullLog(actions), now, maxAgeMs, d, k))
            && (forall d :: d in copy <==> HasFreshName(FullLog(actions), d, now, maxAgeMs))
  {
    var devices, log := Stored(maxAgeMs, actions), FullLog(actions);
    StoreStaysFaithful(maxAgeMs, actions, now);
    forall d, k ensures Lookup(Purged(devices, now, maxAgeMs), d, k) == Answer(log, now, maxAgeMs, d, k) {
      PurgeKeepsFresh(devices, log, now, maxAgeMs, d, k);
    }
    forall d ensures d in Purged(devices, now, maxAgeMs) <==> HasFreshName(log, d, now, maxAgeMs) {
      ListedIffFresh(devices, log, now, maxAgeMs, d);
    }
  }

  ghost predicate HasFreshName(log: seq<Sample>, d: string, now: int, maxAgeMs: int) {
    exists k :: IfFresh(LatestNamed(log, d, k), now, maxAgeMs).Some?
  }

  lemma ListedIffFresh(devices: Devices, log: seq<Sample>, now: int, maxAgeMs: int, d: string)
    requires Faithful(devices, log, now, maxAgeMs)
    ensures d in Purged(devices, now, maxAgeMs) <==> HasFreshName(log, d, now, maxAgeMs)
  {
    var copy := Purged(devices, now, maxAgeMs);
    if d in copy {
      var k :| k in copy[d].byName;
      PurgeKeepsFresh(devices, log, now, maxAgeMs, d, k);
      assert IfFresh(LatestNamed(log, d, k), now, maxAgeMs).Some?;
    }
    if HasFreshName(log, d, now, maxAgeMs) {
      var k :| IfFresh(LatestNamed(log, d, k), now, maxAgeMs).Some?;
      PurgeKeepsFresh(devices, log, now, maxAgeMs, d, k);
    }
  }

  /** No sample after the `i`-th is of its device and name. */
  ghost predicate LastOfName(log: seq<Sample>, i: nat) {
    i < |log| && forall k | i < k < |log| :: log[k].deviceId != log[i].deviceId || log[k].t.name != log[i].t.name
  }

  lemma {:induction false} LastIsLatest(log: seq<Sample>, i: nat)
    requires LastOfName(log, i)
    ensures LatestNamed(log, log[i].deviceId, log[i].t.name) == Some(Taken(log[i]))
  {
    if i < |log| - 1 {
      assert log[|log| - 1].deviceId != log[i].deviceId || log[|log| - 1].t.name != log[i].t.name;
      assert forall k | i < k < |log| - 1 :: log[..|log| - 1][k] == log[k];
      LastIsLatest(log[..|log| - 1], i);
    }
  }

  /** The last sample of a device and name is what a snapshot answers as long as it is at most `maxAgeMs` old. */
  lemma FreshSampleAnswers(maxAgeMs: int, actions: seq<Action>, now: int, i: nat)
    requires ClockRuns(actions, now) && LastOfName(FullLog(actions), i) && now - FullLog(actions)[i].at <= maxAgeMs
    ensures var s := FullLog(actions)[i];
      Lookup(Purged(Stored(maxAgeMs, actions), now, maxAgeMs), s.deviceId, s.t.name)
      == Some(SnapshotValue(s.t.value, s.t.unit, s.at))
  {
    LastIsLatest(FullLog(actions), i);
    PurgingChangesNoAnswer(maxAgeMs, actions, now);
  }

  /** And no answer is older than that. */
  lemma NoAnswerIsStale(maxAgeMs: int, actions: seq<Action>, now: int, d: string, k: string)
    requires ClockRuns(actions, now)
    ensures var v := Lookup(Purged(Stored(maxAgeMs, actions), now, maxAgeMs), d, k);
      v.Some? ==> now - v.value.recordedAt <= maxAgeMs
  {
    PurgingChangesNoAnswer(maxAgeMs, actions, now);
  }

  /** No sample after the `i`-th carries its tag for its device. */
  ghost predicate LastOfTag(log: seq<Sample>, i: nat) {
    && i < |log| && log[i].t.canonical.Some? && log[i].t.canonical.value != ""
    && forall k | i < k < |log| :: log[k].deviceId != log[i].deviceId || log[k].t.canonical != log[i].t.canonical
  }

  lemma {:induction false} LastIsLatestTagged(log: seq<Sample>, i: nat)
    requires LastOfTag(log, i)
    ensures LatestTagged(log, log[i].deviceId, log[i].t.canonical.value) == Some(Taken(log[i]))
  {
    if i < |log| - 1 {
      assert log[|log| - 1].deviceId != log[i].deviceId || log[|log| - 1].t.canonical != log[i].t.canonical;
      assert forall k | i < k < |log| - 1 :: log[..|log| - 1][k] == log[k];
      LastIsLatestTagged(log[..|log| - 1], i);
    }
  }

  lemma {:induction false} NoEmptyTag(log: seq<Sample>, d: string)
    ensures LatestTagged(log, d, "") == None
  {
    if log != [] { NoEmptyTag(log[..|log| - 1], d); }
  }

  /** A tag answers where no fresh name does; the empty tag never does. */
  lemma TagAnswers(maxAgeMs: int, actions: seq<Action>, now: int, i: nat, d: string)
    requires ClockRuns(actions, now) && LastOfTag(FullLog(actions), i) && now - FullLog(actions)[i].at <= maxAgeMs
    ensures var copy, s := Purged(Stored(maxAgeMs, actions), now, maxAgeMs), FullLog(actions)[i];
      Named(copy, s.deviceId, s.t.canonical.value) == None ==>
        Lookup(copy, s.deviceId, s.t.canonical.value) == Some(SnapshotValue(s.t.value, s.t.unit, s.at))
    ensures Tagged(Purged(Stored(maxAgeMs, actions), now, maxAgeMs), d, "") == None
  {
    var devices, log := Stored(maxAgeMs, actions), FullLog(actions);
    var s := log[i];
    LastIsLatestTagged(log, i);
    NoEmptyTag(log, d);
    StoreStaysFaithful(maxAgeMs, actions, now);
    PurgeKeepsFresh(devices, log, now, maxAgeMs, s.deviceId, s.t.canonical.value);
    PurgeKeepsFresh(devices, log, now, maxAgeMs, d, "");
  }
}
