/**
 The write filter: which samples of a poll are worth a write job. Publishing a poll
 selects first and marks later, after the job was enqueued; publications of one
 device may overlap.
 */
module TelemetryWriteFilter {
  import opened Prelude

  /** `value` is present for finite numbers only. */
  datatype Telemetry = Telemetry(name: string, value: Option<real>)
  datatype Policy = Policy(deadband: real, maxStaleMs: int)
  datatype WrittenState = WrittenState(value: real, at: int)

  type DeviceState = map<string, WrittenState>
  type FilterState = map<string, DeviceState>
  type Policies = map<string, Policy>

  function StateOf(state: FilterState, deviceId: string): DeviceState {
    if deviceId in state then state[deviceId] else map[]
  }

  /** Worth writing: no policy, nothing written yet, not numeric, moved by the deadband, or stale. */
  predicate Due(written: DeviceState, t: Telemetry, policies: Policies, now: int) {
    t.name in policies && t.name in written && t.value.Some? ==>
      Abs(t.value.value - written[t.name].value) >= policies[t.name].deadband
      || now - written[t.name].at >= policies[t.name].maxStaleMs
  }

  function DueOnly(written: DeviceState, ts: seq<Telemetry>, policies: Policies, now: int): seq<Telemetry> {
    if ts == [] then []
    else DueOnly(written, ts[..|ts| - 1], policies, now)
         + (if Due(written, ts[|ts| - 1], policies, now) then [ts[|ts| - 1]] else [])
  }

  function Marked(written: DeviceState, ts: seq<Telemetry>, now: int): DeviceState {
    if ts == [] then written
    else
      var before, t := Marked(written, ts[..|ts| - 1], now), ts[|ts| - 1];
      if t.value.Some? then before[t.name := WrittenState(t.value.value, now)] else before
  }

  class Filter {
    var state: FilterState

    constructor ()
      ensures state == map[]
    {
      state := map[];
    }

    /** A query: the state stays as it is. */
    method Select(deviceId: string, telemetries: seq<Telemetry>, policies: Policies, now: int) returns (out: seq<Telemetry>)
      ensures out == DueOnly(StateOf(state, deviceId), telemetries, policies, now)
    {
      var deviceState := StateOf(state, deviceId);
      out := [];
      for i := 0 to |telemetries|
        invariant out == DueOnly(deviceState, telemetries[..i], policies, now)
      {
        TakeNext(telemetries, i + 1);
        DropLast(telemetries[..i], telemetries[i]);
        var t := telemetries[i];
        if t.name !in policies {
          out := out + [t];
          continue;
        }
        if t.name !in deviceState || t.value.None? {
          out := out + [t];
          continue;
        }
        var policy, last := policies[t.name], deviceState[t.name];
        if Abs(t.value.value - last.value) >= policy.deadband {
          out := out + [t];
          continue;
        }
        if now - last.at >= policy.maxStaleMs {
          out := out + [t];
        }
      }
      assert telemetries[..|telemetries|] == telemetries;
    }

    method MarkWritten(deviceId: string, telemetries: seq<Telemetry>, now: int)
      modifies this
      ensures state == old(state)[deviceId := Marked(StateOf(old(state), deviceId), telemetries, now)]
    {
      var deviceState := StateOf(state, deviceId);
      ghost var start := deviceState;
      for i := 0 to |telemetries|
        invariant state == old(state) && deviceState == Marked(start, telemetries[..i], now)
      {
        TakeNext(telemetries, i + 1);
        DropLast(telemetries[..i], telemetries[i]);
        var t := telemetries[i];
        if t.value.None? { continue; }
        deviceState := deviceState[t.name := WrittenState(t.value.value, now)];
      }
      assert telemetries[..|telemetries|] == telemetries;
      state := state[deviceId := deviceState];
    }
  }

  // ------------------------------------------------------- overlapping publishes

  /** Which of the jobs of a publication the queue takes. */
  datatype Jobs = Jobs(management: bool, broadcast: bool, write: bool)

  /** How the jobs settle, in the order they are added: the write job comes last, and only if there is something to write. */
  function Settled(subset: seq<Telemetry>, jobs: Jobs): seq<bool> {
    [jobs.management, jobs.broadcast] + (if subset != [] then [jobs.write] else [])
  }

  /** What the scheduler reports to the publisher. */
  predicate WriteEnqueued(data: seq<Telemetry>, subset: seq<Telemetry>, jobs: Jobs) {
    data != [] && subset != [] && Settled(subset, jobs)[2]
  }

  /** A publication selects at `Begin`; at `End` all its jobs have settled. */
  datatype Action =
    | Begin(id: nat, deviceId: string, telemetries: seq<Telemetry>, now: int)
    | End(id: nat, jobs: Jobs, now: int)

  datatype Publication = Publication(deviceId: string, data: seq<Telemetry>, subset: seq<Telemetry>)

  /** A write job that was really enqueued, and when the filter took note. */
  datatype Enqueued = Enqueued(deviceId: string, subset: seq<Telemetry>, at: int)

  datatype State = State(filter: FilterState, open: map<nat, Publication>, enqueued: seq<Enqueued>)

  function Step(policies: map<string, Policies>, s: State, a: Action): State {
    match a
    case Begin(id, d, ts, now) =>
      if id in s.open then s
      else s.(open := s.open[id := Publication(d, ts, DueOnly(StateOf(s.filter, d), ts, PoliciesOf(policies, d), now))])
    case End(id, jobs, now) =>
      if id !in s.open then s
      else
        var p := s.open[id];
        var closed := s.(open := s.open - {id});
        if WriteEnqueued(p.data, p.subset, jobs) then
          closed.(filter := s.filter[p.deviceId := Marked(StateOf(s.filter, p.deviceId), p.subset, now)],
                  enqueued := s.enqueued + [Enqueued(p.deviceId, p.subset, now)])
        else closed
  }

  function PoliciesOf(policies: map<string, Policies>, deviceId: string): Policies {
    if deviceId in policies then policies[deviceId] else map[]
  }

  function Run(policies: map<string, Policies>, actions: seq<Action>): State {
    if actions == [] then State(map[], map[], [])
    else Step(policies, Run(policies, actions[..|actions| - 1]), actions[|actions| - 1])
  }

  /**
   The reference values move exactly when the publication's write job got through,
   whatever became of its other jobs; then the job carried the samples selected.
   */
  lemma {:induction false} OnlyTheWriteJobCounts(policies: map<string, Policies>, actions: seq<Action>, id: nat, jobs: Jobs, now: int)
    requires id in Run(policies, actions).open
    ensures var s := Run(policies, actions);
            var p, t := s.open[id], Step(policies, s, End(id, jobs, now));
            && (p.subset != [] && jobs.write ==>
                  && t.enqueued == s.enqueued + [Enqueued(p.deviceId, p.subset, now)]
                  && StateOf(t.filter, p.deviceId) == Marked(StateOf(s.filter, p.deviceId), p.subset, now))
            && (p.subset == [] || !jobs.write ==> t.enqueued == s.enqueued && t.filter == s.filter)
  {
    SelectedFromData(policies, actions, id);
  }

  lemma {:induction false} SelectedFromData(policies: map<string, Policies>, actions: seq<Action>, id: nat)
    requires id in Run(policies, actions).open
    ensures var p := Run(policies, actions).open[id]; p.data == [] ==> p.subset == []
  {
    var front := actions[..|actions| - 1];
    if id in Run(policies, front).open { SelectedFromData(policies, front, id); }
  }

  /** The enqueued job `e` carried this value of this name of this device. */
  predicate Carried(e: Enqueued, d: string, name: string, w: WrittenState) {
    e.deviceId == d && e.at == w.at && Telemetry(name, Some(w.value)) in e.subset
  }

  ghost predicate Backed(s: State) {
    forall d, name | d in s.filter && name in s.filter[d] ::
      exists e :: e in s.enqueued && Carried(e, d, name, s.filter[d][name])
  }

  lemma {:induction false} MarkedIsCarried(written: DeviceState, ts: seq<Telemetry>, now: int, name: string)
    requires name in Marked(written, ts, now)
    ensures (name in written && Marked(written, ts, now)[name] == written[name])
            || (Marked(written, ts, now)[name].at == now
                && Telemetry(name, Some(Marked(written, ts, now)[name].value)) in ts)
  {
    if ts != [] {
      var t := ts[|ts| - 1];
      if !(t.value.Some? && t.name == name) { MarkedIsCarried(written, ts[..|ts| - 1], now, name); }
      assert ts == ts[..|ts| - 1] + [t];
    }
  }

  lemma StepKeepsBacked(policies: map<string, Policies>, s: State, a: Action)
    requires Backed(s)
    ensures Backed(Step(policies, s, a))
  {
    var t := Step(policies, s, a);
    forall d, name | d in t.filter && name in t.filter[d]
      ensures exists e :: e in t.enqueued && Carried(e, d, name, t.filter[d][name])
    {
      if a.End? && a.id in s.open && s.open[a.id].deviceId == d && t.filter != s.filter {
        MarkedIsCarried(StateOf(s.filter, d), s.open[a.id].subset, a.now, name);
        var last := t.enqueued[|t.enqueued| - 1];
        if !Carried(last, d, name, t.filter[d][name]) {
          var e :| e in s.enqueued && Carried(e, d, name, s.filter[d][name]);
          assert e in t.enqueued;
        }
      } else {
        var e :| e in s.enqueued && Carried(e, d, name, s.filter[d][name]);
        assert e in t.enqueued;
      }
    }
  }

  lemma {:induction false} StateIsBacked(policies: map<string, Policies>, actions: seq<Action>)
    ensures Backed(Run(policies, actions))
  {
    if actions != [] {
      StateIsBacked(policies, actions[..|actions| - 1]);
      StepKeepsBacked(policies, Run(policies, actions[..|actions| - 1]), actions[|actions| - 1]);
    }
  }

  /**
   Main result: on every interleaving of publications, successful or refused, a
   sample that is held back differs by less than the deadband from a value of the
   same name that really was enqueued, less than `maxStaleMs` ago.
   */
  lemma HeldBackIsClose(policies: map<string, Policies>, actions: seq<Action>, d: string, t: Telemetry, now: int)
    requires !Due(StateOf(Run(policies, actions).filter, d), t, PoliciesOf(policies, d), now)
    ensures t.name in PoliciesOf(policies, d) && t.value.Some?
    ensures var p := PoliciesOf(policies, d)[t.name];
            exists e, v :: e in Run(policies, actions).enqueued && IsClose(e, d, t, p, v, now)
  {
    var s := Run(policies, actions);
    StateIsBacked(policies, actions);
    var w := s.filter[d][t.name];
    var e :| e in s.enqueued && Carried(e, d, t.name, w);
    assert IsClose(e, d, t, PoliciesOf(policies, d)[t.name], w.value, now);
  }

  predicate IsClose(e: Enqueued, d: string, t: Telemetry, p: Policy, v: real, now: int)
    requires t.value.Some?
  {
    && e.deviceId == d && Telemetry(t.name, Some(v)) in e.subset
    && Abs(t.value.value - v) < p.deadband && now - e.at < p.maxStaleMs
  }

  /** What a publication leaves out is what is not due, and the rest keeps its order. */
  lemma {:induction false} SelectionIsDue(written: DeviceState, ts: seq<Telemetry>, policies: Policies, now: int, t: Telemetry)
    ensures t in DueOnly(written, ts, policies, now) <==> t in ts && Due(written, t, policies, now)
    ensures multiset(DueOnly(written, ts, policies, now))[t] == if Due(written, t, policies, now) then multiset(ts)[t] else 0
  {
    SelectionCounts(written, ts, policies, now, t);
    assert t in DueOnly(written, ts, policies, now) <==> multiset(DueOnly(written, ts, policies, now))[t] > 0;
    assert t in ts <==> multiset(ts)[t] > 0;
  }

  lemma CountNext(s: seq<Telemetry>, x: Telemetry, t: Telemetry)
    ensures multiset(s + [x])[t] == multiset(s)[t] + (if x == t then 1 else 0)
  {
  }

  lemma SelectionNext(written: DeviceState, front: seq<Telemetry>, last: Telemetry, policies: Policies, now: int)
    ensures DueOnly(written, front + [last], policies, now) ==
            if Due(written, last, policies, now) then DueOnly(written, front, policies, now) + [last]
            else DueOnly(written, front, policies, now)
  {
    hide Due;
    DropLast(front, last);
  }

  lemma {:induction false} SelectionCounts(written: DeviceState, ts: seq<Telemetry>, policies: Policies, now: int, t: Telemetry)
    ensures multiset(DueOnly(written, ts, policies, now))[t] == if Due(written, t, policies, now) then multiset(ts)[t] else 0
  {
    hide Due, DueOnly;
    if ts == [] {
      SelectionOfNone(written, policies, now);
    } else {
      var front, last := ts[..|ts| - 1], ts[|ts| - 1];
      SelectionCounts(written, front, policies, now, t);
      assert ts == front + [last];
      SelectionNext(written, front, last, policies, now);
      CountNext(front, last, t);
      CountNext(DueOnly(written, front, policies, now), last, t);
    }
  }

  lemma SelectionOfNone(written: DeviceState, policies: Policies, now: int)
    ensures DueOnly(written, [], policies, now) == []
  {
  }

  /** No publication of the device goes through during these steps. */
  predicate NothingEnqueued(policies: map<string, Policies>, s: State, actions: seq<Action>, d: string) {
    actions == []
    || (NothingEnqueued(policies, s, actions[..|actions| - 1], d)
        && var t := RunFrom(policies, s, actions[..|actions| - 1]);
           var a := actions[|actions| - 1];
           a.End? && a.jobs.write && a.id in t.open ==> t.open[a.id].deviceId != d || t.open[a.id].subset == [])
  }

  function RunFrom(policies: map<string, Policies>, s: State, actions: seq<Action>): State {
    if actions == [] then s
    else Step(policies, RunFrom(policies, s, actions[..|actions| - 1]), actions[|actions| - 1])
  }

  /** A due sample stays due, at the next poll and later, until some write job of its device is enqueued. */
  lemma {:induction false} RefusedStaysDue(
    policies: map<string, Policies>, s: State, actions: seq<Action>, d: string, t: Telemetry, now: int, later: int)
    requires NothingEnqueued(policies, s, actions, d) && now <= later
    requires Due(StateOf(s.filter, d), t, PoliciesOf(policies, d), now)
    ensures Due(StateOf(RunFrom(policies, s, actions).filter, d), t, PoliciesOf(policies, d), later)
    ensures StateOf(RunFrom(policies, s, actions).filter, d) == StateOf(s.filter, d)
  {
    if actions != [] {
      RefusedStaysDue(policies, s, actions[..|actions| - 1], d, t, now, later);
    }
  }

  /** The last numeric value of a name among the samples. */
  function LastValue(ts: seq<Telemetry>, name: string): Option<real> {
    if ts == [] then None
    else
      var t := ts[|ts| - 1];
      if t.name == name && t.value.Some? then t.value else LastValue(ts[..|ts| - 1], name)
  }

  /** After a job was enqueued, a sample is due exactly when it moved by the deadband from what the job carried, or went stale. */
  lemma {:induction false} DueAfterMark(written: DeviceState, ts: seq<Telemetry>, at: int, t: Telemetry, policies: Policies, now: int)
    requires t.name in policies && t.value.Some? && LastValue(ts, t.name).Some?
    ensures Due(Marked(written, ts, at), t, policies, now) <==>
            Abs(t.value.value - LastValue(ts, t.name).value) >= policies[t.name].deadband
            || now - at >= policies[t.name].maxStaleMs
  {
    var u := ts[|ts| - 1];
    if !(u.name == t.name && u.value.Some?) {
      DueAfterMark(written, ts[..|ts| - 1], at, t, policies, now);
    }
  }

  /** The selection keeps the order of the samples: what is selected of two stretches is selected of each, one after the other. */
  lemma {:induction false} SelectionJoins(written: DeviceState, a: seq<Telemetry>, b: seq<Telemetry>, policies: Policies, now: int)
    ensures DueOnly(written, a + b, policies, now) == DueOnly(written, a, policies, now) + DueOnly(written, b, policies, now)
  {
    if b == [] {
      assert a + b == a;
    } else {
      AppendedFront(a, b);
      SelectionJoins(written, a, b[..|b| - 1], policies, now);
    }
  }
}
