/** The `device_alarms` table: one row per device and alarm, changed by four statements. */
module AlarmStateRepository {
  import opened Prelude
  import opened AlarmTransitionDetector

  datatype Row = Row(
    severity: Severity, description: Option<string>, active: bool,
    startedAt: Option<int>, endedAt: Option<int>,
    resolved: bool, resolvedBy: Option<string>, resolvedAt: Option<int>, lastChangedAt: int)

  type Table = map<(string, string), Row>

  datatype Op =
    | Activate(deviceId: string, name: string, severity: Severity, description: Option<string>)
    | Deactivate(deviceId: string, name: string)
    | Resolve(deviceId: string, name: string, username: string)
    | ResetAll(deviceIds: seq<string>)

  predicate IsActive(t: Table, d: string, n: string) { (d, n) in t && t[(d, n)].active }

  function Activated(t: Table, op: Op, now: int): Table
    requires op.Activate?
  {
    var k := (op.deviceId, op.name);
    var row :=
      if k !in t then Row(op.severity, op.description, true, Some(now), None, false, None, None, now)
      else
        var r := t[k];
        Row(op.severity, op.description, true,
            if r.active then r.startedAt else Some(now), None,
            if r.active then r.resolved else false,
            if r.active then r.resolvedBy else None,
            if r.active then r.resolvedAt else None, now);
    t[k := row]
  }

  function Deactivated(t: Table, d: string, n: string, now: int): Table {
    if IsActive(t, d, n)
    then t[(d, n) := t[(d, n)].(active := false, endedAt := Some(now), lastChangedAt := now)] else t
  }

  function Resolved(t: Table, d: string, n: string, username: string, now: int): Table {
    if IsActive(t, d, n)
    then t[(d, n) := t[(d, n)].(resolved := true, resolvedBy := Some(username), resolvedAt := Some(now), lastChangedAt := now)]
    else t
  }

  function Closed(r: Row, now: int): Row {
    r.(active := false, endedAt := if r.endedAt.Some? then r.endedAt else Some(now), lastChangedAt := now)
  }

  function ResetTable(t: Table, deviceIds: seq<string>, now: int): Table {
    map k | k in t :: if k.0 in deviceIds then Closed(t[k], now) else t[k]
  }

  function Apply(t: Table, op: Op, now: int): Table {
    match op
    case Activate(_, _, _, _) => Activated(t, op, now)
    case Deactivate(d, n) => Deactivated(t, d, n, now)
    case Resolve(d, n, u) => Resolved(t, d, n, u, now)
    case ResetAll(ids) => ResetTable(t, ids, now)
  }

  class Repository {
    var rows: Table

    constructor (rows: Table)
      ensures this.rows == rows
    {
      this.rows := rows;
    }

    method ActivateAlarm(deviceId: string, name: string, severity: Severity, description: Option<string>, now: int)
      modifies this
      ensures rows == Apply(old(rows), Activate(deviceId, name, severity, description), now)
    {
      var k := (deviceId, name);
      if k !in rows {
        rows := rows[k := Row(severity, description, true, Some(now), None, false, None, None, now)];
      } else {
        var r := rows[k].(severity := severity, description := description, endedAt := None, lastChangedAt := now);
        if !r.active { r := r.(startedAt := Some(now), resolved := false, resolvedBy := None, resolvedAt := None); }
        rows := rows[k := r.(active := true)];
      }
    }

    method DeactivateAlarm(deviceId: string, name: string, now: int)
      modifies this
      ensures rows == Apply(old(rows), Deactivate(deviceId, name), now)
    {
      if IsActive(rows, deviceId, name) {
        rows := rows[(deviceId, name) := rows[(deviceId, name)].(active := false, endedAt := Some(now), lastChangedAt := now)];
      }
    }

    /** `found` is false when there was no active row; the caller answers 409 then. */
    method ResolveAlarm(deviceId: string, name: string, username: string, now: int) returns (found: bool)
      modifies this
      ensures rows == Apply(old(rows), Resolve(deviceId, name, username), now)
      ensures found <==> IsActive(old(rows), deviceId, name)
    {
      found := IsActive(rows, deviceId, name);
      if found {
        var r := rows[(deviceId, name)];
        rows := rows[(deviceId, name) :=
          r.(resolved := true, resolvedBy := Some(username), resolvedAt := Some(now), lastChangedAt := now)];
      }
    }

    method ResetDevices(deviceIds: seq<string>, now: int)
      modifies this
      ensures rows == Apply(old(rows), ResetAll(deviceIds), now)
    {
      if |deviceIds| == 0 {
        assert rows == Apply(rows, ResetAll(deviceIds), now);
        return;
      }
      rows := map k | k in rows ::
        if k.0 in deviceIds
        then rows[k].(active := false, endedAt := if rows[k].endedAt.Some? then rows[k].endedAt else Some(now), lastChangedAt := now)
        else rows[k];
    }
  }

  // ----------------------------------------------------------- row consistency

  /** A row tells one episode: its start, its end once it is over, and a mark made within it. */
  predicate RowConsistent(r: Row, now: int) {
    && r.startedAt.Some? && r.startedAt.value <= now && r.lastChangedAt <= now
    && (r.active ==> r.endedAt.None?)
    && (!r.active ==> r.endedAt.Some? && r.startedAt.value <= r.endedAt.value <= now)
    && r.resolved == r.resolvedBy.Some? == r.resolvedAt.Some?
    && (r.resolved ==> r.startedAt.value <= r.resolvedAt.value <= (if r.active then now else r.endedAt.value))
  }

  predicate TableConsistent(t: Table, now: int) {
    forall k | k in t :: RowConsistent(t[k], now)
  }

  datatype Timed = Timed(op: Op, at: int)

  function AfterOps(ops: seq<Timed>): Table {
    if ops == [] then map[] else Apply(AfterOps(ops[..|ops| - 1]), ops[|ops| - 1].op, ops[|ops| - 1].at)
  }

  predicate ClockRuns(ops: seq<Timed>, now: int) {
    (forall i | 0 <= i < |ops| :: ops[i].at <= now) && forall i, j | 0 <= i < j < |ops| :: ops[i].at <= ops[j].at
  }

  lemma RowStaysConsistent(t: Table, op: Op, at: int, now: int, k: (string, string))
    requires k in Apply(t, op, at) && at <= now && (k in t ==> RowConsistent(t[k], at))
    ensures RowConsistent(Apply(t, op, at)[k], now)
  {
  }

  /** Rows stay consistent under every mix of the four statements. */
  lemma {:induction false} RowsStayConsistent(ops: seq<Timed>, now: int)
    requires ClockRuns(ops, now)
    ensures TableConsistent(AfterOps(ops), now)
  {
    if ops != [] {
      var front, last := ops[..|ops| - 1], ops[|ops| - 1];
      assert forall i | 0 <= i < |front| :: front[i] == ops[i];
      RowsStayConsistent(front, last.at);
      forall k | k in AfterOps(ops) ensures RowConsistent(AfterOps(ops)[k], now) {
        RowStaysConsistent(AfterOps(front), last.op, last.at, now, k);
      }
    }
  }

  /** A resolved mark is made by `resolve` on an active row and lives only as long as the row's episode. */
  lemma {:induction false} MarkBelongsToEpisode(t: Table, op: Op, now: int, k: (string, string))
    requires k in Apply(t, op, now) && Apply(t, op, now)[k].resolved
    ensures k in t
    ensures (op == Resolve(k.0, k.1, Apply(t, op, now)[k].resolvedBy.GetOr("")) && t[k].active)
            || (t[k].resolved && t[k].startedAt == Apply(t, op, now)[k].startedAt
                && (op.Activate? && (op.deviceId, op.name) == k ==> t[k].active))
  {
  }

  // --------------------------------------------------------- what a row tells

  ghost predicate ActiveAfter(ops: seq<Timed>, n: nat, k: (string, string))
    requires n <= |ops|
  {
    IsActive(AfterOps(ops[..n]), k.0, k.1)
  }

  predicate Activates(op: Op, k: (string, string)) { op.Activate? && op.deviceId == k.0 && op.name == k.1 }

  /** The `b`-th statement began the episode that still runs after the `n`-th. */
  ghost predicate Began(ops: seq<Timed>, n: nat, k: (string, string), b: nat)
    requires n <= |ops|
  {
    && b < n && Activates(ops[b].op, k) && !ActiveAfter(ops, b, k)
    && forall m | b < m <= n :: ActiveAfter(ops, m, k)
  }

  /** The `e`-th statement ended the row's last episode. */
  ghost predicate EndedBy(ops: seq<Timed>, n: nat, k: (string, string), e: nat)
    requires n <= |ops|
  {
    e < n && ActiveAfter(ops, e, k) && forall m | e < m <= n :: !ActiveAfter(ops, m, k)
  }

  lemma ActiveFront(ops: seq<Timed>, m: nat, k: (string, string))
    requires ops != [] && m < |ops|
    ensures ActiveAfter(ops, m, k) <==> ActiveAfter(ops[..|ops| - 1], m, k)
  {
    TakeTake(ops, m, |ops| - 1);
  }

  /** One statement on one row: begin, go on, or end, and what is kept meanwhile. */
  lemma RowStep(t: Table, op: Op, at: int, k: (string, string))
    requires k in Apply(t, op, at)
    ensures var u := Apply(t, op, at);
      && (u[k].active && (k !in t || !t[k].active) ==> Activates(op, k) && u[k].startedAt == Some(at))
      && (u[k].active && k in t && t[k].active ==> u[k].startedAt == t[k].startedAt)
      && (!u[k].active ==> k in t && u[k].startedAt == t[k].startedAt)
      && (!u[k].active && t[k].active && t[k].endedAt.None? ==> u[k].endedAt == Some(at))
      && (!u[k].active && !t[k].active && t[k].endedAt.Some? ==> u[k].endedAt == t[k].endedAt)
      && (Activates(op, k) ==> u[k].severity == op.severity && u[k].description == op.description)
      && (!Activates(op, k) ==> k in t && u[k].severity == t[k].severity && u[k].description == t[k].description)
  {
  }

  /** The start of an active row is the time of the statement that began its episode. */
  lemma {:induction false} ActiveRowTellsStart(ops: seq<Timed>, k: (string, string)) returns (b: nat)
    requires ActiveAfter(ops, |ops|, k)
    ensures Began(ops, |ops|, k, b)
    ensures k in AfterOps(ops) && AfterOps(ops)[k].startedAt == Some(ops[b].at)
  {
    assert ops[..|ops|] == ops;
    var front, last := ops[..|ops| - 1], ops[|ops| - 1];
    RowStep(AfterOps(front), last.op, last.at, k);
    forall m | 0 <= m < |ops| ensures ActiveAfter(ops, m, k) <==> ActiveAfter(front, m, k) { ActiveFront(ops, m, k); }
    assert front[..|front|] == front;
    if ActiveAfter(front, |front|, k) {
      b := ActiveRowTellsStart(front, k);
    } else {
      b := |front|;
    }
  }

  /** The end of an inactive row is the time of the statement that ended its last episode, whatever came later; the start is that episode's. */
  lemma {:induction false} EndedRowTellsEnd(ops: seq<Timed>, now: int, k: (string, string)) returns (e: nat)
    requires ClockRuns(ops, now) && k in AfterOps(ops) && !AfterOps(ops)[k].active
    ensures EndedBy(ops, |ops|, k, e) && k in AfterOps(ops[..e])
    ensures AfterOps(ops)[k].endedAt == Some(ops[e].at)
    ensures AfterOps(ops)[k].startedAt == AfterOps(ops[..e])[k].startedAt
  {
    assert ops[..|ops|] == ops;
    var front, last := ops[..|ops| - 1], ops[|ops| - 1];
    assert forall i | 0 <= i < |front| :: front[i] == ops[i];
    RowsStayConsistent(front, last.at);
    RowStep(AfterOps(front), last.op, last.at, k);
    forall m | 0 <= m < |ops| ensures ActiveAfter(ops, m, k) <==> ActiveAfter(front, m, k) { ActiveFront(ops, m, k); }
    assert front[..|front|] == front && RowConsistent(AfterOps(front)[k], last.at);
    if AfterOps(front)[k].active {
      e := |front|;
    } else {
      e := EndedRowTellsEnd(front, last.at, k);
      TakeTake(ops, e, |front|);
    }
  }

  /** Severity and description are those of the last activation. */
  lemma {:induction false} RowTellsLastActivation(ops: seq<Timed>, k: (string, string)) returns (i: nat)
    requires k in AfterOps(ops)
    ensures i < |ops| && Activates(ops[i].op, k) && forall j | i < j < |ops| :: !Activates(ops[j].op, k)
    ensures AfterOps(ops)[k].severity == ops[i].op.severity && AfterOps(ops)[k].description == ops[i].op.description
  {
    var front, last := ops[..|ops| - 1], ops[|ops| - 1];
    RowStep(AfterOps(front), last.op, last.at, k);
    if Activates(last.op, k) { i := |front|; } else { i := RowTellsLastActivation(front, k); }
  }

  /** A statement concerns a row that it names, by its device and alarm or by its device alone. */
  predicate Concerns(op: Op, k: (string, string)) {
    match op
    case Activate(d, n, _, _) => (d, n) == k
    case Deactivate(d, n) => (d, n) == k
    case Resolve(d, n, _) => (d, n) == k
    case ResetAll(ids) => k.0 in ids
  }

  /** Rows that a statement does not concern stay as they are; one that it changes carries its time; a reset leaves no row of its devices active. */
  lemma OnlyItsRowsChange(t: Table, op: Op, at: int, k: (string, string))
    ensures var u := Apply(t, op, at);
      && (!Concerns(op, k) ==> (k in u <==> k in t) && (k in t ==> u[k] == t[k]))
      && (k in u && (k !in t || u[k] != t[k]) ==> u[k].lastChangedAt == at)
      && (op.ResetAll? && Concerns(op, k) && k in u ==> !u[k].active)
      && (k in t ==> k in u)
  {
  }
}
