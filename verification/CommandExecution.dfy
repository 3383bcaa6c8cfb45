/**
 Executing a device command: write, optional pulse, read-back validation against a
 deadline, and an audit record that tells the truth about the outcome.
 */
module CommandExecution {
  import opened Prelude

  // ----------------------------------------------------------------- read-back

  /** One reading of the device, values abstracted to integers. */
  datatype Reading = Reading(name: string, value: int)

  /** How long a read takes, and what it yields; `None` when it throws. */
  datatype Read = Read(duration: nat, outcome: Option<seq<Reading>>)

  /** `holds` is the expectation on the value of the named reading. */
  datatype Expectation = Expectation(name: string, holds: int -> bool)

  datatype Validation = Validation(timeoutMs: int, expected: seq<Expectation>)

  /** The device and the clock as the loop meets them: the k-th read, and the delay beyond 50 ms of the k-th pause. */
  datatype Device = Device(read: nat -> Read, lag: nat -> nat)

  const PAUSE_MS := 50

  /** The first reading of that name decides. */
  predicate Meets(readings: seq<Reading>, e: Expectation) {
    readings != [] && (if readings[0].name == e.name then e.holds(readings[0].value) else Meets(readings[1..], e))
  }

  predicate MeetsAll(readings: seq<Reading>, es: seq<Expectation>) {
    forall i | 0 <= i < |es| :: Meets(readings, es[i])
  }

  predicate Succeeds(device: Device, v: Validation, k: nat) {
    device.read(k).outcome.Some? && MeetsAll(device.read(k).outcome.value, v.expected)
  }

  /** When the k-th read would begin, counted from the start of the window. */
  function Begins(device: Device, k: nat): nat {
    if k == 0 then 0 else Begins(device, k - 1) + device.read(k - 1).duration + PAUSE_MS + device.lag(k - 1)
  }

  predicate InWindow(device: Device, v: Validation, k: nat) { Begins(device, k) < v.timeoutMs }

  datatype JobResult = JobResult(success: bool, validated: Option<bool>)

  lemma {:induction false} BeginsLate(device: Device, k: nat)
    ensures Begins(device, k) >= 50 * k
    ensures Begins(device, k + 1) - (Begins(device, k) + device.read(k).duration) == 50 + device.lag(k)
  {
    if k > 0 { BeginsLate(device, k - 1); }
  }

  lemma {:induction false} BeginsInOrder(device: Device, j: nat, k: nat)
    requires j <= k
    ensures Begins(device, j) <= Begins(device, k)
    decreases k - j
  {
    if j < k { BeginsInOrder(device, j, k - 1); }
  }

  /**
   The loop takes exactly the reads that begin before the deadline, up to the first
   one that meets all expectations; it succeeds exactly when there is such a read.
   */
  method ValidateReadBack(device: Device, v: Validation)
    returns (result: JobResult, taken: nat, readFailed: bool)
    ensures result == JobResult(result.success, Some(result.success))
    ensures result.success <==> exists k: nat :: InWindow(device, v, k) && Succeeds(device, v, k)
    ensures forall k: nat | k < taken :: InWindow(device, v, k)
    ensures result.success ==> taken > 0 && Succeeds(device, v, taken - 1)
    ensures forall k: nat | k < taken - 1 :: !Succeeds(device, v, k)
    ensures !result.success ==> !InWindow(device, v, taken)
    ensures readFailed <==> exists k: nat :: k < taken && device.read(k).outcome.None?
    ensures taken <= (Max(v.timeoutMs, 0) + 49) / 50
  {
    var clock: nat := 0;
    taken, readFailed := 0, false;
    while clock < v.timeoutMs
      invariant clock == Begins(device, taken)
      invariant forall k: nat | k < taken :: InWindow(device, v, k) && !Succeeds(device, v, k)
      invariant readFailed <==> exists k: nat :: k < taken && device.read(k).outcome.None?
      decreases v.timeoutMs - clock
    {
      var read := device.read(taken);
      BeginsLate(device, taken);
      taken := taken + 1;
      clock := clock + read.duration;
      if read.outcome.Some? {
        var allMatch := MeetsAll(read.outcome.value, v.expected);
        if allMatch {
          assert InWindow(device, v, taken - 1) && Succeeds(device, v, taken - 1);
          return JobResult(true, Some(true)), taken, readFailed;
        }
      } else {
        readFailed := true;
        assert device.read(taken - 1).outcome.None?;
      }
      if clock + PAUSE_MS >= v.timeoutMs {
        // the next read would begin at the deadline or later
        break;
      }
      clock := clock + PAUSE_MS + device.lag(taken - 1);
    }
    assert !InWindow(device, v, taken);
    forall k: nat | InWindow(device, v, k) ensures !Succeeds(device, v, k) {
      if k >= taken { BeginsInOrder(device, taken, k); }
    }
    if taken > 0 { BeginsLate(device, taken - 1); assert InWindow(device, v, taken - 1); }
    result := JobResult(false, Some(false));
  }

  // ------------------------------------------------------------------ commands

  datatype Job = Job(atomic: bool, pulse: bool, validate: Option<Validation>, finalize: bool)

  /** What the surroundings do during one job. */
  datatype World = World(
    known: bool, hasLogger: bool, supportsAtomic: bool,
    writeSucceeds: bool, auditSucceeds: bool, device: Device)

  datatype Effect =
    | RequestRejected
    | Written(atomically: bool)
    | PulseReset
    | Republished
    | Audited(executed: bool)
    | WriteFailureLogged
    | Finalized

  /** `Failed` is a job that throws. */
  datatype Outcome = Finished(result: JobResult) | Failed

  /** The command really took effect: written, and confirmed where confirmation was asked for. */
  ghost predicate TookEffect(job: Job, w: World) {
    w.known && w.writeSucceeds &&
    (job.validate.Some? ==>
      exists k: nat :: InWindow(w.device, job.validate.value, k) && Succeeds(w.device, job.validate.value, k))
  }

  method ExecuteCommand(job: Job, w: World) returns (outcome: Outcome, trace: seq<Effect>)
    // the audit says `executed` exactly for commands that took effect, and there is exactly one audit per job
    ensures Audited(true) in trace <==> w.hasLogger && TookEffect(job, w)
    ensures Audited(false) in trace <==> w.hasLogger && w.known && !TookEffect(job, w)
    ensures forall i, j | 0 <= i < j < |trace| :: !(trace[i].Audited? && trace[j].Audited?)
    // the caller is told the same, unless the audit could not be written
    ensures outcome.Failed? <==> w.hasLogger && w.known && !w.auditSucceeds
    ensures outcome.Finished? ==> (outcome.result.success <==> TookEffect(job, w))
    ensures outcome.Finished? && w.known && w.writeSucceeds ==>
              outcome.result.validated == (if job.validate.Some? then Some(outcome.result.success) else None)
    // the order of effects
    ensures !w.known ==> trace == [RequestRejected]
    ensures w.known && !w.writeSucceeds ==>
              trace == (if w.hasLogger then [Audited(false)] else []) + (if outcome.Failed? then [] else [WriteFailureLogged])
    ensures w.known && w.writeSucceeds ==>
              trace == [Written(job.atomic && w.supportsAtomic)] + (if job.pulse then [PulseReset] else []) + [Republished]
                       + (if w.hasLogger then [Audited(TookEffect(job, w))] else [])
                       + (if job.finalize && !outcome.Failed? then [Finalized] else [])
  {
    if !w.known { return Finished(JobResult(false, None)), [RequestRejected]; }
    trace := [];
    if !w.writeSucceeds {
      if w.hasLogger {
        trace := trace + [Audited(false)];
        if !w.auditSucceeds { return Failed, trace; }
      }
      trace := trace + [WriteFailureLogged];
      return Finished(JobResult(false, None)), trace;
    }
    trace := trace + [Written(job.atomic && w.supportsAtomic)];
    ghost var shape := [Written(job.atomic && w.supportsAtomic)] + (if job.pulse then [PulseReset] else []) + [Republished];
    if job.pulse { trace := trace + [PulseReset]; }
    trace := trace + [Republished];
    assert trace == shape;
    var result := JobResult(true, None);
    if job.validate.Some? {
      var r, _, _ := ValidateReadBack(w.device, job.validate.value);
      result := r;
    }
    shape := shape + (if w.hasLogger then [Audited(result.success)] else []);
    if w.hasLogger {
      trace := trace + [Audited(result.success)];
      if !w.auditSucceeds {
        assert shape + [] == shape;
        return Failed, trace;
      }
    }
    assert trace == shape;
    if job.finalize { trace := trace + [Finalized]; }
    assert trace == shape + (if job.finalize then [Finalized] else []);
    outcome := Finished(result);
  }

  // -------------------------------------------------------- what was confirmed

  /** The `i`-th reading is the first of that name. */
  predicate FirstNamed(readings: seq<Reading>, name: string, i: nat) {
    i < |readings| && readings[i].name == name && forall j | 0 <= j < i :: readings[j].name != name
  }

  /** An expectation is met exactly when there is a reading of its name, and the first one holds. */
  lemma {:induction false} MeetsIff(readings: seq<Reading>, e: Expectation)
    ensures Meets(readings, e) <==> exists i: nat :: FirstNamed(readings, e.name, i) && e.holds(readings[i].value)
  {
    if readings != [] {
      var rest := readings[1..];
      MeetsIff(rest, e);
      if readings[0].name == e.name {
        assert FirstNamed(readings, e.name, 0);
        assert forall i: nat | FirstNamed(readings, e.name, i) :: i == 0;
      } else {
        forall i: nat ensures FirstNamed(rest, e.name, i) <==> FirstNamed(readings, e.name, i + 1) {
          assert i < |rest| ==> rest[i] == readings[i + 1];
          if FirstNamed(rest, e.name, i) {
            forall j | 0 <= j < i + 1 ensures readings[j].name != e.name { assert j > 0 ==> readings[j] == rest[j - 1]; }
          }
          if FirstNamed(readings, e.name, i + 1) { assert forall j | 0 <= j < i :: rest[j] == readings[j + 1]; }
        }
        if exists i: nat :: FirstNamed(readings, e.name, i) && e.holds(readings[i].value) {
          var i: nat :| FirstNamed(readings, e.name, i) && e.holds(readings[i].value);
          assert FirstNamed(rest, e.name, i - 1) && rest[i - 1] == readings[i];
        }
      }
    }
  }

  /** A command that took effect where confirmation was asked for: one read in the window showed every expected name with a value that holds. */
  lemma ConfirmedWasSeen(job: Job, w: World) returns (k: nat)
    requires TookEffect(job, w) && job.validate.Some?
    ensures Begins(w.device, k) < job.validate.value.timeoutMs && w.device.read(k).outcome.Some?
    ensures forall e | e in job.validate.value.expected ::
      exists i: nat :: FirstNamed(w.device.read(k).outcome.value, e.name, i) && e.holds(w.device.read(k).outcome.value[i].value)
  {
    k :| InWindow(w.device, job.validate.value, k) && Succeeds(w.device, job.validate.value, k);
    var readings := w.device.read(k).outcome.value;
    forall e | e in job.validate.value.expected
      ensures exists i: nat :: FirstNamed(readings, e.name, i) && e.holds(readings[i].value)
    {
      var n :| 0 <= n < |job.validate.value.expected| && job.validate.value.expected[n] == e;
      assert Meets(readings, job.validate.value.expected[n]);
      MeetsIff(readings, e);
    }
  }
}
