/**
 The logger as a machine whose steps are the stretches of code between two awaits.
 Sink writes hang on a promise chain: `queue` holds the batches not yet delivered,
 `suspended` the audit and security calls that wait for their flush.
 */
module TamperLogger {
  import opened Prelude
  import opened Pipeline

  datatype Config = Config(
    level: Level, redactionKeys: seq<string>, batchSize: int, ringSize: int, key: string,
    codeAllowed: string -> bool)

  datatype Batch = Batch(events: seq<LogEvent>, failClosed: bool)

  /** An audit call at its flush; it goes on once `waitsFor` batches have been delivered. */
  datatype Call = Call(event: LogEvent, waitsFor: nat)

  /** What happened so far; nothing in it steers the logger. */
  datatype History = History(
    emitted: seq<LogEvent>,        // every signed event, in chain order
    dequeued: seq<LogEvent>,       // events of delivered batches, in delivery order
    sinks: seq<seq<LogEvent>>,     // what each sink persisted
    written: seq<LogEvent>,        // app events all sinks persisted
    dropped: seq<LogEvent>,        // app events some sink refused
    acknowledged: seq<LogEvent>,   // audit events all sinks persisted
    refused: seq<LogEvent>)        // audit events whose call was rejected

  datatype State = State(
    chain: SigningState, pending: seq<LogEvent>, ring: seq<LogEvent>,
    droppedError: nat, droppedNonError: nat, degraded: bool, closed: bool,
    queue: seq<Batch>, suspended: seq<Call>, enqueuedBatches: nat, deliveredBatches: nat,
    h: History)

  datatype Action =
    | Log(input: LogInput, supply: Supply)
    | Resume(call: nat)
    | Timer
    | Deliver(accepted: seq<bool>)   // one outcome for each sink
    | Close

  function Initial(sinkCount: nat): State {
    State(START, [], [], 0, 0, false, false, [], [], 0, 0,
          History([], [], seq(sinkCount, _ => []), [], [], [], []))
  }

  function Rank(l: Level): nat {
    match l
    case Debug => 0 case Info => 1 case Warn => 2 case Error => 3 case Fatal => 4
  }

  predicate Accepts(cfg: Config, s: State, input: LogInput) {
    && !s.closed && cfg.codeAllowed(input.eventCode)
    && !(input.category == App && Rank(input.level) < Rank(cfg.level))
  }

  function Signed(cfg: Config, chain: SigningState, input: LogInput, supply: Supply): LogEvent {
    SignEvent(Enrich(RedactEvent(input, cfg.redactionKeys), chain, supply), cfg.key)
  }

  function PushRing(ring: seq<LogEvent>, e: LogEvent, size: int): seq<LogEvent> {
    var r := ring + [e];
    if |r| > size then r[1..] else r
  }

  /** `flush`: hand the pending events over as one batch. */
  function Flushed(s: State): State {
    if s.pending == [] then s
    else s.(pending := [], queue := s.queue + [Batch(s.pending, false)], enqueuedBatches := s.enqueuedBatches + 1)
  }

  /** The signed event joins the chain and the ring. */
  function Appended(cfg: Config, s: State, e: LogEvent): State {
    s.(chain := NextState(s.chain, e.signature), ring := PushRing(s.ring, e, cfg.ringSize),
       h := s.h.(emitted := s.h.emitted + [e]))
  }

  function AfterLog(cfg: Config, s: State, input: LogInput, supply: Supply): State {
    if !Accepts(cfg, s, input) then s else
      var e := Signed(cfg, s.chain, input, supply);
      var t := Appended(cfg, s, e);
      if input.category == App then
        var u := t.(pending := t.pending + [e]);
        if |u.pending| >= cfg.batchSize then Flushed(u) else u
      else
        var u := Flushed(t);
        u.(suspended := u.suspended + [Call(e, if t.pending == [] then 0 else u.enqueuedBatches)])
  }

  function AfterResume(s: State, i: nat): State
    requires i < |s.suspended|
  {
    s.(suspended := s.suspended[..i] + s.suspended[i + 1..],
       queue := s.queue + [Batch([s.suspended[i].event], true)],
       enqueuedBatches := s.enqueuedBatches + 1)
  }

  predicate Severe(e: LogEvent) { e.level == Error || e.level == Fatal }

  function SevereCount(events: seq<LogEvent>): (n: nat)
    ensures n <= |events|
  {
    if events == [] then 0
    else SevereCount(events[..|events| - 1]) + (if Severe(events[|events| - 1]) then 1 else 0)
  }

  predicate AllTrue(bs: seq<bool>) { forall i | 0 <= i < |bs| :: bs[i] }

  function SinksAfter(sinks: seq<seq<LogEvent>>, accepted: seq<bool>, events: seq<LogEvent>): (r: seq<seq<LogEvent>>)
    requires |accepted| == |sinks|
    ensures |r| == |sinks|
  {
    seq(|sinks|, k requires 0 <= k < |sinks| => if accepted[k] then sinks[k] + events else sinks[k])
  }

  function AfterDeliver(s: State, accepted: seq<bool>): State
    requires s.queue != [] && |accepted| == |s.h.sinks|
  {
    var batch := s.queue[0];
    var h := s.h.(dequeued := s.h.dequeued + batch.events, sinks := SinksAfter(s.h.sinks, accepted, batch.events));
    var t := s.(queue := s.queue[1..], deliveredBatches := s.deliveredBatches + 1);
    if AllTrue(accepted) then
      t.(h := if batch.failClosed then h.(acknowledged := h.acknowledged + batch.events)
              else h.(written := h.written + batch.events))
    else if batch.failClosed then t.(h := h.(refused := h.refused + batch.events))
    else
      var severe := SevereCount(batch.events);
      t.(droppedError := t.droppedError + severe, droppedNonError := t.droppedNonError + (|batch.events| - severe),
         degraded := t.degraded || severe > 0, h := h.(dropped := h.dropped + batch.events))
  }

  predicate Enabled(s: State, a: Action) {
    match a
    case Resume(i) => i < |s.suspended| && s.suspended[i].waitsFor <= s.deliveredBatches
    case Deliver(accepted) => s.queue != [] && |accepted| == |s.h.sinks|
    case _ => true
  }

  function Step(cfg: Config, s: State, a: Action): State {
    if !Enabled(s, a) then s else
    match a
    case Log(input, supply) => AfterLog(cfg, s, input, supply)
    case Resume(i) => AfterResume(s, i)
    case Timer => Flushed(s)
    case Deliver(accepted) => AfterDeliver(s, accepted)
    case Close => if s.closed then s else Flushed(s.(closed := true))
  }

  /** State after any schedule; a step that cannot happen is skipped. */
  function Run(cfg: Config, sinkCount: nat, actions: seq<Action>): State {
    if actions == [] then Initial(sinkCount)
    else Step(cfg, Run(cfg, sinkCount, actions[..|actions| - 1]), actions[|actions| - 1])
  }

  /** The counters say how many app events were dropped, error and fatal ones apart. */
  ghost predicate DropsCounted(s: State) {
    && s.droppedError == SevereCount(s.h.dropped)
    && s.droppedError + s.droppedNonError == |s.h.dropped|
    && s.degraded == (SevereCount(s.h.dropped) > 0)
  }

  lemma {:induction false} SevereCountJoin(a: seq<LogEvent>, b: seq<LogEvent>)
    ensures SevereCount(a + b) == SevereCount(a) + SevereCount(b)
  {
    if b == [] {
      assert a + b == a;
    } else {
      SevereCountJoin(a, b[..|b| - 1]);
      assert (a + b)[..|a + b| - 1] == a + b[..|b| - 1];
    }
  }

  lemma {:induction false} SevereCountPositive(events: seq<LogEvent>)
    ensures SevereCount(events) > 0 <==> exists e :: e in events && Severe(e)
  {
    if events != [] {
      var front, e := events[..|events| - 1], events[|events| - 1];
      SevereCountPositive(front);
      assert events == front + [e];
      assert forall x :: x in events <==> x in front || x == e;
    }
  }

  lemma DeliverKeepsDrops(s: State, accepted: seq<bool>)
    requires DropsCounted(s) && s.queue != [] && |accepted| == |s.h.sinks|
    ensures DropsCounted(AfterDeliver(s, accepted))
  {
    SevereCountJoin(s.h.dropped, s.queue[0].events);
  }

  lemma LogKeepsDrops(cfg: Config, s: State, input: LogInput, supply: Supply)
    requires DropsCounted(s)
    ensures DropsCounted(AfterLog(cfg, s, input, supply))
  {
  }

  // --------------------------------------------------------------- the class

  datatype DropCounters = DropCounters(error: nat, nonError: nat, total: nat)

  class Logger {
    const cfg: Config
    var state: SigningState
    var pending: seq<LogEvent>
    var ring: seq<LogEvent>
    var droppedError: nat
    var droppedNonError: nat
    var degraded: bool
    var closed: bool
    var writeChain: seq<Batch>
    var suspended: seq<Call>
    var enqueuedBatches: nat
    var deliveredBatches: nat
    ghost var history: History

    ghost function Now(): State
      reads this
    {
      State(state, pending, ring, droppedError, droppedNonError, degraded, closed,
            writeChain, suspended, enqueuedBatches, deliveredBatches, history)
    }

    ghost predicate Valid()
      reads this
    {
      DropsCounted(Now())
    }

    constructor (cfg: Config, ghost sinkCount: nat)
      ensures this.cfg == cfg && Now() == Initial(sinkCount) && Valid()
    {
      this.cfg := cfg;
      state, pending, ring := START, [], [];
      droppedError, droppedNonError, degraded, closed := 0, 0, false, false;
      writeChain, suspended, enqueuedBatches, deliveredBatches := [], [], 0, 0;
      history := Initial(sinkCount).h;
    }

    /** The synchronous part of `log`; `ok` is false when the call throws. */
    method Log(input: LogInput, supply: Supply) returns (ok: bool)
      requires Valid()
      modifies this
      ensures Valid()
      ensures Now() == AfterLog(cfg, old(Now()), input, supply)
      ensures ok <==> !old(closed) && cfg.codeAllowed(input.eventCode)
    {
      hide DropsCounted, Signed;
      LogKeepsDrops(cfg, Now(), input, supply);
      if closed || !cfg.codeAllowed(input.eventCode) { return false; }
      ok := true;
      if input.category == App && Rank(input.level) < Rank(cfg.level) { return; }
      var signed := Signed(cfg, state, input, supply);
      state := NextState(state, signed.signature);
      history := history.(emitted := history.emitted + [signed]);
      PushToRing(signed);
      if input.category == App {
        pending := pending + [signed];
        if |pending| >= cfg.batchSize { var _ := Flush(); }
        return;
      }
      var ticket := Flush();
      suspended := suspended + [Call(signed, ticket)];
    }

    method PushToRing(event: LogEvent)
      modifies this`ring
      ensures ring == PushRing(old(ring), event, cfg.ringSize)
    {
      ring := ring + [event];
      if |ring| > cfg.ringSize { ring := ring[1..]; }
    }

    /** `ticket` is the number of batches whose delivery ends the wait; 0 when nothing was pending. */
    method Flush() returns (ticket: nat)
      modifies this`pending, this`writeChain, this`enqueuedBatches
      ensures Now() == Flushed(old(Now()))
      ensures ticket == if old(pending) == [] then 0 else enqueuedBatches
    {
      var batch := pending;
      pending := [];
      if |batch| == 0 { return 0; }
      ticket := WriteSerialized(batch, false);
    }

    method WriteSerialized(events: seq<LogEvent>, failClosed: bool) returns (ticket: nat)
      modifies this`writeChain, this`enqueuedBatches
      ensures writeChain == old(writeChain) + [Batch(events, failClosed)]
      ensures ticket == enqueuedBatches == old(enqueuedBatches) + 1
    {
      writeChain := writeChain + [Batch(events, failClosed)];
      enqueuedBatches := enqueuedBatches + 1;
      ticket := enqueuedBatches;
    }

    /** An audit call after its flush: write the event at once. */
    method ResumeCall(i: nat)
      requires Valid()
      requires Enabled(Now(), Resume(i))
      modifies this
      ensures Valid()
      ensures Now() == AfterResume(old(Now()), i)
    {
      var call := suspended[i];
      suspended := suspended[..i] + suspended[i + 1..];
      var _ := WriteSerialized([call.event], true);
    }

    /** `deliver` of the head of the write chain; `ok` is false when the task rejects. */
    method DeliverHead(accepted: seq<bool>) returns (ok: bool)
      requires Valid()
      requires Enabled(Now(), Deliver(accepted))
      modifies this
      ensures Valid()
      ensures Now() == AfterDeliver(old(Now()), accepted)
      ensures ok <==> !(old(writeChain[0].failClosed) && !AllTrue(accepted))
    {
      hide DropsCounted, SinksAfter, SevereCount, AllTrue;
      DeliverKeepsDrops(Now(), accepted);
      var batch := writeChain[0];
      var events := batch.events;
      writeChain := writeChain[1..];
      deliveredBatches := deliveredBatches + 1;
      ghost var h := history.(dequeued := history.dequeued + events, sinks := SinksAfter(history.sinks, accepted, events));
      ok := true;
      if !AllTrue(accepted) {
        if batch.failClosed {
          history := h.(refused := h.refused + events);
          return false;
        }
        CountDrops(events);
        history := h.(dropped := h.dropped + events);
      } else if batch.failClosed {
        history := h.(acknowledged := h.acknowledged + events);
      } else {
        history := h.(written := h.written + events);
      }
    }

    method CountDrops(events: seq<LogEvent>)
      modifies this`droppedError, this`droppedNonError, this`degraded
      ensures droppedError == old(droppedError) + SevereCount(events)
      ensures droppedNonError == old(droppedNonError) + (|events| - SevereCount(events))
      ensures degraded == (old(degraded) || SevereCount(events) > 0)
    {
      for i := 0 to |events|
        invariant droppedError == old(droppedError) + SevereCount(events[..i])
        invariant droppedNonError == old(droppedNonError) + (i - SevereCount(events[..i]))
        invariant degraded == (old(degraded) || SevereCount(events[..i]) > 0)
      {
        TakeNext(events, i + 1);
        if events[i].level == Error || events[i].level == Fatal {
          droppedError := droppedError + 1;
          degraded := true;
        } else {
          droppedNonError := droppedNonError + 1;
        }
      }
      assert events[..|events|] == events;
    }

    method CloseLogger()
      requires Valid()
      modifies this
      ensures Valid()
      ensures Now() == Step(cfg, old(Now()), Close)
    {
      if closed { return; }
      closed := true;
      var _ := Flush();
    }

    /** How many app events some sink refused, the error and fatal ones among them, and the others. */
    method DroppedEvents() returns (d: DropCounters)
      requires Valid()
      ensures d.total == |history.dropped| == d.error + d.nonError
      ensures d.error == SevereCount(history.dropped)
    {
      d := DropCounters(droppedError, droppedNonError, droppedError + droppedNonError);
    }

    /** `health().status` is `degraded`: an error or fatal event was dropped. */
    method IsDegraded() returns (b: bool)
      requires Valid()
      ensures b == Degraded(Now())
      ensures b <==> exists e :: e in history.dropped && e.level in {Error, Fatal}
    {
      SevereCountPositive(history.dropped);
      b := degraded || droppedError > 0;
    }
  }

  predicate Degraded(s: State) { s.degraded || s.droppedError > 0 }
}
