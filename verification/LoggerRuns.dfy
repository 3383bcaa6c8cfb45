/** What holds of the logger after every schedule of calls, timer ticks, deliveries and sink outcomes. */
module LoggerRuns {
  import opened Prelude
  import opened Pipeline
  import opened TamperLogger
  import VerifyChain

  // --------------------------------------------------------- chain and ring

  ghost function ChainAfter(emitted: seq<LogEvent>): SigningState {
    SigningState(|emitted| + 1, if emitted == [] then Genesis else emitted[|emitted| - 1].signature)
  }

  ghost predicate ChainHolds(cfg: Config, s: State) {
    && VerifyChain.IsRun(s.h.emitted, cfg.key)
    && s.chain == ChainAfter(s.h.emitted)
    && s.ring == LastN(s.h.emitted, cfg.ringSize)
  }

  lemma SignedVerifies(e: LogEvent, key: string)
    ensures VerifySignature(SignEvent(e, key), key)
  {
    assert After(e.message, SignEvent(e, key)) == After(e.message, e);
  }

  lemma RunGrows(r: seq<LogEvent>, e: LogEvent, key: string)
    requires VerifyChain.IsRun(r, key) && VerifySignature(e, key)
    requires e.seqNo == ChainAfter(r).seqNo && e.prevHash == ChainAfter(r).prevHash
    ensures VerifyChain.IsRun(r + [e], key) && NextState(ChainAfter(r), e.signature) == ChainAfter(r + [e])
  {
    forall i | 0 <= i < |r + [e]| ensures VerifyChain.ChainedAt(r + [e], key, i) {
      if i < |r| { assert VerifyChain.ChainedAt(r, key, i); }
    }
  }

  lemma RingGrows(r: seq<LogEvent>, e: LogEvent, size: int)
    ensures PushRing(LastN(r, size), e, size) == LastN(r + [e], size)
  {
  }

  lemma AppendedKeepsChain(cfg: Config, s: State, input: LogInput, supply: Supply)
    requires ChainHolds(cfg, s)
    ensures ChainHolds(cfg, Appended(cfg, s, Signed(cfg, s.chain, input, supply)))
  {
    var e := Signed(cfg, s.chain, input, supply);
    SignedVerifies(Enrich(RedactEvent(input, cfg.redactionKeys), s.chain, supply), cfg.key);
    RunGrows(s.h.emitted, e, cfg.key);
    RingGrows(s.h.emitted, e, cfg.ringSize);
  }

  /** Only an accepted call touches the chain and the ring. */
  lemma StepOnChain(cfg: Config, s: State, a: Action)
    ensures var t := Step(cfg, s, a);
      if a.Log? && Accepts(cfg, s, a.input) then
        var u := Appended(cfg, s, Signed(cfg, s.chain, a.input, a.supply));
        (t.chain, t.ring, t.h.emitted) == (u.chain, u.ring, u.h.emitted)
      else (t.chain, t.ring, t.h.emitted) == (s.chain, s.ring, s.h.emitted)
  {
  }

  lemma StepKeepsChain(cfg: Config, s: State, a: Action)
    requires ChainHolds(cfg, s)
    ensures ChainHolds(cfg, Step(cfg, s, a))
  {
    StepOnChain(cfg, s, a);
    if a.Log? && Accepts(cfg, s, a.input) { AppendedKeepsChain(cfg, s, a.input, a.supply); }
  }

  /**
   On every schedule the signed events form one chain from the genesis hash with
   numbers 1, 2, 3, ..., and the ring holds the last `ringSize` of them.
   */
  lemma {:induction false} EmittedIsOneChain(cfg: Config, sinkCount: nat, actions: seq<Action>)
    ensures ChainHolds(cfg, Run(cfg, sinkCount, actions))
  {
    if actions != [] {
      EmittedIsOneChain(cfg, sinkCount, actions[..|actions| - 1]);
      StepKeepsChain(cfg, Run(cfg, sinkCount, actions[..|actions| - 1]), actions[|actions| - 1]);
    }
  }

  // ----------------------------------------------------------- conservation

  /** The app events (or the others) among `events`, in order. */
  ghost function OfKind(events: seq<LogEvent>, app: bool): seq<LogEvent> {
    if events == [] then []
    else
      var e := events[|events| - 1];
      OfKind(events[..|events| - 1], app) + (if (e.category == App) == app then [e] else [])
  }

  /** Events of the queued batches of one kind. */
  ghost function Waiting(queue: seq<Batch>, failClosed: bool): seq<LogEvent> {
    if queue == [] then []
    else (if queue[0].failClosed == failClosed then queue[0].events else []) + Waiting(queue[1..], failClosed)
  }

  ghost function CallEvents(calls: seq<Call>): (r: seq<LogEvent>)
    ensures |r| == |calls| && forall i | 0 <= i < |r| :: r[i] == calls[i].event
  {
    seq(|calls|, i requires 0 <= i < |calls| => calls[i].event)
  }

  ghost predicate AppsConserved(s: State) {
    multiset(OfKind(s.h.emitted, true)) ==
    multiset(s.pending) + multiset(Waiting(s.queue, false)) + multiset(s.h.written) + multiset(s.h.dropped)
  }

  ghost predicate AuditsConserved(s: State) {
    multiset(OfKind(s.h.emitted, false)) ==
    multiset(CallEvents(s.suspended)) + multiset(Waiting(s.queue, true))
    + multiset(s.h.acknowledged) + multiset(s.h.refused)
  }

  ghost predicate Conserved(s: State) { AppsConserved(s) && AuditsConserved(s) }

  ghost predicate Counted(cfg: Config, s: State) {
    && DropsCounted(s)
    && |s.pending| < Max(1, cfg.batchSize)
  }

  lemma {:induction false} WaitingNext(queue: seq<Batch>, b: Batch, failClosed: bool)
    ensures Waiting(queue + [b], failClosed) ==
            Waiting(queue, failClosed) + (if b.failClosed == failClosed then b.events else [])
  {
    if queue != [] {
      WaitingNext(queue[1..], b, failClosed);
      assert (queue + [b])[1..] == queue[1..] + [b];
    }
  }

  lemma OfKindNext(events: seq<LogEvent>, e: LogEvent, app: bool)
    ensures OfKind(events + [e], app) == OfKind(events, app) + (if (e.category == App) == app then [e] else [])
  {
    DropLast(events, e);
  }

  lemma FlushKeepsConserved(s: State)
    requires Conserved(s)
    ensures Conserved(Flushed(s))
  {
    WaitingNext(s.queue, Batch(s.pending, false), false);
    WaitingNext(s.queue, Batch(s.pending, false), true);
  }

  /** An app event joins the chain and the pending batch. */
  lemma AppJoins(s: State, t: State, e: LogEvent)
    requires Conserved(s) && e.category == App
    requires t.h == s.h.(emitted := s.h.emitted + [e]) && t.pending == s.pending + [e]
    requires t.queue == s.queue && t.suspended == s.suspended
    ensures Conserved(t)
  {
    OfKindNext(s.h.emitted, e, true);
    OfKindNext(s.h.emitted, e, false);
    assert OfKind(s.h.emitted, false) + [] == OfKind(s.h.emitted, false);
  }

  /** Any other event joins the chain and the suspended calls. */
  lemma AuditJoins(s: State, t: State, e: LogEvent, n: nat)
    requires Conserved(s) && e.category != App
    requires t.h == s.h.(emitted := s.h.emitted + [e]) && t.pending == s.pending
    requires t.queue == s.queue && t.suspended == s.suspended + [Call(e, n)]
    ensures Conserved(t)
  {
    OfKindNext(s.h.emitted, e, true);
    OfKindNext(s.h.emitted, e, false);
    assert OfKind(s.h.emitted, true) + [] == OfKind(s.h.emitted, true);
    CallEventsNext(s.suspended, e);
  }

  lemma SignedFields(cfg: Config, chain: SigningState, input: LogInput, supply: Supply)
    ensures Signed(cfg, chain, input, supply).category == input.category
    ensures Signed(cfg, chain, input, supply).seqNo == chain.seqNo
  {
  }

  lemma LogKeepsConserved(cfg: Config, s: State, input: LogInput, supply: Supply)
    requires Conserved(s) && Accepts(cfg, s, input)
    ensures Conserved(AfterLog(cfg, s, input, supply))
  {
    hide Signed, NextState, PushRing, AppsConserved, AuditsConserved;
    SignedFields(cfg, s.chain, input, supply);
    var e := Signed(cfg, s.chain, input, supply);
    var t := Appended(cfg, s, e);
    if input.category == App {
      var u := t.(pending := t.pending + [e]);
      AppJoins(s, u, e);
      FlushKeepsConserved(u);
    } else {
      FlushKeepsConserved(s);
      var n := if t.pending == [] then 0 else Flushed(t).enqueuedBatches;
      AuditJoins(Flushed(s), AfterLog(cfg, s, input, supply), e, n);
    }
  }

  lemma CallEventsNext(calls: seq<Call>, e: LogEvent)
    ensures forall n: nat :: CallEvents(calls + [Call(e, n)]) == CallEvents(calls) + [e]
  {
  }

  lemma RemoveAt(s: seq<LogEvent>, i: nat)
    requires i < |s|
    ensures multiset(s) == multiset(s[..i] + s[i + 1..]) + multiset{s[i]}
  {
    assert s == s[..i] + ([s[i]] + s[i + 1..]);
  }

  lemma CallsWithout(calls: seq<Call>, i: nat)
    requires i < |calls|
    ensures CallEvents(calls[..i] + calls[i + 1..]) == CallEvents(calls)[..i] + CallEvents(calls)[i + 1..]
  {
  }

  lemma ResumeKeepsConserved(s: State, i: nat)
    requires Conserved(s) && i < |s.suspended|
    ensures Conserved(AfterResume(s, i))
  {
    var e := s.suspended[i].event;
    WaitingNext(s.queue, Batch([e], true), false);
    WaitingNext(s.queue, Batch([e], true), true);
    CallsWithout(s.suspended, i);
    RemoveAt(CallEvents(s.suspended), i);
  }

  lemma WaitingHead(queue: seq<Batch>, failClosed: bool)
    requires queue != []
    ensures multiset(Waiting(queue, failClosed)) ==
            multiset(Waiting(queue[1..], failClosed))
            + (if queue[0].failClosed == failClosed then multiset(queue[0].events) else multiset{})
  {
  }

  lemma Settle(total: multiset<LogEvent>, rest: multiset<LogEvent>, queued: multiset<LogEvent>, events: seq<LogEvent>,
               left: multiset<LogEvent>, good: seq<LogEvent>, bad: seq<LogEvent>)
    requires total == rest + queued + multiset(good) + multiset(bad) && queued == left + multiset(events)
    ensures total == rest + left + multiset(good + events) + multiset(bad)
    ensures total == rest + left + multiset(good) + multiset(bad + events)
  {
  }

  /** The head batch leaves the queue for one of the two places of its kind. */
  ghost predicate HeadSettles(s: State, t: State)
    requires s.queue != []
  {
    var events, app := s.queue[0].events, !s.queue[0].failClosed;
    && t.queue == s.queue[1..] && t.pending == s.pending && t.suspended == s.suspended && t.h.emitted == s.h.emitted
    && (if app then t.h.acknowledged == s.h.acknowledged && t.h.refused == s.h.refused
        else t.h.written == s.h.written && t.h.dropped == s.h.dropped)
    && (if app then (t.h.written, t.h.dropped) == (s.h.written + events, s.h.dropped)
                    || (t.h.written, t.h.dropped) == (s.h.written, s.h.dropped + events)
        else (t.h.acknowledged, t.h.refused) == (s.h.acknowledged + events, s.h.refused)
             || (t.h.acknowledged, t.h.refused) == (s.h.acknowledged, s.h.refused + events))
  }

  lemma DeliverSettles(s: State, accepted: seq<bool>)
    requires s.queue != [] && |accepted| == |s.h.sinks|
    ensures HeadSettles(s, AfterDeliver(s, accepted))
  {
  }

  lemma SettlingKeepsApps(s: State, t: State)
    requires AppsConserved(s) && s.queue != [] && HeadSettles(s, t)
    ensures AppsConserved(t)
  {
    WaitingHead(s.queue, false);
    var left := multiset(Waiting(s.queue[1..], false));
    var events := if s.queue[0].failClosed then [] else s.queue[0].events;
    Settle(multiset(OfKind(s.h.emitted, true)), multiset(s.pending), multiset(Waiting(s.queue, false)),
           events, left, s.h.written, s.h.dropped);
  }

  lemma SettlingKeepsAudits(s: State, t: State)
    requires AuditsConserved(s) && s.queue != [] && HeadSettles(s, t)
    ensures AuditsConserved(t)
  {
    WaitingHead(s.queue, true);
    var left := multiset(Waiting(s.queue[1..], true));
    var events := if s.queue[0].failClosed then s.queue[0].events else [];
    Settle(multiset(OfKind(s.h.emitted, false)), multiset(CallEvents(s.suspended)), multiset(Waiting(s.queue, true)),
           events, left, s.h.acknowledged, s.h.refused);
  }

  lemma DeliverKeepsConserved(s: State, accepted: seq<bool>)
    requires Conserved(s) && s.queue != [] && |accepted| == |s.h.sinks|
    ensures Conserved(AfterDeliver(s, accepted))
  {
    var t := AfterDeliver(s, accepted);
    DeliverSettles(s, accepted);
    SettlingKeepsApps(s, t);
    SettlingKeepsAudits(s, t);
  }

  lemma StepKeepsConserved(cfg: Config, s: State, a: Action)
    requires Conserved(s)
    ensures Conserved(Step(cfg, s, a))
  {
    if Enabled(s, a) {
      match a
      case Log(input, supply) =>
        if Accepts(cfg, s, input) { LogKeepsConserved(cfg, s, input, supply); }
      case Resume(i) => ResumeKeepsConserved(s, i);
      case Timer => FlushKeepsConserved(s);
      case Deliver(accepted) => DeliverKeepsConserved(s, accepted);
      case Close => FlushKeepsConserved(s.(closed := true));
    }
  }

  lemma DeliverKeepsCounted(cfg: Config, s: State, accepted: seq<bool>)
    requires Counted(cfg, s) && s.queue != [] && |accepted| == |s.h.sinks|
    ensures Counted(cfg, AfterDeliver(s, accepted))
  {
    DeliverKeepsDrops(s, accepted);
  }

  lemma LogKeepsCounted(cfg: Config, s: State, input: LogInput, supply: Supply)
    requires Counted(cfg, s)
    ensures Counted(cfg, AfterLog(cfg, s, input, supply))
  {
  }

  lemma StepKeepsCounted(cfg: Config, s: State, a: Action)
    requires Counted(cfg, s)
    ensures Counted(cfg, Step(cfg, s, a))
  {
    if Enabled(s, a) {
      match a
      case Log(input, supply) => LogKeepsCounted(cfg, s, input, supply);
      case Deliver(accepted) => DeliverKeepsCounted(cfg, s, accepted);
      case _ =>
    }
  }

  lemma {:induction false} RunConserves(cfg: Config, sinkCount: nat, actions: seq<Action>)
    ensures Conserved(Run(cfg, sinkCount, actions)) && Counted(cfg, Run(cfg, sinkCount, actions))
  {
    if actions != [] {
      var s := Run(cfg, sinkCount, actions[..|actions| - 1]);
      RunConserves(cfg, sinkCount, actions[..|actions| - 1]);
      StepKeepsConserved(cfg, s, actions[|actions| - 1]);
      StepKeepsCounted(cfg, s, actions[|actions| - 1]);
    }
  }

  /**
   On every schedule each accepted app event is in exactly one place: pending,
   queued, written by every sink, or counted as dropped; the logger is degraded
   exactly when an error or fatal event was dropped; a batch never overfills.
   */
  lemma NoEventLost(cfg: Config, sinkCount: nat, actions: seq<Action>)
    ensures var s := Run(cfg, sinkCount, actions);
            && multiset(OfKind(s.h.emitted, true)) ==
               multiset(s.pending) + multiset(Waiting(s.queue, false)) + multiset(s.h.written) + multiset(s.h.dropped)
            && |OfKind(s.h.emitted, true)| ==
               |s.pending| + |Waiting(s.queue, false)| + |s.h.written| + (s.droppedError + s.droppedNonError)
            && |OfKind(s.h.emitted, false)| ==
               |s.suspended| + |Waiting(s.queue, true)| + |s.h.acknowledged| + |s.h.refused|
            && (Degraded(s) <==> exists e :: e in s.h.dropped && e.level in {Error, Fatal})
            && |s.pending| < Max(1, cfg.batchSize)
  {
    var s := Run(cfg, sinkCount, actions);
    RunConserves(cfg, sinkCount, actions);
    SevereCountPositive(s.h.dropped);
    var apps, others := OfKind(s.h.emitted, true), OfKind(s.h.emitted, false);
    assert |multiset(apps)| == |apps| && |multiset(others)| == |others|;
  }

  // ------------------------------------------------------------------ order

  ghost function Flat(queue: seq<Batch>): seq<LogEvent> {
    if queue == [] then [] else queue[0].events + Flat(queue[1..])
  }

  /** Everything handed to the write chain so far, in the order the sinks will see it. */
  ghost function Stream(s: State): seq<LogEvent> { s.h.dequeued + Flat(s.queue) }

  /** The sinks see the chain itself: a prefix of it, in order, without holes. */
  ghost predicate OrderKept(s: State) { Stream(s) <= s.h.emitted }

  /** Whether the step hands something to the write chain while an earlier audit call is still suspended. */
  predicate Overtakes(cfg: Config, s: State, a: Action) {
    Enabled(s, a) &&
    match a
    case Log(input, _) =>
      && Accepts(cfg, s, input) && s.suspended != []
      && (if input.category == App then |s.pending| + 1 >= cfg.batchSize else s.pending != [])
    case Resume(i) => i > 0
    case Deliver(_) => false
    case Timer => s.suspended != [] && s.pending != []
    case Close => !s.closed && s.suspended != [] && s.pending != []
  }

  predicate NeverOvertakes(cfg: Config, sinkCount: nat, actions: seq<Action>) {
    actions == []
    || (var front := actions[..|actions| - 1];
        NeverOvertakes(cfg, sinkCount, front) && !Overtakes(cfg, Run(cfg, sinkCount, front), actions[|actions| - 1]))
  }

  /** Chain order runs through the stream, then the suspended calls, then the pending events. */
  ghost predicate InOrder(s: State) {
    Stream(s) + CallEvents(s.suspended) + s.pending == s.h.emitted
  }

  ghost predicate Sized(s: State) {
    |Stream(s)| + |s.suspended| + |s.pending| == |s.h.emitted|
  }

  lemma {:induction false} FlatNext(queue: seq<Batch>, b: Batch)
    ensures Flat(queue + [b]) == Flat(queue) + b.events
  {
    if queue != [] {
      FlatNext(queue[1..], b);
      assert (queue + [b])[1..] == queue[1..] + [b];
      Assoc(queue[0].events, Flat(queue[1..]), b.events);
    }
  }

  /** What a step adds to the stream. */
  ghost function Handed(cfg: Config, s: State, a: Action): seq<LogEvent> {
    if !Enabled(s, a) then [] else
    match a
    case Log(input, supply) =>
      if !Accepts(cfg, s, input) then []
      else if input.category != App then s.pending
      else if |s.pending| + 1 >= cfg.batchSize then s.pending + [Signed(cfg, s.chain, input, supply)]
      else []
    case Resume(i) => [s.suspended[i].event]
    case Timer => s.pending
    case Deliver(_) => []
    case Close => if s.closed then [] else s.pending
  }

  /** What a step adds to the chain. */
  ghost function Grown(cfg: Config, s: State, a: Action): seq<LogEvent> {
    if a.Log? && Accepts(cfg, s, a.input) then [Signed(cfg, s.chain, a.input, a.supply)] else []
  }

  lemma FlushStream(s: State)
    ensures Stream(Flushed(s)) == Stream(s) + s.pending
  {
    FlatNext(s.queue, Batch(s.pending, false));
    Assoc(s.h.dequeued, Flat(s.queue), s.pending);
  }

  lemma LogStream(cfg: Config, s: State, input: LogInput, supply: Supply)
    ensures Stream(AfterLog(cfg, s, input, supply)) == Stream(s) + Handed(cfg, s, Log(input, supply))
  {
    if Accepts(cfg, s, input) {
      var e := Signed(cfg, s.chain, input, supply);
      var t := Appended(cfg, s, e);
      var u := t.(pending := t.pending + [e]);
      FlushStream(t);
      FlushStream(u);
      assert Stream(t) == Stream(s) == Stream(u);
    }
  }

  lemma ResumeStream(s: State, i: nat)
    requires i < |s.suspended|
    ensures Stream(AfterResume(s, i)) == Stream(s) + [s.suspended[i].event]
  {
    FlatNext(s.queue, Batch([s.suspended[i].event], true));
    Assoc(s.h.dequeued, Flat(s.queue), [s.suspended[i].event]);
  }

  lemma DeliverStream(s: State, accepted: seq<bool>)
    requires s.queue != [] && |accepted| == |s.h.sinks|
    ensures Stream(AfterDeliver(s, accepted)) == Stream(s)
    ensures AfterDeliver(s, accepted).h.emitted == s.h.emitted
  {
    Assoc(s.h.dequeued, s.queue[0].events, Flat(s.queue[1..]));
  }

  lemma StreamGrows(cfg: Config, s: State, a: Action)
    ensures Stream(Step(cfg, s, a)) == Stream(s) + Handed(cfg, s, a)
    ensures Step(cfg, s, a).h.emitted == s.h.emitted + Grown(cfg, s, a)
  {
    if Enabled(s, a) {
      match a
      case Log(input, supply) => LogStream(cfg, s, input, supply);
      case Resume(i) => ResumeStream(s, i);
      case Deliver(accepted) => DeliverStream(s, accepted);
      case _ => FlushStream(s);
    }
  }

  lemma LogKeepsSized(cfg: Config, s: State, input: LogInput, supply: Supply)
    requires Sized(s)
    ensures Sized(AfterLog(cfg, s, input, supply))
  {
    LogStream(cfg, s, input, supply);
  }

  lemma StepKeepsSized(cfg: Config, s: State, a: Action)
    requires Sized(s)
    ensures Sized(Step(cfg, s, a))
  {
    if Enabled(s, a) {
      match a
      case Log(input, supply) => LogKeepsSized(cfg, s, input, supply);
      case Resume(i) => ResumeStream(s, i);
      case Deliver(accepted) => DeliverStream(s, accepted);
      case _ => FlushStream(s);
    }
  }

  lemma LogKeepsInOrder(cfg: Config, s: State, input: LogInput, supply: Supply)
    requires InOrder(s) && Accepts(cfg, s, input) && !Overtakes(cfg, s, Log(input, supply))
    ensures InOrder(AfterLog(cfg, s, input, supply))
  {
    var e := Signed(cfg, s.chain, input, supply);
    StreamGrows(cfg, s, Log(input, supply));
    CallEventsNext(s.suspended, e);
    LoggedInOrder(Stream(s), CallEvents(s.suspended), s.pending, e);
    assert Stream(s) + [] == Stream(s);
  }

  lemma FirstMoves(stream: seq<LogEvent>, calls: seq<LogEvent>)
    requires calls != []
    ensures stream + [calls[0]] + calls[1..] == stream + calls
  {
  }

  lemma ResumeKeepsInOrder(s: State)
    requires InOrder(s) && s.suspended != []
    ensures InOrder(AfterResume(s, 0))
  {
    var e := s.suspended[0].event;
    var calls := CallEvents(s.suspended);
    ResumeStream(s, 0);
    CallsWithout(s.suspended, 0);
    FirstMoves(Stream(s), calls);
    assert calls[..0] + calls[1..] == calls[1..];
  }

  lemma FlushKeepsInOrder(s: State)
    requires InOrder(s) && (s.suspended != [] ==> s.pending == [])
    ensures InOrder(Flushed(s))
  {
    FlushStream(s);
    assert s.suspended == [] ==> CallEvents(s.suspended) == [];
  }

  lemma StepKeepsInOrder(cfg: Config, s: State, a: Action)
    requires InOrder(s) && !Overtakes(cfg, s, a)
    ensures InOrder(Step(cfg, s, a))
  {
    if Enabled(s, a) {
      match a
      case Log(input, supply) => if Accepts(cfg, s, input) { LogKeepsInOrder(cfg, s, input, supply); }
      case Resume(i) => ResumeKeepsInOrder(s);
      case Deliver(accepted) => DeliverStream(s, accepted);
      case Timer => FlushKeepsInOrder(s);
      case Close => if !s.closed { FlushKeepsInOrder(s.(closed := true)); }
    }
  }

  lemma LoggedInOrder(stream: seq<LogEvent>, calls: seq<LogEvent>, pending: seq<LogEvent>, e: LogEvent)
    ensures stream + calls + (pending + [e]) == (stream + calls + pending) + [e]
    ensures calls == [] ==> (stream + (pending + [e])) + calls + [] == (stream + calls + pending) + [e]
    ensures calls == [] ==> (stream + pending) + (calls + [e]) + [] == (stream + calls + pending) + [e]
    ensures pending == [] ==> stream + (calls + [e]) + [] == (stream + calls + pending) + [e]
    ensures pending == [] ==> (stream + pending) + (calls + [e]) + [] == (stream + calls + pending) + [e]
  {
  }

  /** Skipping an event of a chain breaks the prefix at once: numbers are distinct. */
  lemma SkippingBreaks(stream: seq<LogEvent>, x: seq<LogEvent>, chain: seq<LogEvent>, j: nat, key: string)
    requires VerifyChain.IsRun(chain, key) && x != []
    requires j > 0 && |stream| + j < |chain| && x[0] == chain[|stream| + j]
    ensures !(stream + x <= chain)
  {
    assert VerifyChain.ChainedAt(chain, key, |stream|) && VerifyChain.ChainedAt(chain, key, |stream| + j);
    assert (stream + x)[|stream|] == x[0];
  }

  /** An overtaking step hands over an event that lies beyond the first suspended one. */
  lemma OvertakingSkips(cfg: Config, s: State, a: Action)
    requires InOrder(s) && Overtakes(cfg, s, a)
    ensures var j := if a.Resume? then a.call else |s.suspended|;
            var handed, chain := Handed(cfg, s, a), s.h.emitted + Grown(cfg, s, a);
            0 < j && handed != [] && |Stream(s)| + j < |chain| && chain[|Stream(s)| + j] == handed[0]
  {
    var calls := CallEvents(s.suspended);
    var stream := Stream(s);
    if a.Resume? {
      assert (stream + calls + s.pending)[|stream| + a.call] == calls[a.call];
    } else if s.pending != [] {
      assert (stream + calls + s.pending)[|stream| + |calls|] == s.pending[0];
    }
  }

  lemma OvertakingBreaks(cfg: Config, s: State, a: Action)
    requires InOrder(s) && ChainHolds(cfg, s) && Overtakes(cfg, s, a)
    ensures !OrderKept(Step(cfg, s, a))
  {
    StreamGrows(cfg, s, a);
    StepKeepsChain(cfg, s, a);
    OvertakingSkips(cfg, s, a);
    SkippingBreaks(Stream(s), Handed(cfg, s, a), Step(cfg, s, a).h.emitted,
                   if a.Resume? then a.call else |s.suspended|, cfg.key);
  }

  lemma BrokenStaysBroken(cfg: Config, s: State, a: Action)
    requires Sized(s) && !OrderKept(s)
    ensures !OrderKept(Step(cfg, s, a))
  {
    StreamGrows(cfg, s, a);
    var t := Step(cfg, s, a);
    var i :| 0 <= i < |Stream(s)| && Stream(s)[i] != s.h.emitted[i];
    assert Stream(t)[i] == Stream(s)[i] && t.h.emitted[i] == s.h.emitted[i];
  }

  lemma {:induction false} OrderAlongRun(cfg: Config, sinkCount: nat, actions: seq<Action>)
    ensures var s := Run(cfg, sinkCount, actions);
            && ChainHolds(cfg, s) && Sized(s)
            && (NeverOvertakes(cfg, sinkCount, actions) ==> InOrder(s))
            && (!NeverOvertakes(cfg, sinkCount, actions) ==> !OrderKept(s))
  {
    EmittedIsOneChain(cfg, sinkCount, actions);
    if actions != [] {
      var front, a := actions[..|actions| - 1], actions[|actions| - 1];
      var s := Run(cfg, sinkCount, front);
      OrderAlongRun(cfg, sinkCount, front);
      StepKeepsSized(cfg, s, a);
      if !NeverOvertakes(cfg, sinkCount, front) {
        BrokenStaysBroken(cfg, s, a);
      } else if Overtakes(cfg, s, a) {
        OvertakingBreaks(cfg, s, a);
      } else {
        StepKeepsInOrder(cfg, s, a);
      }
    }
  }

  /**
   Main result: the sinks are handed the chain in order, without holes, exactly on
   the schedules where nothing is handed over while an earlier audit or security
   call is still suspended at its flush.
   */
  lemma OrderKeptIffNeverOvertakes(cfg: Config, sinkCount: nat, actions: seq<Action>)
    ensures OrderKept(Run(cfg, sinkCount, actions)) <==> NeverOvertakes(cfg, sinkCount, actions)
  {
    var s := Run(cfg, sinkCount, actions);
    OrderAlongRun(cfg, sinkCount, actions);
    if InOrder(s) { assert s.h.emitted[..|Stream(s)|] == Stream(s); }
  }

  /** No accepted call starts while an audit or security call is suspended. */
  predicate Exclusive(cfg: Config, sinkCount: nat, actions: seq<Action>) {
    actions == []
    || (var front, a := actions[..|actions| - 1], actions[|actions| - 1];
        var s := Run(cfg, sinkCount, front);
        Exclusive(cfg, sinkCount, front) && (a.Log? && Accepts(cfg, s, a.input) ==> s.suspended == []))
  }

  ghost predicate OneAtMost(s: State) { |s.suspended| <= 1 && (s.suspended != [] ==> s.pending == []) }

  lemma ExclusiveStep(cfg: Config, s: State, a: Action)
    requires OneAtMost(s) && (a.Log? && Accepts(cfg, s, a.input) ==> s.suspended == [])
    ensures OneAtMost(Step(cfg, s, a)) && !Overtakes(cfg, s, a)
  {
  }

  /** Callers that wait for their audit calls keep the order. */
  lemma {:induction false} ExclusiveKeepsOrder(cfg: Config, sinkCount: nat, actions: seq<Action>)
    requires Exclusive(cfg, sinkCount, actions)
    ensures NeverOvertakes(cfg, sinkCount, actions)
    ensures OneAtMost(Run(cfg, sinkCount, actions))
  {
    if actions != [] {
      ExclusiveKeepsOrder(cfg, sinkCount, actions[..|actions| - 1]);
      ExclusiveStep(cfg, Run(cfg, sinkCount, actions[..|actions| - 1]), actions[|actions| - 1]);
    }
  }

  lemma RunNext(cfg: Config, sinkCount: nat, actions: seq<Action>, a: Action)
    ensures Run(cfg, sinkCount, actions + [a]) == Step(cfg, Run(cfg, sinkCount, actions), a)
  {
    DropLast(actions, a);
  }

  /** One app event pending, then two audit calls: the first waits for a delivery, the second for nothing. */
  lemma TwoAuditsSuspended(cfg: Config, app: LogInput, first: LogInput, second: LogInput, supply: Supply)
    requires app.category == App && first.category == Audit && second.category == Audit
    requires cfg.batchSize > 1 && Rank(app.level) >= Rank(cfg.level)
    requires cfg.codeAllowed(app.eventCode) && cfg.codeAllowed(first.eventCode) && cfg.codeAllowed(second.eventCode)
    ensures var s := Run(cfg, 1, [Log(app, supply)] + [Log(first, supply)] + [Log(second, supply)]);
            && |s.queue| == 1 && |s.queue[0].events| == 1 && s.queue[0].events[0].seqNo == 1
            && |s.suspended| == 2 && s.suspended[0].event.seqNo == 2 && s.suspended[1].event.seqNo == 3
            && s.suspended[0].waitsFor == 1 && s.suspended[1].waitsFor == 0
            && s.h.dequeued == [] && s.deliveredBatches == 0 && |s.h.sinks| == 1
  {
    hide Signed, PushRing;
    var a1, a2, a3 := Log(app, supply), Log(first, supply), Log(second, supply);
    assert [] + [a1] == [a1];
    RunNext(cfg, 1, [], a1);
    RunNext(cfg, 1, [a1], a2);
    RunNext(cfg, 1, [a1] + [a2], a3);
    var s1 := Run(cfg, 1, [a1]);
    SignedFields(cfg, START, app, supply);
    SignedFields(cfg, s1.chain, first, supply);
    SignedFields(cfg, Run(cfg, 1, [a1] + [a2]).chain, second, supply);
    assert s1.pending == [Signed(cfg, START, app, supply)] && s1.queue == [] && s1.suspended == [];
    var s2 := Run(cfg, 1, [a1] + [a2]);
    assert s2.pending == [] && s2.queue == [Batch(s1.pending, false)] && |s2.suspended| == 1;
  }

  /**
   Without that discipline the order is lost: the second audit call gets ahead of
   the first, and the sinks see numbers 1, 3, 2.
   */
  lemma OverlappingAuditsOvertake(cfg: Config, app: LogInput, first: LogInput, second: LogInput, supply: Supply)
    requires app.category == App && first.category == Audit && second.category == Audit
    requires cfg.batchSize > 1 && Rank(app.level) >= Rank(cfg.level)
    requires cfg.codeAllowed(app.eventCode) && cfg.codeAllowed(first.eventCode) && cfg.codeAllowed(second.eventCode)
    ensures var calls := [Log(app, supply)] + [Log(first, supply)] + [Log(second, supply)];
            var s := Run(cfg, 1, calls + [Resume(1)] + [Deliver([true])] + [Resume(0)]);
            && !OrderKept(s) && |Stream(s)| == 3
            && Stream(s)[0].seqNo == 1 && Stream(s)[1].seqNo == 3 && Stream(s)[2].seqNo == 2
  {
    var calls := [Log(app, supply)] + [Log(first, supply)] + [Log(second, supply)];
    TwoAuditsSuspended(cfg, app, first, second, supply);
    RunNext(cfg, 1, calls, Resume(1));
    RunNext(cfg, 1, calls + [Resume(1)], Deliver([true]));
    RunNext(cfg, 1, calls + [Resume(1)] + [Deliver([true])], Resume(0));
    SecondGoesFirst(cfg, Run(cfg, 1, calls));
    EmittedIsOneChain(cfg, 1, calls + [Resume(1)] + [Deliver([true])] + [Resume(0)]);
    OutOfSequence(cfg, Run(cfg, 1, calls + [Resume(1)] + [Deliver([true])] + [Resume(0)]));
  }

  lemma SecondGoesFirst(cfg: Config, s: State)
    requires |s.queue| == 1 && |s.queue[0].events| == 1 && s.h.dequeued == []
    requires |s.suspended| == 2 && s.suspended[0].waitsFor == 1 && s.suspended[1].waitsFor == 0
    requires s.deliveredBatches == 0 && |s.h.sinks| == 1
    ensures Stream(Step(cfg, Step(cfg, Step(cfg, s, Resume(1)), Deliver([true])), Resume(0))) ==
            [s.queue[0].events[0], s.suspended[1].event, s.suspended[0].event]
  {
    var t := Step(cfg, s, Resume(1));
    var u := Step(cfg, t, Deliver([true]));
    StreamGrows(cfg, s, Resume(1));
    StreamGrows(cfg, t, Deliver([true]));
    StreamGrows(cfg, u, Resume(0));
    assert Flat(s.queue) == s.queue[0].events + Flat([]);
    assert t.suspended == [s.suspended[0]] && u.suspended == t.suspended;
  }

  lemma OutOfSequence(cfg: Config, s: State)
    requires ChainHolds(cfg, s) && |Stream(s)| > 1 && Stream(s)[1].seqNo == 3
    ensures !OrderKept(s)
  {
    assert |s.h.emitted| > 1 ==> VerifyChain.ChainedAt(s.h.emitted, cfg.key, 1);
  }
}
