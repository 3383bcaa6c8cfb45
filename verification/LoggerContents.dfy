/** What the logger's events say: the call's own words, and no secret, wherever the event ends up. */
module LoggerContents {
  import opened Prelude
  import Json
  import opened Pipeline
  import opened TamperLogger
  import opened LoggerRuns
  import opened LoggerFile

  ghost predicate Redaction(context: Option<Json.Json>, original: Option<Json.Json>, keys: seq<string>) {
    && context.Some? == original.Some?
    && (context.Some? ==> SecretFree(context.value, keys) && EqualOutsideSecrets(context.value, original.value, keys))
  }

  /** The event says what the call said, but for secrets, and what the environment supplied for what the call left out. */
  ghost predicate Tells(e: LogEvent, input: LogInput, supply: Supply, keys: seq<string>) {
    && e.level == input.level && e.category == input.category
    && e.eventCode == input.eventCode && e.message == input.message
    && Redaction(e.context, input.context, keys)
    && e.correlationId == Some(if input.correlationId.Some? then input.correlationId.value else supply.correlationId)
    && e.service == Some(if input.service.Some? then input.service.value else supply.service)
    && e.host == Some(if input.host.Some? then input.host.value else supply.host)
    && e.ts == (if input.ts.Some? then input.ts.value else supply.now)
  }

  lemma RedactedTwice(v: Json.Json, keys: seq<string>)
    ensures SecretFree(Redacted(v, keys), keys) && EqualOutsideSecrets(Redacted(v, keys), v, keys)
  {
    RedactionRemovesSecrets(v, keys);
    RedactionRemovesSecrets(Redacted(v, keys), keys);
    RedactionKeepsTheRest(Redacted(v, keys), v, keys);
  }

  lemma SignedTells(cfg: Config, chain: SigningState, input: LogInput, supply: Supply)
    ensures Tells(Signed(cfg, chain, input, supply), input, supply, cfg.redactionKeys)
  {
    hide Redacted, SecretFree, EqualOutsideSecrets, Canonical;
    if input.context.Some? { RedactedTwice(input.context.value, cfg.redactionKeys); }
  }

  // -------------------------------------------------------------- which calls count

  /** The levels that pass a threshold. */
  function AtLeast(threshold: Level): set<Level> {
    match threshold
    case Debug => {Debug, Info, Warn, Error, Fatal}
    case Info => {Info, Warn, Error, Fatal}
    case Warn => {Warn, Error, Fatal}
    case Error => {Error, Fatal}
    case Fatal => {Fatal}
  }

  /** Refused after close or for its code; ignored only as an app event below the threshold. */
  lemma AcceptsIff(cfg: Config, s: State, input: LogInput)
    ensures Accepts(cfg, s, input) <==>
            !s.closed && cfg.codeAllowed(input.eventCode) && (input.category != App || input.level in AtLeast(cfg.level))
  {
  }

  /** After any schedule: a call that counts emits one event, which tells what the call said; any other emits nothing. */
  lemma CallIsTold(cfg: Config, sinkCount: nat, front: seq<Action>, input: LogInput, supply: Supply)
    ensures var s, t := Run(cfg, sinkCount, front), Run(cfg, sinkCount, front + [Log(input, supply)]);
      if !s.closed && cfg.codeAllowed(input.eventCode) && (input.category != App || input.level in AtLeast(cfg.level))
      then |t.h.emitted| == |s.h.emitted| + 1 && s.h.emitted <= t.h.emitted
           && Tells(t.h.emitted[|s.h.emitted|], input, supply, cfg.redactionKeys)
      else t == s
  {
    hide Tells, Signed;
    var s := Run(cfg, sinkCount, front);
    DropLast(front, Log(input, supply));
    AcceptsIff(cfg, s, input);
    StepOnChain(cfg, s, Log(input, supply));
    SignedTells(cfg, s.chain, input, supply);
  }

  // ------------------------------------------------------------ no secret anywhere

  ghost predicate NoSecret(e: LogEvent, keys: seq<string>) { e.context.Some? ==> SecretFree(e.context.value, keys) }

  ghost predicate NoSecrets(events: seq<LogEvent>, keys: seq<string>) { forall e | e in events :: NoSecret(e, keys) }

  lemma {:induction false} EmittedHasNoSecrets(cfg: Config, sinkCount: nat, actions: seq<Action>)
    ensures NoSecrets(Run(cfg, sinkCount, actions).h.emitted, cfg.redactionKeys)
  {
    hide Signed, NoSecret;
    if actions != [] {
      var front, a := actions[..|actions| - 1], actions[|actions| - 1];
      var s := Run(cfg, sinkCount, front);
      EmittedHasNoSecrets(cfg, sinkCount, front);
      StepOnChain(cfg, s, a);
      if a.Log? && Accepts(cfg, s, a.input) { ToldHasNoSecret(cfg, s.chain, a.input, a.supply); }
    }
  }

  lemma ToldHasNoSecret(cfg: Config, chain: SigningState, input: LogInput, supply: Supply)
    ensures NoSecret(Signed(cfg, chain, input, supply), cfg.redactionKeys)
  {
    hide Signed;
    SignedTells(cfg, chain, input, supply);
  }

  /** Whatever a sink holds was delivered, and what was delivered was emitted. */
  lemma SinkHoldsEmitted(cfg: Config, sinkCount: nat, actions: seq<Action>, k: nat)
    requires k < sinkCount
    ensures var s := Run(cfg, sinkCount, actions);
      |s.h.sinks| == sinkCount && forall e | e in s.h.sinks[k] :: e in s.h.emitted
  {
    var s := Run(cfg, sinkCount, actions);
    FileAndRefusedSplit(cfg, sinkCount, actions, k);
    RunIsWhole(cfg, sinkCount, actions);
    forall e | e in s.h.sinks[k] ensures e in s.h.emitted {
      assert e in multiset(s.h.sinks[k]) && e in multiset(s.h.dequeued) && e in s.h.dequeued && e in Stream(s);
      assert e in multiset(Stream(s)) && e in multiset(s.h.emitted);
    }
  }

  /**
   Main result: on every schedule no event holds a value under a sensitive key, neither as it was
   signed nor in the ring nor in any sink's file.
   */
  lemma NoSecretIsLogged(cfg: Config, sinkCount: nat, actions: seq<Action>)
    ensures var s := Run(cfg, sinkCount, actions);
      && NoSecrets(s.h.emitted, cfg.redactionKeys) && NoSecrets(s.ring, cfg.redactionKeys)
      && |s.h.sinks| == sinkCount && forall k | 0 <= k < sinkCount :: NoSecrets(s.h.sinks[k], cfg.redactionKeys)
  {
    var s := Run(cfg, sinkCount, actions);
    EmittedHasNoSecrets(cfg, sinkCount, actions);
    EmittedIsOneChain(cfg, sinkCount, actions);
    assert forall e | e in s.ring :: e in s.h.emitted;
    SinkCountStays(cfg, sinkCount, actions);
    forall k | 0 <= k < sinkCount ensures NoSecrets(s.h.sinks[k], cfg.redactionKeys) {
      SinkHoldsEmitted(cfg, sinkCount, actions, k);
    }
  }

  lemma {:induction false} SinkCountStays(cfg: Config, sinkCount: nat, actions: seq<Action>)
    ensures |Run(cfg, sinkCount, actions).h.sinks| == sinkCount
  {
    if actions != [] { SinkCountStays(cfg, sinkCount, actions[..|actions| - 1]); }
  }

  // ---------------------------------------------- an audit call goes after its flush

  /** The event was delivered, or is in one of the first `n` queued batches. */
  ghost predicate Placed(s: State, x: LogEvent, n: int) {
    x in s.h.dequeued || exists b :: 0 <= b < n && b < |s.queue| && x in s.queue[b].events
  }

  ghost predicate AllPlaced(s: State) {
    forall x | x in s.h.emitted && x.category == App :: Placed(s, x, |s.queue|) || x in s.pending
  }

  /** What was logged before a suspended call that waits is delivered with the batches it waits for. */
  ghost predicate WaitsForAll(s: State, c: Call) {
    && 1 <= c.event.seqNo <= |s.h.emitted| && c.waitsFor <= s.enqueuedBatches
    && (c.waitsFor > 0 ==>
          forall x | x in s.h.emitted[..c.event.seqNo - 1] && x.category == App :: Placed(s, x, c.waitsFor - s.deliveredBatches))
  }

  ghost predicate FlushesHold(s: State) {
    && s.deliveredBatches + |s.queue| == s.enqueuedBatches && AllPlaced(s)
    && forall i | 0 <= i < |s.suspended| :: WaitsForAll(s, s.suspended[i])
  }

  /** The queue grew at its end, the chain perhaps too. */
  ghost predicate Later(s: State, t: State) {
    && s.h.dequeued == t.h.dequeued && s.queue <= t.queue && s.h.emitted <= t.h.emitted
    && t.deliveredBatches == s.deliveredBatches && s.enqueuedBatches <= t.enqueuedBatches
  }

  lemma StillWaits(s: State, t: State, c: Call)
    requires Later(s, t) && WaitsForAll(s, c)
    ensures WaitsForAll(t, c)
  {
    if c.waitsFor > 0 {
      assert t.h.emitted[..c.event.seqNo - 1] == s.h.emitted[..c.event.seqNo - 1];
      forall x | x in t.h.emitted[..c.event.seqNo - 1] && x.category == App
        ensures Placed(t, x, c.waitsFor - t.deliveredBatches)
      {
        assert Placed(s, x, c.waitsFor - s.deliveredBatches);
        StillPlaced(s, t, x, c.waitsFor - s.deliveredBatches);
      }
    }
  }

  lemma StillPlaced(s: State, t: State, x: LogEvent, n: int)
    requires Later(s, t) && Placed(s, x, n)
    ensures Placed(t, x, n)
  {
    if x !in s.h.dequeued {
      var b :| 0 <= b < n && b < |s.queue| && x in s.queue[b].events;
      assert t.queue[b] == s.queue[b];
    }
  }

  lemma FlushPlacesAll(s: State)
    requires FlushesHold(s)
    ensures FlushesHold(Flushed(s)) && Later(s, Flushed(s))
    ensures forall x | x in s.h.emitted && x.category == App :: Placed(Flushed(s), x, |Flushed(s).queue|)
  {
    var t := Flushed(s);
    forall x | x in s.h.emitted && x.category == App ensures Placed(t, x, |t.queue|) {
      if Placed(s, x, |s.queue|) {
        StillPlaced(s, t, x, |s.queue|);
      } else {
        assert x in t.queue[|s.queue|].events;
      }
    }
    forall i | 0 <= i < |t.suspended| ensures WaitsForAll(t, t.suspended[i]) { StillWaits(s, t, s.suspended[i]); }
  }

  lemma AppKeepsFlushes(s: State, t: State, e: LogEvent)
    requires FlushesHold(s) && e.category == App
    requires t.h.emitted == s.h.emitted + [e] && t.pending == s.pending + [e] && t.queue == s.queue && t.suspended == s.suspended
    requires Later(s, t) && t.enqueuedBatches == s.enqueuedBatches
    ensures FlushesHold(t)
  {
    forall x | x in t.h.emitted && x.category == App ensures Placed(t, x, |t.queue|) || x in t.pending {
      if x in s.h.emitted && Placed(s, x, |s.queue|) { StillPlaced(s, t, x, |s.queue|); }
    }
    forall i | 0 <= i < |t.suspended| ensures WaitsForAll(t, t.suspended[i]) { StillWaits(s, t, s.suspended[i]); }
  }

  /** An audit call joins: it waits for everything logged before it when it found something to flush. */
  lemma AuditKeepsFlushes(s: State, t: State, e: LogEvent, u: State)
    requires FlushesHold(s) && e.category != App && e.seqNo == |s.h.emitted| + 1
    requires t == Flushed(s) && Later(t, u) && u.h.emitted == s.h.emitted + [e] && u.queue == t.queue && u.pending == t.pending
    requires u.enqueuedBatches == t.enqueuedBatches
    requires u.suspended == t.suspended + [Call(e, if s.pending == [] then 0 else t.enqueuedBatches)]
    ensures FlushesHold(u)
  {
    FlushPlacesAll(s);
    forall x | x in u.h.emitted && x.category == App ensures Placed(u, x, |u.queue|) || x in u.pending {
      StillPlaced(t, u, x, |t.queue|);
    }
    assert u.h.emitted[..e.seqNo - 1] == s.h.emitted;
    var c := u.suspended[|t.suspended|];
    forall x | x in s.h.emitted && x.category == App ensures Placed(u, x, |u.queue|) { StillPlaced(t, u, x, |t.queue|); }
    assert WaitsForAll(u, c);
    forall i | 0 <= i < |t.suspended| ensures WaitsForAll(u, u.suspended[i]) { StillWaits(t, u, t.suspended[i]); }
  }

  lemma LogKeepsFlushes(cfg: Config, s: State, input: LogInput, supply: Supply)
    requires FlushesHold(s) && ChainHolds(cfg, s) && Accepts(cfg, s, input)
    ensures FlushesHold(AfterLog(cfg, s, input, supply))
  {
    hide Signed, FlushesHold, ChainHolds, Later, PushRing;
    var e := Signed(cfg, s.chain, input, supply);
    SignedFields(cfg, s.chain, input, supply);
    var t := Appended(cfg, s, e);
    if input.category == App {
      var u := t.(pending := t.pending + [e]);
      AppendedLater(s, u, e);
      AppKeepsFlushes(s, u, e);
      FlushPlacesAll(u);
    } else {
      var f, u := Flushed(s), AfterLog(cfg, s, input, supply);
      ChainNumber(cfg, s);
      AppendedLater(f, u, e);
      AuditKeepsFlushes(s, f, e, u);
    }
  }

  lemma AppendedLater(s: State, t: State, e: LogEvent)
    requires t.h.dequeued == s.h.dequeued && t.queue == s.queue && t.h.emitted == s.h.emitted + [e]
    requires t.deliveredBatches == s.deliveredBatches && t.enqueuedBatches == s.enqueuedBatches
    ensures Later(s, t)
  {
  }

  lemma ChainNumber(cfg: Config, s: State)
    requires ChainHolds(cfg, s)
    ensures s.chain.seqNo == |s.h.emitted| + 1
  {
  }

  lemma ResumeKeepsFlushes(s: State, i: nat)
    requires FlushesHold(s) && i < |s.suspended|
    ensures FlushesHold(AfterResume(s, i))
  {
    var t := AfterResume(s, i);
    forall x | x in t.h.emitted && x.category == App ensures Placed(t, x, |t.queue|) || x in t.pending {
      if Placed(s, x, |s.queue|) { StillPlaced(s, t, x, |s.queue|); }
    }
    forall j | 0 <= j < |t.suspended| ensures WaitsForAll(t, t.suspended[j]) {
      StillWaits(s, t, s.suspended[if j < i then j else j + 1]);
    }
  }

  lemma DeliveredIsPlaced(s: State, accepted: seq<bool>, x: LogEvent, n: int)
    requires s.queue != [] && |accepted| == |s.h.sinks| && Placed(s, x, n)
    ensures Placed(AfterDeliver(s, accepted), x, n - 1)
  {
    var t := AfterDeliver(s, accepted);
    assert t.queue == s.queue[1..] && t.h.dequeued == s.h.dequeued + s.queue[0].events;
    if x !in s.h.dequeued {
      var b :| 0 <= b < n && b < |s.queue| && x in s.queue[b].events;
      if b > 0 { assert t.queue[b - 1] == s.queue[b]; }
    }
  }

  lemma DeliverKeepsFlushes(s: State, accepted: seq<bool>)
    requires FlushesHold(s) && s.queue != [] && |accepted| == |s.h.sinks|
    ensures FlushesHold(AfterDeliver(s, accepted))
  {
    hide Placed;
    var t := AfterDeliver(s, accepted);
    assert t.h.emitted == s.h.emitted && t.suspended == s.suspended && t.pending == s.pending;
    assert t.deliveredBatches == s.deliveredBatches + 1 && t.enqueuedBatches == s.enqueuedBatches && |t.queue| == |s.queue| - 1;
    forall x, n | Placed(s, x, n) ensures Placed(t, x, n - 1) { DeliveredIsPlaced(s, accepted, x, n); }
    forall x | x in t.h.emitted && x.category == App ensures Placed(t, x, |t.queue|) || x in t.pending {
      assert Placed(s, x, |s.queue|) || x in s.pending;
    }
    forall i | 0 <= i < |t.suspended| ensures WaitsForAll(t, t.suspended[i]) { assert WaitsForAll(s, s.suspended[i]); }
  }

  lemma {:induction false} FlushesHoldOnRuns(cfg: Config, sinkCount: nat, actions: seq<Action>)
    ensures FlushesHold(Run(cfg, sinkCount, actions))
  {
    hide FlushesHold, ChainHolds, AfterLog, AfterDeliver, Flushed, AfterResume;
    if actions == [] {
      NothingToFlush(sinkCount);
    } else {
      var front, a := actions[..|actions| - 1], actions[|actions| - 1];
      var s := Run(cfg, sinkCount, front);
      FlushesHoldOnRuns(cfg, sinkCount, front);
      EmittedIsOneChain(cfg, sinkCount, front);
      if Enabled(s, a) {
        match a
        case Log(input, supply) =>
          if Accepts(cfg, s, input) { LogKeepsFlushes(cfg, s, input, supply); } else { RefusedIsIgnored(cfg, s, input, supply); }
        case Resume(i) => ResumeKeepsFlushes(s, i);
        case Deliver(accepted) => DeliverKeepsFlushes(s, accepted);
        case Timer => FlushPlacesAll(s);
        case Close => ClosedFlushes(s);
      }
    }
  }

  lemma RefusedIsIgnored(cfg: Config, s: State, input: LogInput, supply: Supply)
    requires !Accepts(cfg, s, input)
    ensures AfterLog(cfg, s, input, supply) == s
  {
  }

  lemma NothingToFlush(sinkCount: nat)
    ensures FlushesHold(Initial(sinkCount))
  {
  }

  lemma ClosedFlushes(s: State)
    requires FlushesHold(s)
    ensures FlushesHold(Flushed(s.(closed := true)))
  {
    var t := s.(closed := true);
    assert forall x, n :: Placed(s, x, n) ==> Placed(t, x, n);
    forall i | 0 <= i < |t.suspended| ensures WaitsForAll(t, t.suspended[i]) { StillWaits(s, t, s.suspended[i]); }
    FlushPlacesAll(t);
  }

  /**
   On every schedule: an audit call that found app events pending goes on only when every app event
   logged before it has been delivered.
   */
  lemma AuditGoesAfterItsFlush(cfg: Config, sinkCount: nat, actions: seq<Action>, i: nat)
    requires i < |Run(cfg, sinkCount, actions).suspended| && Enabled(Run(cfg, sinkCount, actions), Resume(i))
    requires Run(cfg, sinkCount, actions).suspended[i].waitsFor > 0
    ensures var s := Run(cfg, sinkCount, actions);
      var e := s.suspended[i].event;
      1 <= e.seqNo <= |s.h.emitted| && forall x | x in s.h.emitted[..e.seqNo - 1] && x.category == App :: x in s.h.dequeued
  {
    var s := Run(cfg, sinkCount, actions);
    FlushesHoldOnRuns(cfg, sinkCount, actions);
    var c := s.suspended[i];
    assert WaitsForAll(s, c);
    forall x | x in s.h.emitted[..c.event.seqNo - 1] && x.category == App ensures x in s.h.dequeued {
      assert Placed(s, x, c.waitsFor - s.deliveredBatches);
    }
  }

  /** And a call waits exactly when it finds something pending. */
  lemma WaitsIfPending(cfg: Config, sinkCount: nat, front: seq<Action>, input: LogInput, supply: Supply)
    requires var s := Run(cfg, sinkCount, front); Accepts(cfg, s, input) && input.category != App
    ensures var s, t := Run(cfg, sinkCount, front), Run(cfg, sinkCount, front + [Log(input, supply)]);
      && |t.suspended| == |s.suspended| + 1 && t.pending == []
      && (t.suspended[|s.suspended|].waitsFor > 0 <==> s.pending != [])
  {
    hide Signed;
    DropLast(front, Log(input, supply));
  }
}
