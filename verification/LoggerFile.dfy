/** The logger and the offline verifier together: what the verifier says of a file a sink wrote. */
module LoggerFile {
  import opened Prelude
  import opened Pipeline
  import opened TamperLogger
  import opened LoggerRuns
  import opened VerifyChain

  /** Chain positions of a file's events, read off their sequence numbers. */
  ghost function Positions(file: seq<LogEvent>): (r: seq<nat>)
    ensures |r| == |file|
  {
    seq(|file|, i requires 0 <= i < |file| => if file[i].seqNo < 1 then 0 else file[i].seqNo - 1)
  }

  /** The file is a selection of the first `bound` emitted events, in chain order. */
  ghost predicate Selects(file: seq<LogEvent>, emitted: seq<LogEvent>, bound: nat) {
    && bound <= |emitted|
    && (forall i | 0 <= i < |file| :: 1 <= file[i].seqNo <= bound && file[i] == emitted[file[i].seqNo - 1])
    && (forall i, j | 0 <= i < j < |file| :: file[i].seqNo < file[j].seqNo)
  }

  ghost predicate SinksSelect(s: State) {
    forall k | 0 <= k < |s.h.sinks| :: Selects(s.h.sinks[k], s.h.emitted, |s.h.dequeued|)
  }

  lemma SelectsMore(file: seq<LogEvent>, emitted: seq<LogEvent>, bound: nat, batch: seq<LogEvent>, key: string)
    requires Selects(file, emitted, bound) && IsRun(emitted, key)
    requires bound + |batch| <= |emitted| && forall i | 0 <= i < |batch| :: batch[i] == emitted[bound + i]
    ensures Selects(file, emitted, bound + |batch|) && Selects(file + batch, emitted, bound + |batch|)
  {
    forall i | 0 <= i < |batch| ensures batch[i].seqNo == bound + i + 1 {
      assert ChainedAt(emitted, key, bound + i);
    }
  }

  lemma HeadFollows(s: State)
    requires InOrder(s) && s.queue != []
    ensures |s.h.dequeued| + |s.queue[0].events| <= |s.h.emitted|
    ensures forall i | 0 <= i < |s.queue[0].events| :: s.queue[0].events[i] == s.h.emitted[|s.h.dequeued| + i]
  {
    var events := s.queue[0].events;
    forall i | 0 <= i < |events| ensures events[i] == s.h.emitted[|s.h.dequeued| + i] {
      assert Stream(s)[|s.h.dequeued| + i] == events[i];
    }
  }

  lemma DeliverShape(s: State, accepted: seq<bool>)
    requires s.queue != [] && |accepted| == |s.h.sinks|
    ensures var t := AfterDeliver(s, accepted);
      && t.h.emitted == s.h.emitted && t.h.dequeued == s.h.dequeued + s.queue[0].events
      && t.h.sinks == SinksAfter(s.h.sinks, accepted, s.queue[0].events)
  {
  }

  lemma DeliverKeepsSelecting(cfg: Config, s: State, t: State, accepted: seq<bool>)
    requires SinksSelect(s) && InOrder(s) && IsRun(s.h.emitted, cfg.key) && s.queue != [] && |accepted| == |s.h.sinks|
    requires t.h.emitted == s.h.emitted && t.h.dequeued == s.h.dequeued + s.queue[0].events
    requires t.h.sinks == SinksAfter(s.h.sinks, accepted, s.queue[0].events)
    ensures SinksSelect(t)
  {
    hide InOrder, IsRun, Selects;
    HeadFollows(s);
    forall k | 0 <= k < |t.h.sinks| ensures Selects(t.h.sinks[k], t.h.emitted, |t.h.dequeued|) {
      SelectsMore(s.h.sinks[k], s.h.emitted, |s.h.dequeued|, s.queue[0].events, cfg.key);
    }
  }

  lemma OthersKeepSinks(cfg: Config, s: State, a: Action)
    requires !a.Deliver?
    ensures var t := Step(cfg, s, a);
      t.h.sinks == s.h.sinks && t.h.dequeued == s.h.dequeued && t.h.emitted == s.h.emitted + Grown(cfg, s, a)
  {
  }

  lemma SelectsFromMore(file: seq<LogEvent>, emitted: seq<LogEvent>, more: seq<LogEvent>, bound: nat)
    requires Selects(file, emitted, bound)
    ensures Selects(file, emitted + more, bound)
  {
  }

  lemma StepKeepsSelecting(cfg: Config, s: State, a: Action)
    requires SinksSelect(s) && InOrder(s) && IsRun(s.h.emitted, cfg.key)
    ensures SinksSelect(Step(cfg, s, a))
  {
    var t := Step(cfg, s, a);
    if a.Deliver? {
      if Enabled(s, a) {
        DeliverShape(s, a.accepted);
        DeliverKeepsSelecting(cfg, s, t, a.accepted);
      }
    } else {
      OthersKeepSinks(cfg, s, a);
      forall k | 0 <= k < |t.h.sinks| ensures Selects(t.h.sinks[k], t.h.emitted, |t.h.dequeued|) {
        SelectsFromMore(s.h.sinks[k], s.h.emitted, Grown(cfg, s, a), |s.h.dequeued|);
      }
    }
  }

  lemma {:induction false} RunSelects(cfg: Config, sinkCount: nat, actions: seq<Action>)
    requires NeverOvertakes(cfg, sinkCount, actions)
    ensures SinksSelect(Run(cfg, sinkCount, actions))
  {
    if actions != [] {
      var front := actions[..|actions| - 1];
      RunSelects(cfg, sinkCount, front);
      OrderAlongRun(cfg, sinkCount, front);
      StepKeepsSelecting(cfg, Run(cfg, sinkCount, front), actions[|actions| - 1]);
    }
  }

  lemma SelectionSurvives(file: seq<LogEvent>, emitted: seq<LogEvent>, bound: nat)
    requires Selects(file, emitted, bound)
    ensures Increasing(Positions(file), bound) && Increasing(Positions(file), |emitted|)
    ensures Survivors(emitted, Positions(file)) == file
  {
  }

  /** Events of the batches that sink `k` refused, in delivery order. */
  ghost function RefusedBy(cfg: Config, sinkCount: nat, actions: seq<Action>, k: nat): seq<LogEvent> {
    if actions == [] then []
    else
      var front, a := actions[..|actions| - 1], actions[|actions| - 1];
      var s := Run(cfg, sinkCount, front);
      RefusedBy(cfg, sinkCount, front, k)
      + (if a.Deliver? && Enabled(s, a) && k < |a.accepted| && !a.accepted[k] then s.queue[0].events else [])
  }

  lemma SinkSplitStep(cfg: Config, s: State, a: Action, k: nat, refused: seq<LogEvent>)
    requires k < |s.h.sinks| && multiset(s.h.sinks[k]) + multiset(refused) == multiset(s.h.dequeued)
    ensures var t := Step(cfg, s, a);
      var more := if a.Deliver? && Enabled(s, a) && !a.accepted[k] then s.queue[0].events else [];
      |t.h.sinks| == |s.h.sinks| && multiset(t.h.sinks[k]) + multiset(refused + more) == multiset(t.h.dequeued)
  {
    if a.Deliver? && Enabled(s, a) {
      DeliverShape(s, a.accepted);
    } else {
      assert refused + [] == refused;
      if !a.Deliver? { OthersKeepSinks(cfg, s, a); }
    }
  }

  /** What was delivered is in a sink's file or was refused by it. */
  lemma {:induction false} FileAndRefusedSplit(cfg: Config, sinkCount: nat, actions: seq<Action>, k: nat)
    requires k < sinkCount
    ensures var s := Run(cfg, sinkCount, actions);
      |s.h.sinks| == sinkCount
      && multiset(s.h.sinks[k]) + multiset(RefusedBy(cfg, sinkCount, actions, k)) == multiset(s.h.dequeued)
  {
    hide Step;
    if actions != [] {
      var front, a := actions[..|actions| - 1], actions[|actions| - 1];
      FileAndRefusedSplit(cfg, sinkCount, front, k);
      SinkSplitStep(cfg, Run(cfg, sinkCount, front), a, k, RefusedBy(cfg, sinkCount, front, k));
    } else {
      assert Run(cfg, sinkCount, actions).h.sinks[k] == [];
    }
  }

  lemma PositionIffInFile(file: seq<LogEvent>, emitted: seq<LogEvent>, bound: nat, key: string, i: nat)
    requires Selects(file, emitted, bound) && IsRun(emitted, key) && i < |emitted|
    ensures i in Positions(file) <==> emitted[i] in file
  {
    if i in Positions(file) {
      var j :| 0 <= j < |file| && Positions(file)[j] == i;
      assert file[j] == emitted[i];
    }
    if emitted[i] in file {
      var j :| 0 <= j < |file| && file[j] == emitted[i];
      assert ChainedAt(emitted, key, i);
      assert Positions(file)[j] == i;
    }
  }

  lemma InOneOfTwo(whole: multiset<LogEvent>, a: multiset<LogEvent>, b: multiset<LogEvent>, e: LogEvent)
    requires a + b == whole && whole[e] == 1
    ensures e in a <==> e !in b
  {
  }

  /** A delivered event is missing from a sink's file exactly when its batch was refused. */
  lemma MissingIffRefused(file: seq<LogEvent>, refused: seq<LogEvent>, dequeued: seq<LogEvent>, emitted: seq<LogEvent>,
                          key: string, i: nat)
    requires dequeued <= emitted && IsRun(emitted, key) && Selects(file, emitted, |dequeued|)
    requires multiset(file) + multiset(refused) == multiset(dequeued) && i < |dequeued|
    ensures i in Positions(file) <==> emitted[i] !in refused
  {
    forall j | 0 <= j < |dequeued| ensures ChainedAt(dequeued, key, j) { assert ChainedAt(emitted, key, j); }
    OnceInRun(dequeued, dequeued[i], key);
    assert dequeued[i] in multiset(dequeued);
    InOneOfTwo(multiset(dequeued), multiset(file), multiset(refused), dequeued[i]);
    PositionIffInFile(file, emitted, |dequeued|, key, i);
  }

  /**
   Main result: whatever the sinks refuse, as long as nothing overtakes a suspended
   call, a sink's file lacks exactly the events of the batches it refused, and the
   verifier reports one `missing_event` at the first event after each such gap.
   */
  lemma VerifierReportsLostBatches(cfg: Config, sinkCount: nat, actions: seq<Action>, k: nat)
    requires NeverOvertakes(cfg, sinkCount, actions) && k < sinkCount
    ensures var s := Run(cfg, sinkCount, actions);
            && |s.h.sinks| == sinkCount && |s.h.dequeued| <= |s.h.emitted|
            && var file := s.h.sinks[k];
            && Increasing(Positions(file), |s.h.dequeued|) && file == Survivors(s.h.emitted, Positions(file))
            && (forall i | 0 <= i < |s.h.dequeued| ::
                  i in Positions(file) <==> s.h.emitted[i] !in RefusedBy(cfg, sinkCount, actions, k))
            && Verdict(file, cfg.key).violations == GapReports(Positions(file), |file|)
  {
    var s := Run(cfg, sinkCount, actions);
    FileAndRefusedSplit(cfg, sinkCount, actions, k);
    var file := s.h.sinks[k];
    RunSelects(cfg, sinkCount, actions);
    OrderAlongRun(cfg, sinkCount, actions);
    DequeuedIsPrefix(s);
    SelectionSurvives(file, s.h.emitted, |s.h.dequeued|);
    DeletionsReported(s.h.emitted, Positions(file), cfg.key);
    forall i | 0 <= i < |s.h.dequeued|
      ensures i in Positions(file) <==> s.h.emitted[i] !in RefusedBy(cfg, sinkCount, actions, k)
    {
      MissingIffRefused(file, RefusedBy(cfg, sinkCount, actions, k), s.h.dequeued, s.h.emitted, cfg.key, i);
    }
  }

  lemma DequeuedIsPrefix(s: State)
    requires InOrder(s)
    ensures s.h.dequeued <= s.h.emitted
  {
    Assoc(Stream(s), CallEvents(s.suspended), s.pending);
    Assoc(s.h.dequeued, Flat(s.queue), CallEvents(s.suspended) + s.pending);
    assert s.h.emitted == s.h.dequeued + (Flat(s.queue) + (CallEvents(s.suspended) + s.pending));
  }

  // --------------------------------------------------------- a reliable sink

  /** Sink `k` never refuses a batch. */
  predicate Reliable(actions: seq<Action>, k: nat) {
    forall a | a in actions :: a.Deliver? && k < |a.accepted| ==> a.accepted[k]
  }

  lemma {:induction false} ReliableSinkHasAll(cfg: Config, sinkCount: nat, actions: seq<Action>, k: nat)
    requires Reliable(actions, k) && k < sinkCount
    ensures var s := Run(cfg, sinkCount, actions); |s.h.sinks| == sinkCount && s.h.sinks[k] == s.h.dequeued
  {
    if actions != [] {
      var front, a := actions[..|actions| - 1], actions[|actions| - 1];
      assert a in actions && forall b | b in front :: b in actions;
      ReliableSinkHasAll(cfg, sinkCount, front, k);
      var s := Run(cfg, sinkCount, front);
      if a.Deliver? && Enabled(s, a) {
        assert Step(cfg, s, a).h.sinks == SinksAfter(s.h.sinks, a.accepted, s.queue[0].events);
      }
    }
  }

  ghost predicate Whole(s: State) {
    multiset(s.h.emitted) == multiset(Stream(s)) + multiset(CallEvents(s.suspended)) + multiset(s.pending)
  }

  lemma FlushKeepsWhole(s: State)
    requires Whole(s)
    ensures Whole(Flushed(s))
  {
    FlushStream(s);
  }

  lemma AppKeepsWhole(s: State, t: State, e: LogEvent)
    requires Whole(s) && Stream(t) == Stream(s) && t.suspended == s.suspended
    requires t.h.emitted == s.h.emitted + [e] && t.pending == s.pending + [e]
    ensures Whole(t)
  {
  }

  lemma AuditKeepsWhole(s: State, t: State, e: LogEvent, n: nat)
    requires Whole(s) && Stream(t) == Stream(s) && t.suspended == s.suspended + [Call(e, n)]
    requires t.h.emitted == s.h.emitted + [e] && t.pending == s.pending
    ensures Whole(t)
  {
    CallEventsNext(s.suspended, e);
  }

  lemma LogKeepsWhole(cfg: Config, s: State, input: LogInput, supply: Supply)
    requires Whole(s) && Accepts(cfg, s, input)
    ensures Whole(AfterLog(cfg, s, input, supply))
  {
    var e := Signed(cfg, s.chain, input, supply);
    var t := Appended(cfg, s, e);
    if input.category == App {
      var u := t.(pending := t.pending + [e]);
      AppKeepsWhole(s, u, e);
      FlushKeepsWhole(u);
    } else {
      FlushKeepsWhole(s);
      AuditKeepsWhole(Flushed(s), AfterLog(cfg, s, input, supply), e,
                      if t.pending == [] then 0 else Flushed(t).enqueuedBatches);
    }
  }

  lemma ResumeKeepsWhole(s: State, i: nat)
    requires Whole(s) && i < |s.suspended|
    ensures Whole(AfterResume(s, i))
  {
    var e := s.suspended[i].event;
    ResumeStream(s, i);
    CallsWithout(s.suspended, i);
    RemoveAt(CallEvents(s.suspended), i);
  }

  lemma DeliverKeepsWhole(s: State, accepted: seq<bool>)
    requires Whole(s) && s.queue != [] && |accepted| == |s.h.sinks|
    ensures Whole(AfterDeliver(s, accepted))
  {
    DeliverStream(s, accepted);
    var t := AfterDeliver(s, accepted);
    assert t.suspended == s.suspended && t.pending == s.pending;
  }

  lemma StepKeepsWhole(cfg: Config, s: State, a: Action)
    requires Whole(s)
    ensures Whole(Step(cfg, s, a))
  {
    if Enabled(s, a) {
      match a
      case Log(input, supply) => if Accepts(cfg, s, input) { LogKeepsWhole(cfg, s, input, supply); }
      case Resume(i) => ResumeKeepsWhole(s, i);
      case Deliver(accepted) => DeliverKeepsWhole(s, accepted);
      case Timer => FlushKeepsWhole(s);
      case Close => FlushKeepsWhole(s.(closed := true));
    }
  }

  lemma {:induction false} RunIsWhole(cfg: Config, sinkCount: nat, actions: seq<Action>)
    ensures Whole(Run(cfg, sinkCount, actions))
  {
    if actions != [] {
      RunIsWhole(cfg, sinkCount, actions[..|actions| - 1]);
      StepKeepsWhole(cfg, Run(cfg, sinkCount, actions[..|actions| - 1]), actions[|actions| - 1]);
    }
  }

  lemma TwiceMeansTwo(s: seq<LogEvent>, i: nat, j: nat)
    requires i < j < |s| && s[i] == s[j]
    ensures multiset(s)[s[i]] >= 2
  {
    assert s == (s[..i] + [s[i]] + s[i + 1..j]) + ([s[j]] + s[j + 1..]);
  }

  lemma {:induction false} OnceInRun(r: seq<LogEvent>, e: LogEvent, key: string)
    requires IsRun(r, key)
    ensures multiset(r)[e] <= 1
  {
    if r != [] {
      var front, last := r[..|r| - 1], r[|r| - 1];
      forall i | 0 <= i < |front| ensures ChainedAt(front, key, i) { assert ChainedAt(r, key, i); }
      OnceInRun(front, e, key);
      assert r == front + [last];
      if e == last {
        forall i | 0 <= i < |front| ensures front[i] != e {
          assert ChainedAt(r, key, i) && ChainedAt(r, key, |r| - 1);
        }
      }
    }
  }

  /** A valid arrangement of distinct events of one run can only be a prefix of the run. */
  lemma {:induction false} ValidArrangementIsPrefix(file: seq<LogEvent>, r: seq<LogEvent>, key: string, n: nat)
    requires IsRun(r, key) && n <= |file| && AllGood(file, key, 0, |file|)
    requires forall i | 0 <= i < |file| :: file[i] in r
    requires forall i, j | 0 <= i < j < |file| :: file[i] != file[j]
    ensures n <= |r| && forall i | 0 <= i < n :: file[i] == r[i]
  {
    if n > 0 {
      ValidArrangementIsPrefix(file, r, key, n - 1);
      assert file[n - 1] in r;
      var j :| 0 <= j < |r| && r[j] == file[n - 1];
      NextIsNext(file, r, key, n - 1, j);
    }
  }

  lemma GenesisIsFirst(r: seq<LogEvent>, key: string, j: nat)
    requires IsRun(r, key) && j < |r|
    ensures r[j].prevHash == Genesis <==> j == 0
  {
    assert ChainedAt(r, key, j);
    if j > 0 { assert ChainedAt(r, key, j - 1); }
  }

  lemma NextIsNext(file: seq<LogEvent>, r: seq<LogEvent>, key: string, i: nat, j: nat)
    requires IsRun(r, key) && i < |file| && AllGood(file, key, 0, |file|) && j < |r| && r[j] == file[i]
    requires i <= |r| && forall k | 0 <= k < i :: file[k] == r[k]
    requires forall k | 0 <= k < i :: file[k] != file[i]
    ensures j == i
  {
    assert GoodAt(file, key, i) && ChainedAt(r, key, j);
    GenesisIsFirst(r, key, j);
    if i > 0 {
      assert ChainedAt(r, key, i - 1);
      assert file[0] == r[0] && file[i - 1] == r[i - 1];
      assert j > 0;
      SignatureFixesHistory(r, j - 1, r, i - 1, key);
    }
  }

  lemma StreamIsDistinctPart(cfg: Config, s: State)
    requires Whole(s) && ChainHolds(cfg, s)
    ensures forall i | 0 <= i < |Stream(s)| :: Stream(s)[i] in s.h.emitted
    ensures forall i, j | 0 <= i < j < |Stream(s)| :: Stream(s)[i] != Stream(s)[j]
  {
    var x := Stream(s);
    forall i | 0 <= i < |x| ensures x[i] in s.h.emitted {
      assert x[i] in multiset(x);
      assert x[i] in multiset(s.h.emitted);
    }
    forall i, j | 0 <= i < j < |x| ensures x[i] != x[j] {
      OnceInRun(s.h.emitted, x[i], cfg.key);
      if x[i] == x[j] { TwiceMeansTwo(x, i, j); }
    }
  }

  /**
   Main result: once everything is delivered, the verifier accepts the file of a
   sink that never refused a batch exactly when no call overtook a suspended one,
   and then counts one process run.
   */
  lemma FileValidIffNeverOvertaken(cfg: Config, sinkCount: nat, actions: seq<Action>, k: nat)
    requires Reliable(actions, k) && k < sinkCount && Run(cfg, sinkCount, actions).queue == []
    ensures var s := Run(cfg, sinkCount, actions);
            |s.h.sinks| == sinkCount
            && (Verdict(s.h.sinks[k], cfg.key).valid <==> NeverOvertakes(cfg, sinkCount, actions))
            && (NeverOvertakes(cfg, sinkCount, actions) ==>
                  Verdict(s.h.sinks[k], cfg.key).segments == if s.h.sinks[k] == [] then 0 else 1)
  {
    var s := Run(cfg, sinkCount, actions);
    var file := s.h.dequeued;
    ReliableSinkHasAll(cfg, sinkCount, actions, k);
    EmittedIsOneChain(cfg, sinkCount, actions);
    RunIsWhole(cfg, sinkCount, actions);
    assert Stream(s) == file;
    if NeverOvertakes(cfg, sinkCount, actions) {
      OrderKeptIffNeverOvertakes(cfg, sinkCount, actions);
      PrefixIsValid(file, s.h.emitted, cfg.key);
    }
    if Verdict(file, cfg.key).valid {
      NoViolationsIffGood(file, cfg.key, |file|);
      StreamIsDistinctPart(cfg, s);
      ValidArrangementIsPrefix(file, s.h.emitted, cfg.key, |file|);
      assert OrderKept(s);
      OrderKeptIffNeverOvertakes(cfg, sinkCount, actions);
    }
  }

  lemma PrefixIsValid(file: seq<LogEvent>, r: seq<LogEvent>, key: string)
    requires IsRun(r, key) && file <= r
    ensures Verdict(file, key).valid && Verdict(file, key).segments == if file == [] then 0 else 1
  {
    var kept: seq<nat> := seq(|file|, i => i);
    assert Survivors(r, kept) == file;
    OnlyTruncationIsSilent(r, kept, key);
    DeletionsReported(r, kept, key);
  }
}
