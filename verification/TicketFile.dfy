/**
 * What becomes of the entries in the ticket file, on every interleaving of saves: when a rename
 * fails, what a successful one does to other users' entries, and what saves one at a time achieve.
 */
module TicketFile {
  import opened Prelude
  import opened TicketStore

  /** No file operation fails and no write is torn. */
  predicate Smooth(e: Event) {
    match e
    case ReadDone(_, readable) => readable
    case DirMade(_, ok) => ok
    case Opened(_, ok) => ok
    case Written(_, ok, whole) => ok && whole
    case Renamed(_, ok) => ok
    case _ => true
  }

  predicate SmoothRun(events: seq<Event>) { forall i | 0 <= i < |events| :: Smooth(events[i]) }

  /** The call whose stretch this is. */
  function JobOf(e: Event): Option<nat> {
    match e
    case ReadDone(j, _) => Some(j)
    case Proceed(j) => Some(j)
    case Answer(j, _) => Some(j)
    case DirMade(j, _) => Some(j)
    case Opened(j, _) => Some(j)
    case Written(j, _, _) => Some(j)
    case Renamed(j, _) => Some(j)
    case Finally(j) => Some(j)
    case _ => None
  }

  function Entry(users: Users, user: string): Option<Stored> { if user in users then Some(users[user]) else None }

  /** The entry of a user in the file as it can be read now. */
  function FileEntry(s: State, user: string): Option<Stored> { Entry(FileUsers(s, true), user) }

  lemma FrontCanRun(start: State, events: seq<Event>, settings: Settings)
    requires CanRun(start, events, settings) && events != []
    ensures CanRun(start, events[..|events| - 1], settings)
    ensures Enabled(Run(start, events[..|events| - 1], settings), events[|events| - 1])
    ensures Run(start, events, settings)
         == Step(Run(start, events[..|events| - 1], settings), events[|events| - 1], settings)
  {
  }

  lemma {:induction false} PrefixCanRun(start: State, events: seq<Event>, settings: Settings, n: nat)
    requires CanRun(start, events, settings) && n <= |events|
    ensures CanRun(start, events[..n], settings)
    decreases |events|
  {
    if n == |events| {
      assert events[..n] == events;
    } else {
      PrefixCanRun(start, events[..|events| - 1], settings, n);
      TakeTake(events, n, |events| - 1);
    }
  }

  /** There are calls only after the first event. */
  lemma CallsComeLater(start: State, events: seq<Event>, settings: Settings, b: nat)
    requires Begins(start, settings) && CanRun(start, events, settings) && b < |Run(start, events, settings).jobs|
    ensures events != []
  {
  }

  lemma ReachedInv(start: State, events: seq<Event>, settings: Settings)
    requires Begins(start, settings) && CanRun(start, events, settings)
    ensures Inv(Run(start, events, settings), settings)
  {
    RunKeeps(start, events, settings);
  }

  /** A stretch of one call leaves the others alone and starts new ones at most. */
  lemma OthersStay(s: State, e: Event, settings: Settings, b: nat)
    requires Enabled(s, e) && b < |Step(s, e, settings).jobs| && JobOf(e) != Some(b)
    ensures b < |s.jobs| ==> Step(s, e, settings).jobs[b] == s.jobs[b]
    ensures b >= |s.jobs| ==> Step(s, e, settings).jobs[b].phase in {Reading, Fetching}
  {
  }

  // -------------------------------------------------------- when a rename fails

  /** An event that opens the temporary file, or renames it away. */
  predicate Opens(e: Event) { e.Opened? && e.ok }

  predicate Renames(e: Event) { e.Renamed? && e.ok }

  /** The `r`-th event renames, and nobody has opened the temporary file since. */
  ghost predicate TookTemp(events: seq<Event>, r: nat) {
    r < |events| && Renames(events[r]) && forall m | r < m < |events| :: !Opens(events[m])
  }

  predicate NeverOpened(events: seq<Event>) { forall m | 0 <= m < |events| :: !Opens(events[m]) }

  lemma TookTempNext(front: seq<Event>, e: Event)
    ensures (exists r: nat :: TookTemp(front + [e], r))
       <==> Renames(e) || (!Opens(e) && exists r: nat :: TookTemp(front, r))
    ensures NeverOpened(front + [e]) <==> NeverOpened(front) && !Opens(e)
  {
    var events := front + [e];
    if Renames(e) { assert TookTemp(events, |front|); }
    if !Opens(e) && exists r: nat :: TookTemp(front, r) {
      var r: nat :| TookTemp(front, r);
      assert TookTemp(events, r);
    }
    if !Renames(e) && exists r: nat :: TookTemp(events, r) {
      var r: nat :| TookTemp(events, r);
      assert forall m | r < m < |front| :: front[m] == events[m];
      assert TookTemp(front, r) && events[|front|] == e;
    }
    assert NeverOpened(events) ==> forall m | 0 <= m < |front| :: front[m] == events[m];
    assert NeverOpened(events) ==> events[|front|] == e;
  }

  lemma TempStep(s: State, e: Event, settings: Settings)
    requires Enabled(s, e)
    ensures Step(s, e, settings).temp == None <==> Renames(e) || (!Opens(e) && s.temp == None)
  {
  }

  /** The temporary file is gone exactly when somebody renamed it and nobody opened it since, or nobody ever did. */
  lemma {:induction false} TempGoneIff(start: State, events: seq<Event>, settings: Settings)
    requires CanRun(start, events, settings)
    ensures Run(start, events, settings).temp == None <==>
      (exists r: nat :: TookTemp(events, r)) || (start.temp == None && NeverOpened(events))
  {
    if events != [] {
      var front, e := events[..|events| - 1], events[|events| - 1];
      FrontCanRun(start, events, settings);
      TempGoneIff(start, front, settings);
      TempStep(Run(start, front, settings), e, settings);
      assert events == front + [e];
      TookTempNext(front, e);
    }
  }

  predicate InSave(phase: Phase) { phase.Writing? || phase.Renaming? }

  /** A save that writes or is about to rename has opened the temporary file. */
  lemma {:induction false} OpenedBefore(start: State, events: seq<Event>, settings: Settings, b: nat) returns (o: nat)
    requires start.jobs == [] && CanRun(start, events, settings) && b < |Run(start, events, settings).jobs|
    requires InSave(Run(start, events, settings).jobs[b].phase)
    ensures o < |events| && events[o] == Opened(b, true)
  {
    var front, e := events[..|events| - 1], events[|events| - 1];
    FrontCanRun(start, events, settings);
    if e == Opened(b, true) {
      o := |front|;
    } else {
      SaveGoesOn(Run(start, front, settings), e, settings, b);
      o := OpenedBefore(start, front, settings, b);
    }
  }

  lemma SaveGoesOn(s: State, e: Event, settings: Settings, b: nat)
    requires Enabled(s, e) && b < |Step(s, e, settings).jobs| && InSave(Step(s, e, settings).jobs[b].phase)
    requires e != Opened(b, true)
    ensures b < |s.jobs| && InSave(s.jobs[b].phase)
  {
    if JobOf(e) != Some(b) { OthersStay(s, e, settings, b); }
  }

  predicate Ended(phase: Phase) { phase.Settled? || phase.Over? }

  lemma EndedStays(s: State, e: Event, settings: Settings, b: nat)
    requires Enabled(s, e) && b < |s.jobs| && (Ended(s.jobs[b].phase) || (e.Renamed? && e.job == b))
    ensures b < |Step(s, e, settings).jobs| && Ended(Step(s, e, settings).jobs[b].phase)
  {
    assert b < |Step(s, e, settings).jobs|;
    if JobOf(e) != Some(b) { OthersStay(s, e, settings, b); }
  }

  /** After its rename a call is at an end. */
  lemma {:induction false} RenamedIsEnded(start: State, events: seq<Event>, settings: Settings, m: nat)
    requires CanRun(start, events, settings) && m < |events| && events[m].Renamed?
    ensures events[m].job < |Run(start, events, settings).jobs|
    ensures Ended(Run(start, events, settings).jobs[events[m].job].phase)
  {
    var front, e := events[..|events| - 1], events[|events| - 1];
    FrontCanRun(start, events, settings);
    if m < |front| { RenamedIsEnded(start, front, settings, m); }
    EndedStays(Run(start, front, settings), e, settings, events[m].job);
  }

  /** Between `b`'s open and now another call renamed the temporary file away, and nobody opened a new one. */
  ghost predicate TakenFrom(events: seq<Event>, b: nat, o: nat, r: nat) {
    && o < r < |events| && events[o] == Opened(b, true)
    && TookTemp(events, r) && events[r].job != b
  }

  /**
   * On every interleaving, whatever else failed or was torn: a rename that the disk does not refuse
   * fails exactly when, since the call opened the temporary file, another call renamed it and nobody
   * has opened it since.
   */
  lemma RenameFailsIffTaken(start: State, events: seq<Event>, settings: Settings, b: nat)
    requires Begins(start, settings) && CanRun(start, events, settings)
    requires Enabled(Run(start, events, settings), Renamed(b, true))
    ensures var t := Step(Run(start, events, settings), Renamed(b, true), settings);
      (t.jobs[b].phase == Settled(false) || t.jobs[b].phase == Over(false))
      <==> exists o: nat, r: nat :: TakenFrom(events, b, o, r)
  {
    var s := Run(start, events, settings);
    TempGoneIff(start, events, settings);
    var o := OpenedBefore(start, events, settings, b);
    if s.temp == None {
      var r: nat :| TookTemp(events, r);
      RenamedIsEnded(start, events, settings, r);
      assert TakenFrom(events, b, o, r);
    }
    if exists o: nat, r: nat :: TakenFrom(events, b, o, r) {
      var o', r :| TakenFrom(events, b, o', r);
    }
  }

  /**
   * That nobody opened it since is needed: after another call's rename, a third call's open gives
   * `b` a file to rename, and what it puts in place is that call's file, still unwritten.
   */
  lemma RenameTakesAnothersFile(s: State, settings: Settings, a: nat, b: nat, c: nat)
    requires a != b && Enabled(s, Renamed(a, true)) && Enabled(s, Renamed(b, true)) && Enabled(s, Opened(c, true))
    requires s.temp.Some?
    ensures var s1 := Step(s, Renamed(a, true), settings);
      && Enabled(s1, Opened(c, true))
      && var s2 := Step(s1, Opened(c, true), settings);
      && Enabled(s2, Renamed(b, true))
      && var s3 := Step(s2, Renamed(b, true), settings);
      && (s3.jobs[b].phase == Settled(true) || s3.jobs[b].phase == Over(true))
      && s3.jobs[c].phase.Writing? && FileUsers(s3, true) == map[]
  {
  }

  // ------------------------------------- what a successful rename does to others

  /** The users a call carries from its read to its rename. */
  function Carried(phase: Phase): Option<Users> {
    match phase
    case HasRead(users) => Some(users)
    case MakingDir(users) => Some(users)
    case Opening(users) => Some(users)
    case Writing(users, _) => Some(users)
    case Renaming(users) => Some(users)
    case _ => None
  }

  /** What a save carries is what it read, but for the entry of its own user. */
  ghost predicate CarriesItsRead(job: Job) {
    var users := Carried(job.phase);
    job.kind != Caller && users.Some? ==>
      if job.phase.HasRead? then users.value == job.seen
      else IsEditOf(job, job.seen, users.value)
  }

  ghost predicate IsEditOf(job: Job, before: Users, after: Users) {
    && (forall u: string | u != job.user :: Entry(after, u) == Entry(before, u))
    && (job.kind == Invalidator ==> job.user !in after)
    && (job.kind == Acquirer && job.ticket.Some? ==> job.user in after && after[job.user].ticket == job.ticket.value)
  }

  lemma EditedIsEdit(job: Job, users: Users, now: int, settings: Settings)
    ensures IsEditOf(job, users, Edited(job, users, now, settings))
  {
  }

  lemma CarryProceed(s: State, settings: Settings, b: nat)
    requires Enabled(s, Proceed(b)) && CarriesItsRead(s.jobs[b])
    ensures CarriesItsRead(Step(s, Proceed(b), settings).jobs[b])
  {
    var job := s.jobs[b];
    if job.phase.HasRead? { EditedIsEdit(job, job.phase.users, s.now, settings); }
  }

  /** The other stretches of a call carry the same users on, or none. */
  lemma CarriesOn(s: State, e: Event, settings: Settings, b: nat)
    requires Enabled(s, e) && JobOf(e) == Some(b) && !e.Proceed? && !e.ReadDone?
    ensures var job, next := s.jobs[b], Step(s, e, settings).jobs[b];
      Carried(next.phase).Some? ==>
        && !next.phase.HasRead? && !job.phase.HasRead? && Carried(job.phase) == Carried(next.phase)
        && (job.kind, job.user, job.ticket, job.seen) == (next.kind, next.user, next.ticket, next.seen)
  {
  }

  lemma CarryStep(s: State, e: Event, settings: Settings, b: nat)
    requires Enabled(s, e) && b < |Step(s, e, settings).jobs|
    requires b < |s.jobs| ==> CarriesItsRead(s.jobs[b])
    ensures CarriesItsRead(Step(s, e, settings).jobs[b])
  {
    if JobOf(e) != Some(b) {
      OthersStay(s, e, settings, b);
    } else if e.Proceed? {
      CarryProceed(s, settings, b);
    } else if e.ReadDone? {
    } else {
      CarriesOn(s, e, settings, b);
      SameCarried(s.jobs[b], Step(s, e, settings).jobs[b]);
    }
  }

  lemma SameCarried(job: Job, next: Job)
    requires CarriesItsRead(job)
    requires Carried(next.phase).Some? ==>
      && !next.phase.HasRead? && !job.phase.HasRead? && Carried(job.phase) == Carried(next.phase)
      && (job.kind, job.user, job.ticket, job.seen) == (next.kind, next.user, next.ticket, next.seen)
    ensures CarriesItsRead(next)
  {
  }

  lemma {:induction false} CarryRun(start: State, events: seq<Event>, settings: Settings, b: nat)
    requires Begins(start, settings) && CanRun(start, events, settings) && b < |Run(start, events, settings).jobs|
    ensures CarriesItsRead(Run(start, events, settings).jobs[b])
  {
    var front := events[..|events| - 1];
    FrontCanRun(start, events, settings);
    var s := Run(start, front, settings);
    if b < |s.jobs| { CarryRun(start, front, settings, b); }
    CarryStep(s, events[|events| - 1], settings, b);
  }

  /** The event is the read of call `b`, and `seen` is what the file held at that moment. */
  ghost predicate ReadAt(start: State, events: seq<Event>, settings: Settings, i: nat, b: nat, seen: Users)
    requires CanRun(start, events, settings)
  {
    && i < |events| && events[i].ReadDone? && events[i].job == b
    && CanRun(start, events[..i], settings)
    && seen == FileUsers(Run(start, events[..i], settings), events[i].readable)
  }

  lemma ReadEarlier(start: State, events: seq<Event>, settings: Settings, i: nat, b: nat, seen: Users)
    requires CanRun(start, events, settings) && events != [] && CanRun(start, events[..|events| - 1], settings)
    requires ReadAt(start, events[..|events| - 1], settings, i, b, seen)
    ensures ReadAt(start, events, settings, i, b, seen)
  {
    TakeTake(events, i, |events| - 1);
  }

  lemma CarryGoesOn(s: State, e: Event, settings: Settings, b: nat)
    requires Enabled(s, e) && b < |Step(s, e, settings).jobs| && Carried(Step(s, e, settings).jobs[b].phase).Some?
    requires !(e.ReadDone? && e.job == b)
    ensures b < |s.jobs| && Carried(s.jobs[b].phase).Some? && s.jobs[b].seen == Step(s, e, settings).jobs[b].seen
  {
    if JobOf(e) != Some(b) { OthersStay(s, e, settings, b); }
  }

  /** A call that carries users read the file at some moment, and remembers what it held. */
  lemma {:induction false} SeenIsFileAtRead(start: State, events: seq<Event>, settings: Settings, b: nat) returns (i: nat)
    requires start.jobs == [] && CanRun(start, events, settings) && b < |Run(start, events, settings).jobs|
    requires Carried(Run(start, events, settings).jobs[b].phase).Some?
    ensures ReadAt(start, events, settings, i, b, Run(start, events, settings).jobs[b].seen)
  {
    var front, e := events[..|events| - 1], events[|events| - 1];
    FrontCanRun(start, events, settings);
    if e.ReadDone? && e.job == b {
      i := |front|;
    } else {
      CarryGoesOn(Run(start, front, settings), e, settings, b);
      i := SeenIsFileAtRead(start, front, settings, b);
      ReadEarlier(start, events, settings, i, b, Run(start, front, settings).jobs[b].seen);
    }
  }

  /** The temporary file holds what call `b` wrote. */
  predicate OwnFileInPlace(s: State, b: nat) {
    && b < |s.jobs| && s.jobs[b].phase.Renaming? && s.temp.Some? && s.temp.value < |s.nodes|
    && s.nodes[s.temp.value] == Whole(s.jobs[b].phase.users)
  }

  /**
   * On every interleaving, whatever else failed or was torn: a rename of the call's own file puts
   * back, for every other user, the entry the call read; so it changes that user's entry exactly when
   * the entry had changed since the read. Its own user's entry is set to the new ticket, or gone.
   * After a failed read, which counts as reading an empty file, nobody else's entry is left.
   */
  lemma RenamePutsBackWhatWasRead(start: State, events: seq<Event>, settings: Settings, b: nat) returns (i: nat)
    requires Begins(start, settings) && CanRun(start, events, settings)
    requires OwnFileInPlace(Run(start, events, settings), b) && Run(start, events, settings).jobs[b].kind != Caller
    ensures i < |events| && events[i].ReadDone? && events[i].job == b && CanRun(start, events[..i], settings)
    ensures var read, s := FileUsers(Run(start, events[..i], settings), events[i].readable), Run(start, events, settings);
      var t := Step(s, Renamed(b, true), settings);
      && (t.jobs[b].phase == Settled(true) || t.jobs[b].phase == Over(true))
      && (forall u: string | u != s.jobs[b].user ::
            && FileEntry(t, u) == Entry(read, u)
            && (FileEntry(t, u) != FileEntry(s, u) <==> FileEntry(s, u) != Entry(read, u)))
      && IsEditOf(s.jobs[b], read, FileUsers(t, true))
      && (!events[i].readable ==> forall u: string | u != s.jobs[b].user :: FileEntry(t, u) == None)
  {
    CarryRun(start, events, settings, b);
    i := SeenIsFileAtRead(start, events, settings, b);
  }

  // ----------------------------------------- when the file is still the call's own

  /**
   * Call `b` opened the temporary file at `o` and wrote it at `w`; nobody renamed since the open,
   * and nobody opened or wrote since the write.
   */
  ghost predicate Undisturbed(events: seq<Event>, b: nat, o: nat, w: nat) {
    && o < w < |events| && events[o] == Opened(b, true) && events[w] == Written(b, true, true)
    && (forall m | o < m < |events| :: !events[m].Renamed?)
    && (forall m | w < m < |events| :: !events[m].Opened? && !events[m].Written?)
  }

  lemma {:induction false} WritesTheTemp(start: State, events: seq<Event>, settings: Settings, b: nat, o: nat)
    requires Begins(start, settings) && CanRun(start, events, settings)
    requires o < |events| && events[o] == Opened(b, true) && forall m | o < m < |events| :: !events[m].Renamed?
    requires b < |Run(start, events, settings).jobs| && Run(start, events, settings).jobs[b].phase.Writing?
    ensures var s := Run(start, events, settings);
      s.temp == Some(s.jobs[b].phase.node) && s.jobs[b].phase.node < |s.nodes|
  {
    hide Begins, Inv, Step, Enabled;
    CallsComeLater(start, events, settings, b);
    var front, e := events[..|events| - 1], events[|events| - 1];
    FrontCanRun(start, events, settings);
    var s := Run(start, front, settings);
    ReachedInv(start, front, settings);
    if o < |front| {
      if e.Opened? && e.job == b {
        OpensOnce(start, front, settings, b, o);
        PastOpeningStays(s, e, settings, b);
      }
      WritingGoesOn(s, e, settings, b);
      WritesTheTemp(start, front, settings, b, o);
      TempStaysOpen(s, e, settings);
    } else {
      OpenMakesTemp(s, settings, b);
    }
  }

  lemma TempStaysOpen(s: State, e: Event, settings: Settings)
    requires Inv(s, settings) && Enabled(s, e) && !e.Renamed? && s.temp.Some?
    ensures Step(s, e, settings).temp == s.temp && |Step(s, e, settings).nodes| >= |s.nodes|
  {
  }

  lemma OpenMakesTemp(s: State, settings: Settings, b: nat)
    requires Enabled(s, Opened(b, true))
    ensures var t := Step(s, Opened(b, true), settings);
      t.temp == Some(t.jobs[b].phase.node) && t.jobs[b].phase.node < |t.nodes|
  {
  }

  lemma WritingGoesOn(s: State, e: Event, settings: Settings, b: nat)
    requires Enabled(s, e) && b < |Step(s, e, settings).jobs| && Step(s, e, settings).jobs[b].phase.Writing?
    requires !(e.Opened? && e.job == b)
    ensures b < |s.jobs| && s.jobs[b] == Step(s, e, settings).jobs[b]
  {
    if JobOf(e) != Some(b) { OthersStay(s, e, settings, b); }
  }

  predicate PastOpening(phase: Phase) { InSave(phase) || Ended(phase) }

  /** A call opens at most once: after it, it is past opening. */
  lemma {:induction false} OpensOnce(start: State, events: seq<Event>, settings: Settings, b: nat, o: nat)
    requires CanRun(start, events, settings) && o < |events| && events[o].Opened? && events[o].job == b
    ensures b < |Run(start, events, settings).jobs| && PastOpening(Run(start, events, settings).jobs[b].phase)
  {
    var front, e := events[..|events| - 1], events[|events| - 1];
    FrontCanRun(start, events, settings);
    var s := Run(start, front, settings);
    if o < |front| {
      OpensOnce(start, front, settings, b, o);
      PastOpeningStays(s, e, settings, b);
    }
  }

  lemma PastOpeningStays(s: State, e: Event, settings: Settings, b: nat)
    requires Enabled(s, e) && b < |s.jobs| && PastOpening(s.jobs[b].phase)
    ensures b < |Step(s, e, settings).jobs| && PastOpening(Step(s, e, settings).jobs[b].phase)
    ensures !(e.Opened? && e.job == b)
  {
    assert b < |Step(s, e, settings).jobs|;
    if JobOf(e) != Some(b) { OthersStay(s, e, settings, b); }
  }

  /** An undisturbed save finds its own file at the rename. */
  lemma {:induction false} UndisturbedFindsItsFile(
    start: State, events: seq<Event>, settings: Settings, b: nat, o: nat, w: nat)
    requires Begins(start, settings) && CanRun(start, events, settings) && Undisturbed(events, b, o, w)
    ensures OwnFileInPlace(Run(start, events, settings), b)
  {
    var front, e := events[..|events| - 1], events[|events| - 1];
    FrontCanRun(start, events, settings);
    var s := Run(start, front, settings);
    if w == |front| {
      WritesTheTemp(start, front, settings, b, o);
    } else {
      UndisturbedFindsItsFile(start, front, settings, b, o, w);
      FileStaysInPlace(s, e, settings, b);
    }
  }

  lemma FileStaysInPlace(s: State, e: Event, settings: Settings, b: nat)
    requires Enabled(s, e) && OwnFileInPlace(s, b) && !e.Renamed? && !e.Opened? && !e.Written?
    ensures OwnFileInPlace(Step(s, e, settings), b)
  {
    if JobOf(e) != Some(b) { OthersStay(s, e, settings, b); }
  }

  // --------------------------------------------- whose data any rename installs

  /** The event opens file `n` as the temporary file, or writes what was opened as `n`. */
  predicate Touches(s: State, e: Event, n: nat)
    requires Enabled(s, e)
  {
    match e
    case Opened(_, ok) => ok && n == if s.temp.Some? && s.temp.value < |s.nodes| then s.temp.value else |s.nodes|
    case Written(j, _, _) => s.jobs[j].phase.node == n
    case _ => false
  }

  /** What file `n` holds after an event that touched it: all the call's users, or nothing that parses. */
  function Left(s: State, e: Event): Content
    requires Enabled(s, e)
  {
    if e.Written? && e.ok && e.whole then Whole(s.jobs[e.job].phase.users) else Torn
  }

  lemma NodeStep(s: State, e: Event, settings: Settings, n: nat)
    requires Enabled(s, e) && n < |Step(s, e, settings).nodes|
    ensures Touches(s, e, n) ==> Step(s, e, settings).nodes[n] == Left(s, e)
    ensures !Touches(s, e, n) ==> n < |s.nodes| && s.nodes[n] == Step(s, e, settings).nodes[n]
  {
  }

  /** The `m`-th event of the run touches file `n`. */
  ghost predicate TouchedAt(start: State, events: seq<Event>, settings: Settings, m: nat, n: nat) {
    && m < |events| && CanRun(start, events[..m], settings)
    && Enabled(Run(start, events[..m], settings), events[m])
    && Touches(Run(start, events[..m], settings), events[m], n)
  }

  /** The `m`-th event is the last to touch file `n`. */
  ghost predicate LastTouch(start: State, events: seq<Event>, settings: Settings, m: nat, n: nat) {
    TouchedAt(start, events, settings, m, n)
    && forall k: nat | m < k < |events| :: CanRun(start, events[..k], settings) && !TouchedAt(start, events, settings, k, n)
  }

  lemma TouchedInFront(start: State, events: seq<Event>, settings: Settings, m: nat, n: nat)
    requires events != [] && m < |events| - 1
    ensures TouchedAt(start, events[..|events| - 1], settings, m, n) <==> TouchedAt(start, events, settings, m, n)
  {
    TakeTake(events, m, |events| - 1);
  }

  /** A file touched in the course of the run holds what the last event to touch it left. */
  lemma {:induction false} LastTouchDecides(start: State, events: seq<Event>, settings: Settings, w: nat, n: nat) returns (m: nat)
    requires CanRun(start, events, settings) && n < |Run(start, events, settings).nodes|
    requires TouchedAt(start, events, settings, w, n)
    ensures LastTouch(start, events, settings, m, n)
    ensures Run(start, events, settings).nodes[n] == Left(Run(start, events[..m], settings), events[m])
  {
    hide Touches, Left, Step;
    var front, e := events[..|events| - 1], events[|events| - 1];
    FrontCanRun(start, events, settings);
    var s := Run(start, front, settings);
    NodeStep(s, e, settings, n);
    if Touches(s, e, n) {
      m := |front|;
    } else {
      TouchedInFront(start, events, settings, w, n);
      m := LastTouchDecides(start, front, settings, w, n);
      TakeTake(events, m, |front|);
      forall k: nat | m <= k < |front| ensures CanRun(start, events[..k], settings) && events[..k] == front[..k] {
        TakeTake(events, k, |front|);
        PrefixCanRun(start, front, settings, k);
      }
      forall k: nat | m <= k < |front| ensures TouchedAt(start, front, settings, k, n) <==> TouchedAt(start, events, settings, k, n) {
        TouchedInFront(start, events, settings, k, n);
      }
    }
  }

  /** Once somebody opened it, whatever is the temporary file was touched. */
  lemma {:induction false} TempIsTouched(start: State, events: seq<Event>, settings: Settings) returns (w: nat)
    requires CanRun(start, events, settings) && !NeverOpened(events) && Run(start, events, settings).temp.Some?
    ensures TouchedAt(start, events, settings, w, Run(start, events, settings).temp.value)
  {
    hide Step;
    var front, e := events[..|events| - 1], events[|events| - 1];
    FrontCanRun(start, events, settings);
    var s := Run(start, front, settings);
    TempChanges(s, e, settings);
    if Opens(e) {
      w := |front|;
    } else {
      assert forall k | 0 <= k < |front| :: front[k] == events[k];
      w := TempIsTouched(start, front, settings);
      TouchedInFront(start, events, settings, w, s.temp.value);
    }
  }

  lemma TempChanges(s: State, e: Event, settings: Settings)
    requires Enabled(s, e) && Step(s, e, settings).temp.Some?
    ensures if Opens(e) then Touches(s, e, Step(s, e, settings).temp.value) else Step(s, e, settings).temp == s.temp
  {
  }

  /**
   * Any successful rename, on every interleaving, whatever failed or was torn: the file then holds
   * what the last event to touch the temporary file left in it. If that was a whole write, by
   * whichever call, it is that call's edit of what it read; if it was an open or a write that left a
   * tail of another's, nothing parses and every entry is lost.
   */
  lemma RenameInstallsTheLastWrite(start: State, events: seq<Event>, settings: Settings, b: nat)
    returns (m: nat, i: nat)
    requires Begins(start, settings) && CanRun(start, events, settings)
    requires Enabled(Run(start, events, settings), Renamed(b, true)) && Run(start, events, settings).temp.Some?
    ensures var s := Run(start, events, settings);
      var t := Step(s, Renamed(b, true), settings);
      && LastTouch(start, events, settings, m, s.temp.value)
      && t.path == s.temp && s.temp.value < |t.nodes|
      && t.nodes[s.temp.value] == Left(Run(start, events[..m], settings), events[m])
      && (t.nodes[s.temp.value].Whole? ==> MadeBy(start, events, settings, FileUsers(t, true), m, i))
  {
    hide Left, MadeBy;
    var s := Run(start, events, settings);
    ReachedInv(start, events, settings);
    var o := OpenedBefore(start, events, settings, b);
    var w := TempIsTouched(start, events, settings);
    m := LastTouchDecides(start, events, settings, w, s.temp.value);
    i := 0;
    if s.nodes[s.temp.value].Whole? { i := WriteIsAnEdit(start, events, settings, m); }
  }

  /** A whole write writes the writer's edit of what it read. */
  lemma WriteIsAnEdit(start: State, events: seq<Event>, settings: Settings, m: nat) returns (i: nat)
    requires Begins(start, settings) && CanRun(start, events, settings) && m < |events| && CanRun(start, events[..m], settings)
    requires Enabled(Run(start, events[..m], settings), events[m]) && Left(Run(start, events[..m], settings), events[m]).Whole?
    ensures MadeBy(start, events, settings, Left(Run(start, events[..m], settings), events[m]).users, m, i)
  {
    hide Edited, Step;
    var writer, before := events[m].job, events[..m];
    CarryRun(start, before, settings, writer);
    ReachedInv(start, before, settings);
    assert JobOk(Run(start, before, settings), writer, settings);
    i := SeenIsFileAtRead(start, before, settings, writer);
    TakeTake(events, i, m);
    assert before[i] == events[i];
  }

  /** What the writer of event `m` made of the file as it read it at event `i`. */
  ghost predicate MadeBy(start: State, events: seq<Event>, settings: Settings, users: Users, m: nat, i: nat) {
    && i < m < |events| && events[m].Written? && events[i].ReadDone? && events[i].job == events[m].job
    && CanRun(start, events[..m], settings) && CanRun(start, events[..i], settings)
    && var atRead, atWrite := Run(start, events[..i], settings), Run(start, events[..m], settings);
    && events[m].job < |atWrite.jobs|
    && IsEditOf(atWrite.jobs[events[m].job], FileUsers(atRead, events[i].readable), users)
  }

  predicate Fails(e: Event) { (e.DirMade? || e.Opened? || e.Written? || e.Renamed?) && !e.ok }

  /** When the disk refuses, the call is over without success, and the file is the one it was. */
  lemma FailureEndsTheCall(s: State, e: Event, settings: Settings)
    requires Enabled(s, e) && Fails(e)
    ensures JobOf(e).Some? && JobOf(e).value < |s.jobs| == |Step(s, e, settings).jobs|
    ensures var t, j := Step(s, e, settings), JobOf(e).value;
      && t.jobs[j].phase == (if s.jobs[j].kind == Acquirer then Settled(false) else Over(false))
      && t.path == s.path && t.temp == s.temp
  {
  }
}
