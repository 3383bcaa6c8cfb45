/** Saves one at a time: no rename fails, and the file is what the saves made of it, in their order. */
module TicketSaves {
  import opened Prelude
  import opened TicketStore
  import opened TicketFile

  /** Between its read and its rename. */
  predicate Saving(job: Job) { job.kind != Caller && Carried(job.phase).Some? }

  ghost predicate OneSaver(s: State) {
    forall i, j | 0 <= i < |s.jobs| && 0 <= j < |s.jobs| && Saving(s.jobs[i]) && Saving(s.jobs[j]) :: i == j
  }

  /** At no moment of the run are two calls between their read and their rename. */
  ghost predicate OneAtATime(start: State, events: seq<Event>, settings: Settings)
    requires CanRun(start, events, settings)
  {
    OneSaver(Run(start, events, settings))
    && (events != [] ==> OneAtATime(start, events[..|events| - 1], settings))
  }

  /** What a save means for the entries: its own user's is set or dropped. */
  function Applied(before: Users, job: Job, carried: Users): Users {
    if job.kind == Invalidator then before - {job.user}
    else if job.user in carried then before[job.user := carried[job.user]] else before
  }

  /** The entries at the start, changed by each rename in its turn. */
  ghost function Saved(start: State, events: seq<Event>, settings: Settings): Users
    requires CanRun(start, events, settings)
  {
    if events == [] then FileUsers(start, true)
    else
      var front, e := events[..|events| - 1], events[|events| - 1];
      var before, s := Saved(start, front, settings), Run(start, front, settings);
      if e.Renamed? then Applied(before, s.jobs[e.job], s.jobs[e.job].phase.users) else before
  }

  // -------------------------------------------------------------- the invariant

  /** What the one saver carries is the file as it stands, changed by its own entry. */
  ghost predicate SaverFits(s: State, job: Job) {
    Saving(job) ==>
      var users := Carried(job.phase).value;
      && (if job.phase.HasRead? then users == FileUsers(s, true) else users == Applied(FileUsers(s, true), job, users))
      && (job.phase.Writing? ==> s.temp == Some(job.phase.node) && job.phase.node < |s.nodes|)
      && (job.phase.Renaming? ==>
            s.temp.Some? && s.temp.value < |s.nodes| && s.nodes[s.temp.value] == Whole(users))
  }

  /** An acquisition that was given a ticket has not failed. */
  predicate NotDenied(job: Job) {
    job.kind == Acquirer && job.ticket.Some? ==> job.phase != Settled(false) && job.phase != Over(false)
  }

  ghost predicate Orderly(s: State, settings: Settings) {
    && Inv(s, settings)
    && forall j | 0 <= j < |s.jobs| :: SaverFits(s, s.jobs[j]) && NotDenied(s.jobs[j])
  }

  lemma EditIsApplied(job: Job, before: Users, now: int, settings: Settings)
    ensures Edited(job, before, now, settings) == Applied(before, job, Edited(job, before, now, settings))
  {
  }

  /** Only opens, writes and renames touch files, and none of a file that can be read but a rename. */
  lemma FileStep(s: State, e: Event, settings: Settings)
    requires Inv(s, settings) && Enabled(s, e) && !e.Renamed?
    requires e.Written? ==> s.temp == Some(s.jobs[e.job].phase.node)
    ensures FileUsers(Step(s, e, settings), true) == FileUsers(s, true)
  {
    match e
    case Opened(_, _) => assert s.temp != s.path || s.temp == None;
    case Written(_, _, _) => assert s.temp != s.path;
    case _ => FilesOnly(s, e, settings);
  }

  /** The file and the temporary file as another call leaves them. */
  ghost predicate FilesAlike(s: State, t: State) {
    s.nodes == t.nodes && s.path == t.path && s.temp == t.temp
  }

  lemma FilesOnly(s: State, e: Event, settings: Settings)
    requires Enabled(s, e) && !e.Opened? && !e.Written? && !e.Renamed?
    ensures FilesAlike(s, Step(s, e, settings))
  {
  }

  predicate FileWork(e: Event) { e.Opened? || e.Written? || e.Renamed? }

  lemma FileWorkIsSaving(s: State, e: Event, settings: Settings)
    requires Inv(s, settings) && Enabled(s, e) && FileWork(e)
    ensures Saving(s.jobs[e.job])
  {
    assert JobOk(s, e.job, settings);
  }

  /** A call whose stretch it is not keeps what fits: it saves nothing, or the stretch touches no file. */
  lemma OthersFit(s: State, e: Event, settings: Settings, b: nat)
    requires Orderly(s, settings) && OneSaver(s) && Enabled(s, e)
    requires b < |Step(s, e, settings).jobs| && JobOf(e) != Some(b)
    ensures var t := Step(s, e, settings); SaverFits(t, t.jobs[b]) && NotDenied(t.jobs[b])
  {
    OthersStay(s, e, settings, b);
    if b < |s.jobs| && Saving(s.jobs[b]) {
      if FileWork(e) {
        FileWorkIsSaving(s, e, settings);
        assert false;
      }
      FilesOnly(s, e, settings);
      SaverFitsFiles(s, Step(s, e, settings), s.jobs[b]);
    }
  }

  lemma SaverFitsFiles(s: State, t: State, job: Job)
    requires SaverFits(s, job) && FilesAlike(s, t)
    ensures SaverFits(t, job)
  {
  }

  lemma ReadFits(s: State, j: nat, settings: Settings)
    requires Orderly(s, settings) && Enabled(s, ReadDone(j, true))
    ensures var t := Step(s, ReadDone(j, true), settings); SaverFits(t, t.jobs[j]) && NotDenied(t.jobs[j])
  {
  }

  lemma CallerFits(s: State, job: Job)
    requires job.kind == Caller
    ensures SaverFits(s, job) && NotDenied(job)
  {
  }

  /** A caller stays one; a save sets out with its edit. */
  lemma ProceedMoves(s: State, j: nat, settings: Settings)
    requires Inv(s, settings) && Enabled(s, Proceed(j))
    ensures var job, next := s.jobs[j], Step(s, Proceed(j), settings).jobs[j];
      if job.kind == Caller then next.kind == Caller
      else job.phase.HasRead? && next == job.(phase := MakingDir(Edited(job, job.phase.users, s.now, settings)))
  {
    assert JobOk(s, j, settings);
  }

  lemma ProceedFits(s: State, j: nat, settings: Settings)
    requires Orderly(s, settings) && Enabled(s, Proceed(j))
    ensures var t := Step(s, Proceed(j), settings); SaverFits(t, t.jobs[j]) && NotDenied(t.jobs[j])
  {
    hide Step, Inv, Enabled, Edited;
    JobsStay(s, Proceed(j), settings);
    var job, t := s.jobs[j], Step(s, Proceed(j), settings);
    ProceedMoves(s, j, settings);
    if job.kind == Caller {
      CallerFits(t, t.jobs[j]);
    } else {
      assert SaverFits(s, job);
      EditIsApplied(job, FileUsers(s, true), s.now, settings);
      FilesOnly(s, Proceed(j), settings);
    }
  }

  lemma OpenFits(s: State, j: nat, settings: Settings)
    requires Orderly(s, settings) && Enabled(s, Opened(j, true))
    ensures var t := Step(s, Opened(j, true), settings); SaverFits(t, t.jobs[j]) && NotDenied(t.jobs[j])
  {
    assert SaverFits(s, s.jobs[j]) && JobOk(s, j, settings);
    FileStep(s, Opened(j, true), settings);
  }

  lemma WriteFits(s: State, j: nat, settings: Settings)
    requires Orderly(s, settings) && Enabled(s, Written(j, true, true))
    ensures var t := Step(s, Written(j, true, true), settings); SaverFits(t, t.jobs[j]) && NotDenied(t.jobs[j])
  {
    assert SaverFits(s, s.jobs[j]) && JobOk(s, j, settings);
    FileStep(s, Written(j, true, true), settings);
  }

  lemma RenameFits(s: State, j: nat, settings: Settings)
    requires Orderly(s, settings) && Enabled(s, Renamed(j, true))
    ensures var t := Step(s, Renamed(j, true), settings);
      && SaverFits(t, t.jobs[j]) && NotDenied(t.jobs[j])
      && FileUsers(t, true) == Applied(FileUsers(s, true), s.jobs[j], s.jobs[j].phase.users)
      && (t.jobs[j].phase == Settled(true) || t.jobs[j].phase == Over(true))
  {
    assert SaverFits(s, s.jobs[j]) && JobOk(s, j, settings);
  }

  lemma OtherFits(s: State, e: Event, settings: Settings, j: nat)
    requires Orderly(s, settings) && Enabled(s, e) && Smooth(e) && JobOf(e) == Some(j)
    requires e.Answer? || e.DirMade? || e.Finally?
    ensures var t := Step(s, e, settings); SaverFits(t, t.jobs[j]) && NotDenied(t.jobs[j])
  {
    assert SaverFits(s, s.jobs[j]) && NotDenied(s.jobs[j]) && JobOk(s, j, settings);
  }

  lemma JobsStay(s: State, e: Event, settings: Settings)
    requires Enabled(s, e)
    ensures |s.jobs| <= |Step(s, e, settings).jobs|
    ensures JobOf(e).Some? ==> JobOf(e).value < |s.jobs|
  {
  }

  lemma OwnFits(s: State, e: Event, settings: Settings, b: nat)
    requires Orderly(s, settings) && Enabled(s, e) && Smooth(e) && JobOf(e) == Some(b)
    ensures b < |Step(s, e, settings).jobs|
    ensures var t := Step(s, e, settings); SaverFits(t, t.jobs[b]) && NotDenied(t.jobs[b])
  {
    hide Orderly, Step, SaverFits, NotDenied, Enabled;
    JobsStay(s, e, settings);
    match e
    case ReadDone(j, _) => ReadFits(s, j, settings);
    case Proceed(j) => ProceedFits(s, j, settings);
    case Opened(j, _) => OpenFits(s, j, settings);
    case Written(j, _, _) => WriteFits(s, j, settings);
    case Renamed(j, _) => RenameFits(s, j, settings);
    case _ => OtherFits(s, e, settings, b);
  }

  lemma OrderlyStep(s: State, e: Event, settings: Settings)
    requires Orderly(s, settings) && OneSaver(s) && Enabled(s, e) && Smooth(e)
    ensures Orderly(Step(s, e, settings), settings)
  {
    var t := Step(s, e, settings);
    StepKeeps(s, e, settings);
    forall b | 0 <= b < |t.jobs| ensures SaverFits(t, t.jobs[b]) && NotDenied(t.jobs[b]) {
      if JobOf(e) == Some(b) { OwnFits(s, e, settings, b); } else { OthersFit(s, e, settings, b); }
    }
  }

  lemma {:induction false} OrderlyRun(start: State, events: seq<Event>, settings: Settings)
    requires Begins(start, settings) && CanRun(start, events, settings) && SmoothRun(events)
    requires OneAtATime(start, events, settings)
    ensures Orderly(Run(start, events, settings), settings)
  {
    if events != [] {
      var front := events[..|events| - 1];
      FrontCanRun(start, events, settings);
      assert forall i | 0 <= i < |front| :: front[i] == events[i];
      OrderlyRun(start, front, settings);
      OrderlyStep(Run(start, front, settings), events[|events| - 1], settings);
    }
  }

  // ----------------------------------------------------------------- the results

  /**
   * Saves one at a time: whatever the interleaving otherwise, the file holds exactly what the saves
   * made of it, each in its turn.
   */
  lemma {:induction false} SavesApplyInOrder(start: State, events: seq<Event>, settings: Settings)
    requires Begins(start, settings) && CanRun(start, events, settings) && SmoothRun(events)
    requires OneAtATime(start, events, settings)
    ensures FileUsers(Run(start, events, settings), true) == Saved(start, events, settings)
  {
    if events != [] {
      var front, e := events[..|events| - 1], events[|events| - 1];
      FrontCanRun(start, events, settings);
      assert forall i | 0 <= i < |front| :: front[i] == events[i];
      SavesApplyInOrder(start, front, settings);
      OrderlyRun(start, front, settings);
      var s := Run(start, front, settings);
      if e.Renamed? {
        RenameFits(s, e.job, settings);
      } else {
        if e.Written? { assert SaverFits(s, s.jobs[e.job]) && JobOk(s, e.job, settings); }
        FileStep(s, e, settings);
      }
    }
  }

  /** Saves one at a time: no rename fails, and no acquisition that was given a ticket does. */
  lemma NoSaveFails(start: State, events: seq<Event>, settings: Settings, j: nat)
    requires Begins(start, settings) && CanRun(start, events, settings) && SmoothRun(events)
    requires OneAtATime(start, events, settings) && j < |Run(start, events, settings).jobs|
    ensures NotDenied(Run(start, events, settings).jobs[j])
    ensures Enabled(Run(start, events, settings), Renamed(j, true)) ==>
      var t := Step(Run(start, events, settings), Renamed(j, true), settings);
      t.jobs[j].phase == Settled(true) || t.jobs[j].phase == Over(true)
  {
    OrderlyRun(start, events, settings);
    if Enabled(Run(start, events, settings), Renamed(j, true)) { RenameFits(Run(start, events, settings), j, settings); }
  }

  /** The acquisition ended well: its rename went through. */
  predicate EndedWell(job: Job) { job.kind == Acquirer && (job.phase == Settled(true) || job.phase == Over(true)) }

  lemma EndedWellBefore(s: State, e: Event, settings: Settings, a: nat)
    requires Enabled(s, e) && a < |Step(s, e, settings).jobs| && EndedWell(Step(s, e, settings).jobs[a])
    requires !(e.Renamed? && e.job == a)
    ensures a < |s.jobs| && EndedWell(s.jobs[a])
  {
    if JobOf(e) != Some(a) { OthersStay(s, e, settings, a); }
  }

  lemma IdentityStays(s: State, e: Event, settings: Settings, a: nat)
    requires Enabled(s, e) && a < |s.jobs|
    ensures a < |Step(s, e, settings).jobs| && Step(s, e, settings).jobs[a].user == s.jobs[a].user
    ensures Step(s, e, settings).jobs[a].kind == s.jobs[a].kind
    ensures !s.jobs[a].phase.Fetching? ==> Step(s, e, settings).jobs[a].ticket == s.jobs[a].ticket
  {
    assert a < |Step(s, e, settings).jobs|;
    if JobOf(e) != Some(a) { OthersStay(s, e, settings, a); }
  }

  /** The entry that a call about to rename has set for its user. */
  function OwnEntry(job: Job): Option<Stored> {
    if job.phase.Renaming? then Entry(job.phase.users, job.user) else None
  }

  /** No later event than the `r`-th renames for this user. */
  ghost predicate NoLaterSave(s: State, events: seq<Event>, r: nat, user: string) {
    forall m | r < m < |events| && events[m].Renamed? :: events[m].job < |s.jobs| ==> s.jobs[events[m].job].user != user
  }

  lemma StoreStep(s: State, settings: Settings, a: nat)
    requires Orderly(s, settings) && Enabled(s, Renamed(a, true)) && s.jobs[a].kind == Acquirer
    requires CarriesItsRead(s.jobs[a])
    ensures OwnEntry(s.jobs[a]).Some? && s.jobs[a].ticket == Some(OwnEntry(s.jobs[a]).value.ticket)
    ensures FileEntry(Step(s, Renamed(a, true), settings), s.jobs[a].user) == OwnEntry(s.jobs[a])
  {
    RenameFits(s, a, settings);
    assert JobOk(s, a, settings);
  }

  lemma KeepStep(s: State, e: Event, settings: Settings, user: string)
    requires Orderly(s, settings) && Enabled(s, e) && Smooth(e)
    requires e.Renamed? ==> s.jobs[e.job].user != user
    ensures FileEntry(Step(s, e, settings), user) == FileEntry(s, user)
  {
    if e.Renamed? {
      RenameFits(s, e.job, settings);
    } else {
      if e.Written? { assert SaverFits(s, s.jobs[e.job]) && JobOk(s, e.job, settings); }
      FileStep(s, e, settings);
    }
  }

  /** At its `r`-th event the run renames for `a`, which had set `stored`, with its ticket, for its user. */
  ghost predicate SavedAt(start: State, events: seq<Event>, settings: Settings, a: nat, r: nat, stored: Stored) {
    && r < |events| && events[r] == Renamed(a, true) && CanRun(start, events[..r], settings)
    && a < |Run(start, events[..r], settings).jobs|
    && OwnEntry(Run(start, events[..r], settings).jobs[a]) == Some(stored)
  }

  /**
   * Saves one at a time: an acquisition that ended well has its ticket in the file from its rename,
   * the `r`-th event, until the next rename for that user.
   */
  lemma {:induction false} EntryUntilNextSave(start: State, events: seq<Event>, settings: Settings, a: nat)
    returns (r: nat, stored: Stored)
    requires Begins(start, settings) && CanRun(start, events, settings) && SmoothRun(events)
    requires OneAtATime(start, events, settings)
    requires a < |Run(start, events, settings).jobs| && EndedWell(Run(start, events, settings).jobs[a])
    ensures SavedAt(start, events, settings, a, r, stored)
    ensures var s := Run(start, events, settings);
      && s.jobs[a].ticket == Some(stored.ticket)
      && (NoLaterSave(s, events, r, s.jobs[a].user) ==> FileEntry(s, s.jobs[a].user) == Some(stored))
  {
    hide Begins, Inv, Step, SaverFits, NoLaterSave, CarriesItsRead, FileUsers;
    CallsComeLater(start, events, settings, a);
    var front, e := events[..|events| - 1], events[|events| - 1];
    FrontCanRun(start, events, settings);
    assert forall i | 0 <= i < |front| :: front[i] == events[i];
    OrderlyRun(start, front, settings);
    var s, t := Run(start, front, settings), Run(start, events, settings);
    if e.Renamed? && e.job == a {
      r := |front|;
      RenamesOwn(s, settings, a);
      CarryRun(start, front, settings, a);
      StoreStep(s, settings, a);
      stored := OwnEntry(s.jobs[a]).value;
    } else {
      EndedWellBefore(s, e, settings, a);
      r, stored := EntryUntilNextSave(start, front, settings, a);
      TakeTake(events, r, |front|);
      assert events == front + [e];
      EntryKept(s, e, settings, front, r, a);
    }
  }

  lemma RenamesOwn(s: State, settings: Settings, a: nat)
    requires Enabled(s, Renamed(a, true)) && a < |Step(s, Renamed(a, true), settings).jobs|
    ensures var t := Step(s, Renamed(a, true), settings);
      a < |s.jobs| && (s.jobs[a].kind, s.jobs[a].user, s.jobs[a].ticket) == (t.jobs[a].kind, t.jobs[a].user, t.jobs[a].ticket)
  {
  }

  lemma EntryKept(s: State, e: Event, settings: Settings, front: seq<Event>, r: nat, a: nat)
    requires Orderly(s, settings) && Enabled(s, e) && Smooth(e) && r < |front|
    requires a < |s.jobs| && EndedWell(s.jobs[a])
    ensures a < |Step(s, e, settings).jobs|
    ensures var t := Step(s, e, settings);
      && (t.jobs[a].user, t.jobs[a].ticket) == (s.jobs[a].user, s.jobs[a].ticket)
      && (NoLaterSave(t, front + [e], r, t.jobs[a].user) ==>
            NoLaterSave(s, front, r, s.jobs[a].user) && FileEntry(t, t.jobs[a].user) == FileEntry(s, t.jobs[a].user))
  {
    var t := Step(s, e, settings);
    IdentityStays(s, e, settings, a);
    if NoLaterSave(t, front + [e], r, t.jobs[a].user) {
      EarlierSaves(s, e, settings, front, r, s.jobs[a].user);
      if e.Renamed? {
        IdentityStays(s, e, settings, e.job);
        assert (front + [e])[|front|] == e;
      }
      KeepStep(s, e, settings, s.jobs[a].user);
    }
  }

  lemma EarlierSaves(s: State, e: Event, settings: Settings, front: seq<Event>, r: nat, user: string)
    requires Enabled(s, e) && NoLaterSave(Step(s, e, settings), front + [e], r, user)
    ensures NoLaterSave(s, front, r, user)
  {
    forall m | r < m < |front| && front[m].Renamed?
      ensures front[m].job < |s.jobs| ==> s.jobs[front[m].job].user != user
    {
      assert (front + [e])[m] == front[m];
      if front[m].job < |s.jobs| { IdentityStays(s, e, settings, front[m].job); }
    }
  }
}
