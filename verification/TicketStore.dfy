/**
 * The ticket cache: callers, acquisitions and invalidations interleave at every await, over one
 * ticket file that is replaced by writing a shared temporary file and renaming it.
 */
module TicketStore {
  import opened Prelude

  datatype Settings = Settings(ttlMs: int, renewBeforeMs: int)

  datatype Stored = Stored(ticket: string, expiresAt: int)

  type Users = map<string, Stored>

  /** What a file holds; a file that is being written, or was written over, does not parse. */
  datatype Content = Whole(users: Users) | Torn

  /** The CAS server issued `ticket` to `user`. */
  datatype Issue = Issue(user: string, ticket: string, at: int)

  datatype Kind = Caller | Acquirer | Invalidator

  datatype Origin = FromCache(expiresAt: int) | FromAcquisition(job: nat)

  /** What a call is suspended on, or how it ended. */
  datatype Phase =
    | Fetching
    | Reading
    | HasRead(users: Users)
    | MakingDir(users: Users)
    | Opening(users: Users)
    | Writing(users: Users, node: nat)
    | Renaming(users: Users)
    | Settled(ok: bool)
    | Over(ok: bool)
    | Joined(acquisition: nat)
    | Returned(ticket: string, at: int, origin: Origin)
    | Denied(acquisition: nat)

  /** A call in progress; `ticket` is what an acquisition was given, `seen` what it last read (bookkeeping). */
  datatype Job = Job(kind: Kind, user: string, phase: Phase, ticket: Option<string>, seen: Users)

  /** `nodes` are the files ever opened; `path` and `temp` name two of them. `log` is the server's own. */
  datatype State = State(
    now: int, jobs: seq<Job>, inFlight: map<string, nat>,
    nodes: seq<Content>, path: Option<nat>, temp: Option<nat>, log: seq<Issue>)

  datatype Event =
    | Tick(ms: nat)
    | AskTicket(user: string)
    | AskInvalidate(user: string)
    | ReadDone(job: nat, readable: bool)
    | Proceed(job: nat)
    | Answer(job: nat, ticket: Option<string>)
    | DirMade(job: nat, ok: bool)
    | Opened(job: nat, ok: bool)
    | Written(job: nat, ok: bool, whole: bool)
    | Renamed(job: nat, ok: bool)
    | Finally(job: nat)

  function Start(now: int, file: Option<Content>): State {
    State(now, [], map[], if file.Some? then [file.value] else [], if file.Some? then Some(0) else None, None, [])
  }

  predicate Enabled(s: State, e: Event) {
    match e
    case Tick(_) => true
    case AskTicket(_) => true
    case AskInvalidate(_) => true
    case ReadDone(j, _) => j < |s.jobs| && s.jobs[j].phase.Reading?
    case Proceed(j) =>
      j < |s.jobs|
      && (s.jobs[j].phase.HasRead?
          || (s.jobs[j].phase.Joined? && s.jobs[j].phase.acquisition < |s.jobs|
              && s.jobs[s.jobs[j].phase.acquisition].phase.Over?))
    case Answer(j, _) => j < |s.jobs| && s.jobs[j].phase.Fetching?
    case DirMade(j, _) => j < |s.jobs| && s.jobs[j].phase.MakingDir?
    case Opened(j, _) => j < |s.jobs| && s.jobs[j].phase.Opening?
    case Written(j, _, _) => j < |s.jobs| && s.jobs[j].phase.Writing? && s.jobs[j].phase.node < |s.nodes|
    case Renamed(j, _) => j < |s.jobs| && s.jobs[j].phase.Renaming?
    case Finally(j) => j < |s.jobs| && s.jobs[j].kind == Acquirer && s.jobs[j].phase.Settled?
  }

  function SetPhase(s: State, j: nat, phase: Phase): State
    requires j < |s.jobs|
  {
    s.(jobs := s.jobs[j := s.jobs[j].(phase := phase)])
  }

  /** The promise of an acquisition has a `finally` of its own still to run. */
  function End(s: State, j: nat, ok: bool): State
    requires j < |s.jobs|
  {
    SetPhase(s, j, if s.jobs[j].kind == Acquirer then Settled(ok) else Over(ok))
  }

  /** `readFile`: a missing or unreadable file counts as empty. */
  function FileUsers(s: State, readable: bool): Users {
    if !readable || s.path == None || s.path.value >= |s.nodes| || s.nodes[s.path.value].Torn? then map[]
    else s.nodes[s.path.value].users
  }

  function DoneReading(s: State, j: nat, users: Users): State
    requires j < |s.jobs|
  {
    s.(jobs := s.jobs[j := s.jobs[j].(phase := HasRead(users), seen := users)])
  }

  predicate StillGood(users: Users, user: string, now: int, settings: Settings) {
    user in users && users[user].expiresAt > now + settings.renewBeforeMs
  }

  /** `ticket` after reading: the cached ticket, or join the acquisition under way, or start one. */
  function Look(s: State, j: nat, users: Users, settings: Settings): State
    requires j < |s.jobs|
  {
    var user := s.jobs[j].user;
    if StillGood(users, user, s.now, settings) then
      SetPhase(s, j, Returned(users[user].ticket, s.now, FromCache(users[user].expiresAt)))
    else if user in s.inFlight then SetPhase(s, j, Joined(s.inFlight[user]))
    else
      var t := SetPhase(s, j, Joined(|s.jobs|));
      t.(jobs := t.jobs + [Job(Acquirer, user, Fetching, None, map[])], inFlight := t.inFlight[user := |s.jobs|])
  }

  function Join(s: State, j: nat, acquisition: nat): State
    requires j < |s.jobs| && acquisition < |s.jobs|
  {
    var a := s.jobs[acquisition];
    if a.phase == Over(true) && a.ticket.Some?
    then SetPhase(s, j, Returned(a.ticket.value, s.now, FromAcquisition(acquisition)))
    else SetPhase(s, j, Denied(acquisition))
  }

  /** What a save sets out to write: what was read, with the entry set or dropped. */
  function Edited(job: Job, users: Users, now: int, settings: Settings): Users {
    if job.kind == Invalidator then users - {job.user}
    else users[job.user := Stored(job.ticket.GetOr(""), now + settings.ttlMs)]
  }

  function Advance(s: State, j: nat, settings: Settings): State
    requires Enabled(s, Proceed(j))
  {
    var job := s.jobs[j];
    if job.phase.Joined? then Join(s, j, job.phase.acquisition)
    else if job.kind == Caller then Look(s, j, job.phase.users, settings)
    else SetPhase(s, j, MakingDir(Edited(job, job.phase.users, s.now, settings)))
  }

  function Receive(s: State, j: nat, ticket: Option<string>): State
    requires j < |s.jobs|
  {
    match ticket
    case None => End(s, j, false)
    case Some(t) =>
      s.(jobs := s.jobs[j := s.jobs[j].(phase := Reading, ticket := ticket)],
         log := s.log + [Issue(s.jobs[j].user, t, s.now)])
  }

  /** Opening the temporary file truncates it, or creates it. */
  function OpenTemp(s: State, j: nat): State
    requires j < |s.jobs| && s.jobs[j].phase.Opening?
  {
    var users := s.jobs[j].phase.users;
    if s.temp.Some? && s.temp.value < |s.nodes| then
      SetPhase(s, j, Writing(users, s.temp.value)).(nodes := s.nodes[s.temp.value := Torn])
    else
      SetPhase(s, j, Writing(users, |s.nodes|)).(nodes := s.nodes + [Torn], temp := Some(|s.nodes|))
  }

  /** Writing over what another save has written may leave a tail of it: then nothing parses. */
  function WriteTemp(s: State, j: nat, ok: bool, whole: bool): State
    requires j < |s.jobs| && s.jobs[j].phase.Writing? && s.jobs[j].phase.node < |s.nodes|
  {
    var phase := s.jobs[j].phase;
    var content := if ok && whole then Whole(phase.users) else Torn;
    (if ok then SetPhase(s, j, Renaming(phase.users)) else End(s, j, false)).(nodes := s.nodes[phase.node := content])
  }

  /** The second of two saves finds no temporary file any more. */
  function RenameTemp(s: State, j: nat, ok: bool): State
    requires j < |s.jobs|
  {
    if ok && s.temp.Some? then End(s, j, true).(path := s.temp, temp := None) else End(s, j, false)
  }

  function Step(s: State, e: Event, settings: Settings): State
    requires Enabled(s, e)
  {
    match e
    case Tick(ms) => s.(now := s.now + ms)
    case AskTicket(user) => s.(jobs := s.jobs + [Job(Caller, user, Reading, None, map[])])
    case AskInvalidate(user) => s.(jobs := s.jobs + [Job(Invalidator, user, Reading, None, map[])])
    case ReadDone(j, readable) => DoneReading(s, j, FileUsers(s, readable))
    case Proceed(j) => Advance(s, j, settings)
    case Answer(j, ticket) => Receive(s, j, ticket)
    case DirMade(j, ok) => if ok then SetPhase(s, j, Opening(s.jobs[j].phase.users)) else End(s, j, false)
    case Opened(j, ok) => if ok then OpenTemp(s, j) else End(s, j, false)
    case Written(j, ok, whole) => WriteTemp(s, j, ok, whole)
    case Renamed(j, ok) => RenameTemp(s, j, ok)
    case Finally(j) =>
      SetPhase(s, j, Over(s.jobs[j].phase.ok)).(inFlight := s.inFlight - {s.jobs[j].user})
  }

  // ------------------------------------------------------------- the invariant

  ghost predicate IssuedTo(log: seq<Issue>, user: string, ticket: string) {
    exists i :: 0 <= i < |log| && log[i].user == user && log[i].ticket == ticket
  }

  /** The entry was issued to this user, no later than one lifetime before its expiry. */
  ghost predicate Genuine(log: seq<Issue>, user: string, stored: Stored, settings: Settings) {
    exists i :: 0 <= i < |log| && log[i].user == user && log[i].ticket == stored.ticket
      && log[i].at + settings.ttlMs <= stored.expiresAt
  }

  ghost predicate AllGenuine(log: seq<Issue>, users: Users, settings: Settings) {
    forall user | user in users :: Genuine(log, user, users[user], settings)
  }

  ghost predicate PhaseGenuine(log: seq<Issue>, phase: Phase, settings: Settings) {
    match phase
    case HasRead(users) => AllGenuine(log, users, settings)
    case MakingDir(users) => AllGenuine(log, users, settings)
    case Opening(users) => AllGenuine(log, users, settings)
    case Writing(users, _) => AllGenuine(log, users, settings)
    case Renaming(users) => AllGenuine(log, users, settings)
    case _ => true
  }

  /** An acquisition past the server's answer holds a ticket that was issued, and before now. */
  ghost predicate TicketGenuine(s: State, job: Job) {
    job.ticket.Some? ==>
      exists i :: 0 <= i < |s.log| && s.log[i].user == job.user && s.log[i].ticket == job.ticket.value
        && s.log[i].at <= s.now
  }

  predicate PhaseFits(job: Job) {
    match job.kind
    case Caller =>
      job.phase.Reading? || job.phase.HasRead? || job.phase.Joined? || job.phase.Returned?
      || job.phase.Denied?
    case Invalidator =>
      !job.phase.Fetching? && !job.phase.Joined? && !job.phase.Returned? && !job.phase.Denied? && !job.phase.Settled?
    case Acquirer =>
      !job.phase.Joined? && !job.phase.Returned? && !job.phase.Denied?
      && (job.phase.Fetching? ==> job.ticket == None)
      && (job.phase.Fetching? || job.phase == Settled(false) || job.phase == Over(false) || job.ticket.Some?)
  }

  ghost predicate ReturnedOk(s: State, job: Job, settings: Settings) {
    match job.phase
    case Returned(ticket, at, FromCache(expiresAt)) =>
      Genuine(s.log, job.user, Stored(ticket, expiresAt), settings) && expiresAt > at + settings.renewBeforeMs
    case Returned(ticket, _, FromAcquisition(a)) =>
      a < |s.jobs| && s.jobs[a].kind == Acquirer && s.jobs[a].user == job.user
      && s.jobs[a].phase == Over(true) && s.jobs[a].ticket == Some(ticket) && IssuedTo(s.log, job.user, ticket)
    case Joined(a) => a < |s.jobs| && s.jobs[a].kind == Acquirer && s.jobs[a].user == job.user
    case Denied(a) =>
      a < |s.jobs| && s.jobs[a].kind == Acquirer && s.jobs[a].user == job.user && s.jobs[a].phase == Over(false)
    case _ => true
  }

  ghost predicate JobOk(s: State, j: nat, settings: Settings)
    requires j < |s.jobs|
  {
    && PhaseFits(s.jobs[j]) && PhaseGenuine(s.log, s.jobs[j].phase, settings)
    && TicketGenuine(s, s.jobs[j]) && ReturnedOk(s, s.jobs[j], settings)
    && (s.jobs[j].phase.Writing? ==> s.jobs[j].phase.node < |s.nodes|)
  }

  /** An acquisition under way is the one registered for its user, and nothing else is registered. */
  ghost predicate InFlightOk(s: State) {
    && (forall user | user in s.inFlight ::
          s.inFlight[user] < |s.jobs| && s.jobs[s.inFlight[user]].kind == Acquirer
          && s.jobs[s.inFlight[user]].user == user && !s.jobs[s.inFlight[user]].phase.Over?)
    && (forall j | 0 <= j < |s.jobs| && s.jobs[j].kind == Acquirer && !s.jobs[j].phase.Over? ::
          s.jobs[j].user in s.inFlight && s.inFlight[s.jobs[j].user] == j)
  }

  ghost predicate FilesOk(s: State, settings: Settings) {
    && (forall n | 0 <= n < |s.nodes| && s.nodes[n].Whole? :: AllGenuine(s.log, s.nodes[n].users, settings))
    && (s.path.Some? ==> s.path.value < |s.nodes|)
    && (s.temp.Some? ==> s.temp.value < |s.nodes| && s.temp != s.path)
  }

  ghost predicate Inv(s: State, settings: Settings) {
    && (forall j | 0 <= j < |s.jobs| :: JobOk(s, j, settings))
    && InFlightOk(s) && FilesOk(s, settings)
  }

  // --------------------------------------------------- every stretch keeps it

  lemma LogGrows(log: seq<Issue>, issue: Issue, user: string, stored: Stored, settings: Settings)
    ensures Genuine(log, user, stored, settings) ==> Genuine(log + [issue], user, stored, settings)
    ensures IssuedTo(log, user, stored.ticket) ==> IssuedTo(log + [issue], user, stored.ticket)
  {
    if Genuine(log, user, stored, settings) {
      var i :| 0 <= i < |log| && log[i].user == user && log[i].ticket == stored.ticket
        && log[i].at + settings.ttlMs <= stored.expiresAt;
      assert (log + [issue])[i] == log[i];
    }
    if IssuedTo(log, user, stored.ticket) {
      var i :| 0 <= i < |log| && log[i].user == user && log[i].ticket == stored.ticket;
      assert (log + [issue])[i] == log[i];
    }
  }

  lemma PhaseAfterLog(log: seq<Issue>, issue: Issue, phase: Phase, settings: Settings)
    requires PhaseGenuine(log, phase, settings)
    ensures PhaseGenuine(log + [issue], phase, settings)
  {
    forall user: string, stored: Stored | Genuine(log, user, stored, settings)
      ensures Genuine(log + [issue], user, stored, settings)
    {
      LogGrows(log, issue, user, stored, settings);
    }
  }

  lemma JobAfterLog(s: State, issue: Issue, j: nat, settings: Settings)
    requires j < |s.jobs| && JobOk(s, j, settings)
    ensures JobOk(s.(log := s.log + [issue]), j, settings)
  {
    var job, t := s.jobs[j], s.(log := s.log + [issue]);
    PhaseAfterLog(s.log, issue, job.phase, settings);
    match job.phase {
      case Returned(ticket, at, FromCache(e)) => LogGrows(s.log, issue, job.user, Stored(ticket, e), settings);
      case Returned(ticket, at, FromAcquisition(a)) => LogGrows(s.log, issue, job.user, Stored(ticket, 0), settings);
      case _ =>
    }
    if job.ticket.Some? {
      var i :| 0 <= i < |s.log| && s.log[i].user == job.user && s.log[i].ticket == job.ticket.value && s.log[i].at <= s.now;
      assert t.log[i] == s.log[i];
    }
  }

  lemma LogKeeps(s: State, issue: Issue, settings: Settings)
    requires Inv(s, settings)
    ensures Inv(s.(log := s.log + [issue]), settings)
  {
    var t := s.(log := s.log + [issue]);
    forall j | 0 <= j < |t.jobs| ensures JobOk(t, j, settings) { JobAfterLog(s, issue, j, settings); }
    forall n | 0 <= n < |t.nodes| && t.nodes[n].Whole? ensures AllGenuine(t.log, t.nodes[n].users, settings) {
      PhaseAfterLog(s.log, issue, HasRead(s.nodes[n].users), settings);
    }
  }

  lemma TickKeeps(s: State, ms: nat, settings: Settings)
    requires Inv(s, settings)
    ensures Inv(s.(now := s.now + ms), settings)
  {
    var t := s.(now := s.now + ms);
    forall j | 0 <= j < |t.jobs| ensures JobOk(t, j, settings) {
      assert JobOk(s, j, settings);
      var job := s.jobs[j];
      if job.ticket.Some? {
        var i :| 0 <= i < |s.log| && s.log[i].user == job.user && s.log[i].ticket == job.ticket.value && s.log[i].at <= s.now;
        assert t.log[i].at <= t.now;
      }
    }
  }

  /** A job that is not over moves to a phase that suits it. */
  lemma MoveKeeps(s: State, j: nat, phase: Phase, settings: Settings)
    requires Inv(s, settings) && j < |s.jobs| && !s.jobs[j].phase.Over?
    requires var job := s.jobs[j].(phase := phase);
      && PhaseFits(job) && PhaseGenuine(s.log, phase, settings) && ReturnedOk(s, job, settings)
      && (phase.Writing? ==> phase.node < |s.nodes|)
      && (phase.Over? ==> job.kind != Acquirer)
    ensures Inv(SetPhase(s, j, phase), settings)
  {
    var t := SetPhase(s, j, phase);
    forall i | 0 <= i < |t.jobs| ensures JobOk(t, i, settings) {
      assert JobOk(s, i, settings) && JobOk(s, j, settings);
    }
  }

  lemma SeenKeeps(s: State, j: nat, users: Users, settings: Settings)
    requires Inv(s, settings) && j < |s.jobs|
    ensures Inv(s.(jobs := s.jobs[j := s.jobs[j].(seen := users)]), settings)
  {
    var t := s.(jobs := s.jobs[j := s.jobs[j].(seen := users)]);
    forall i | 0 <= i < |t.jobs| ensures JobOk(t, i, settings) {
      assert JobOk(s, i, settings) && JobOk(s, j, settings);
    }
  }

  lemma ReadInTwo(s: State, j: nat, users: Users)
    requires j < |s.jobs|
    ensures var t := SetPhase(s, j, HasRead(users));
      DoneReading(s, j, users) == t.(jobs := t.jobs[j := t.jobs[j].(seen := users)])
  {
    var t := SetPhase(s, j, HasRead(users));
    assert DoneReading(s, j, users).jobs == t.jobs[j := t.jobs[j].(seen := users)];
  }

  lemma EndKeeps(s: State, j: nat, ok: bool, settings: Settings)
    requires Inv(s, settings) && j < |s.jobs| && s.jobs[j].kind != Caller && !s.jobs[j].phase.Over?
    requires ok && s.jobs[j].kind == Acquirer ==> s.jobs[j].ticket.Some?
    ensures Inv(End(s, j, ok), settings)
  {
    MoveKeeps(s, j, if s.jobs[j].kind == Acquirer then Settled(ok) else Over(ok), settings);
  }

  lemma FilesKeep(s: State, nodes: seq<Content>, temp: Option<nat>, path: Option<nat>, settings: Settings)
    requires Inv(s, settings) && |nodes| >= |s.nodes|
    requires forall n | 0 <= n < |nodes| && nodes[n].Whole? :: AllGenuine(s.log, nodes[n].users, settings)
    requires (temp.Some? ==> temp.value < |nodes| && temp != path) && (path.Some? ==> path.value < |nodes|)
    ensures Inv(s.(nodes := nodes, temp := temp, path := path), settings)
  {
    var t := s.(nodes := nodes, temp := temp, path := path);
    forall j | 0 <= j < |t.jobs| ensures JobOk(t, j, settings) { assert JobOk(s, j, settings); }
  }

  lemma AskKeeps(s: State, job: Job, settings: Settings)
    requires Inv(s, settings) && job.kind != Acquirer && job.phase.Reading? && job.ticket == None
    ensures Inv(s.(jobs := s.jobs + [job]), settings)
  {
    var t := s.(jobs := s.jobs + [job]);
    forall j | 0 <= j < |t.jobs| ensures JobOk(t, j, settings) {
      if j < |s.jobs| { assert JobOk(s, j, settings); }
    }
  }

  lemma BeginKeeps(s: State, user: string, settings: Settings)
    requires Inv(s, settings) && user !in s.inFlight
    ensures Inv(s.(jobs := s.jobs + [Job(Acquirer, user, Fetching, None, map[])],
                   inFlight := s.inFlight[user := |s.jobs|]), settings)
  {
    var t := s.(jobs := s.jobs + [Job(Acquirer, user, Fetching, None, map[])], inFlight := s.inFlight[user := |s.jobs|]);
    forall j | 0 <= j < |t.jobs| ensures JobOk(t, j, settings) {
      if j < |s.jobs| { assert JobOk(s, j, settings); }
    }
  }

  lemma FinallyKeeps(s: State, j: nat, settings: Settings)
    requires Inv(s, settings) && Enabled(s, Finally(j))
    ensures Inv(Step(s, Finally(j), settings), settings)
  {
    var t := Step(s, Finally(j), settings);
    forall i | 0 <= i < |t.jobs| ensures JobOk(t, i, settings) { assert JobOk(s, i, settings) && JobOk(s, j, settings); }
  }

  lemma LookKeeps(s: State, j: nat, users: Users, settings: Settings)
    requires Inv(s, settings) && j < |s.jobs| && s.jobs[j].kind == Caller && s.jobs[j].phase == HasRead(users)
    ensures Inv(Look(s, j, users, settings), settings)
  {
    var user := s.jobs[j].user;
    assert JobOk(s, j, settings);
    if StillGood(users, user, s.now, settings) {
      MoveKeeps(s, j, Returned(users[user].ticket, s.now, FromCache(users[user].expiresAt)), settings);
    } else if user in s.inFlight {
      MoveKeeps(s, j, Joined(s.inFlight[user]), settings);
    } else {
      BeginKeeps(s, user, settings);
      var begun := s.(jobs := s.jobs + [Job(Acquirer, user, Fetching, None, map[])], inFlight := s.inFlight[user := |s.jobs|]);
      MoveKeeps(begun, j, Joined(|s.jobs|), settings);
      assert SetPhase(begun, j, Joined(|s.jobs|)).jobs == Look(s, j, users, settings).jobs;
    }
  }

  lemma JoinKeeps(s: State, j: nat, settings: Settings)
    requires Inv(s, settings) && Enabled(s, Proceed(j)) && s.jobs[j].phase.Joined?
    ensures Inv(Join(s, j, s.jobs[j].phase.acquisition), settings)
  {
    var a := s.jobs[j].phase.acquisition;
    assert JobOk(s, j, settings) && JobOk(s, a, settings);
    var job := s.jobs[a];
    if job.phase == Over(true) && job.ticket.Some? {
      var i :| 0 <= i < |s.log| && s.log[i].user == job.user && s.log[i].ticket == job.ticket.value && s.log[i].at <= s.now;
      MoveKeeps(s, j, Returned(job.ticket.value, s.now, FromAcquisition(a)), settings);
    } else {
      MoveKeeps(s, j, Denied(a), settings);
    }
  }

  lemma NewEntryGenuine(s: State, j: nat, users: Users, settings: Settings)
    requires Inv(s, settings) && j < |s.jobs| && s.jobs[j].ticket.Some? && AllGenuine(s.log, users, settings)
    ensures AllGenuine(s.log, users[s.jobs[j].user := Stored(s.jobs[j].ticket.value, s.now + settings.ttlMs)], settings)
  {
    assert JobOk(s, j, settings);
    var job, stored := s.jobs[j], Stored(s.jobs[j].ticket.value, s.now + settings.ttlMs);
    var i :| 0 <= i < |s.log| && s.log[i].user == job.user && s.log[i].ticket == job.ticket.value && s.log[i].at <= s.now;
    assert s.log[i].at + settings.ttlMs <= stored.expiresAt;
    assert Genuine(s.log, job.user, stored, settings);
  }

  lemma AdvanceKeeps(s: State, j: nat, settings: Settings)
    requires Inv(s, settings) && Enabled(s, Proceed(j))
    ensures Inv(Advance(s, j, settings), settings)
  {
    var job := s.jobs[j];
    assert JobOk(s, j, settings);
    if job.phase.Joined? {
      JoinKeeps(s, j, settings);
    } else if job.kind == Caller {
      LookKeeps(s, j, job.phase.users, settings);
    } else {
      if job.kind == Acquirer { NewEntryGenuine(s, j, job.phase.users, settings); }
      MoveKeeps(s, j, MakingDir(Edited(job, job.phase.users, s.now, settings)), settings);
    }
  }

  lemma GiveKeeps(s: State, j: nat, ticket: string, settings: Settings)
    requires Inv(s, settings) && j < |s.jobs| && s.jobs[j].phase.Fetching? && s.log != []
    requires s.log[|s.log| - 1] == Issue(s.jobs[j].user, ticket, s.now)
    ensures Inv(s.(jobs := s.jobs[j := s.jobs[j].(phase := Reading, ticket := Some(ticket))]), settings)
  {
    var t := s.(jobs := s.jobs[j := s.jobs[j].(phase := Reading, ticket := Some(ticket))]);
    forall i | 0 <= i < |t.jobs| ensures JobOk(t, i, settings) {
      assert JobOk(s, i, settings) && JobOk(s, j, settings);
      assert t.log[|s.log| - 1].ticket == ticket;
    }
  }

  lemma AnswerKeeps(s: State, j: nat, ticket: Option<string>, settings: Settings)
    requires Inv(s, settings) && Enabled(s, Answer(j, ticket))
    ensures Inv(Receive(s, j, ticket), settings)
  {
    assert JobOk(s, j, settings);
    match ticket
    case None => EndKeeps(s, j, false, settings);
    case Some(t) =>
      var issue := Issue(s.jobs[j].user, t, s.now);
      LogKeeps(s, issue, settings);
      GiveKeeps(s.(log := s.log + [issue]), j, t, settings);
  }

  lemma OpenKeeps(s: State, j: nat, settings: Settings)
    requires Inv(s, settings) && Enabled(s, Opened(j, true))
    ensures Inv(OpenTemp(s, j), settings)
  {
    assert JobOk(s, j, settings);
    var users := s.jobs[j].phase.users;
    if s.temp.Some? {
      FilesKeep(s, s.nodes[s.temp.value := Torn], s.temp, s.path, settings);
      MoveKeeps(s.(nodes := s.nodes[s.temp.value := Torn]), j, Writing(users, s.temp.value), settings);
    } else {
      FilesKeep(s, s.nodes + [Torn], Some(|s.nodes|), s.path, settings);
      MoveKeeps(s.(nodes := s.nodes + [Torn], temp := Some(|s.nodes|)), j, Writing(users, |s.nodes|), settings);
    }
  }

  lemma WriteKeeps(s: State, j: nat, ok: bool, whole: bool, settings: Settings)
    requires Inv(s, settings) && Enabled(s, Written(j, ok, whole))
    ensures Inv(WriteTemp(s, j, ok, whole), settings)
  {
    assert JobOk(s, j, settings);
    var phase := s.jobs[j].phase;
    var nodes := s.nodes[phase.node := if ok && whole then Whole(phase.users) else Torn];
    FilesKeep(s, nodes, s.temp, s.path, settings);
    var t := s.(nodes := nodes);
    if ok { MoveKeeps(t, j, Renaming(phase.users), settings); } else { EndKeeps(t, j, false, settings); }
  }

  lemma RenameKeeps(s: State, j: nat, ok: bool, settings: Settings)
    requires Inv(s, settings) && Enabled(s, Renamed(j, ok))
    ensures Inv(RenameTemp(s, j, ok), settings)
  {
    assert JobOk(s, j, settings);
    EndKeeps(s, j, ok && s.temp.Some?, settings);
    if ok && s.temp.Some? { FilesKeep(End(s, j, true), s.nodes, None, s.temp, settings); }
  }

  lemma StepKeeps(s: State, e: Event, settings: Settings)
    requires Inv(s, settings) && Enabled(s, e)
    ensures Inv(Step(s, e, settings), settings)
  {
    match e
    case Tick(ms) => TickKeeps(s, ms, settings);
    case AskTicket(user) => AskKeeps(s, Job(Caller, user, Reading, None, map[]), settings);
    case AskInvalidate(user) => AskKeeps(s, Job(Invalidator, user, Reading, None, map[]), settings);
    case ReadDone(j, readable) =>
      assert JobOk(s, j, settings);
      MoveKeeps(s, j, HasRead(FileUsers(s, readable)), settings);
      SeenKeeps(SetPhase(s, j, HasRead(FileUsers(s, readable))), j, FileUsers(s, readable), settings);
      ReadInTwo(s, j, FileUsers(s, readable));
    case Proceed(j) => AdvanceKeeps(s, j, settings);
    case Answer(j, ticket) => AnswerKeeps(s, j, ticket, settings);
    case DirMade(j, ok) =>
      assert JobOk(s, j, settings);
      if ok { MoveKeeps(s, j, Opening(s.jobs[j].phase.users), settings); } else { EndKeeps(s, j, false, settings); }
    case Opened(j, ok) =>
      assert JobOk(s, j, settings);
      if ok { OpenKeeps(s, j, settings); } else { EndKeeps(s, j, false, settings); }
    case Written(j, ok, whole) => WriteKeeps(s, j, ok, whole, settings);
    case Renamed(j, ok) => RenameKeeps(s, j, ok, settings);
    case Finally(j) => FinallyKeeps(s, j, settings);
  }

  // ---------------------------------------------------- on every interleaving

  /** Whether the events can happen one after the other from `start`, and where they lead. */
  ghost predicate CanRun(start: State, events: seq<Event>, settings: Settings)
    decreases |events|, 0
  {
    events != [] ==>
      && CanRun(start, events[..|events| - 1], settings)
      && Enabled(Run(start, events[..|events| - 1], settings), events[|events| - 1])
  }

  ghost function Run(start: State, events: seq<Event>, settings: Settings): State
    requires CanRun(start, events, settings)
    decreases |events|, 1
  {
    if events == [] then start
    else Step(Run(start, events[..|events| - 1], settings), events[|events| - 1], settings)
  }

  lemma {:induction false} RunKeeps(start: State, events: seq<Event>, settings: Settings)
    requires Inv(start, settings) && CanRun(start, events, settings)
    ensures Inv(Run(start, events, settings), settings)
  {
    if events != [] {
      RunKeeps(start, events[..|events| - 1], settings);
      StepKeeps(Run(start, events[..|events| - 1], settings), events[|events| - 1], settings);
    }
  }

  /** The store starts with no call in progress and a file whose entries were once issued. */
  ghost predicate Begins(start: State, settings: Settings) {
    start.jobs == [] && start.inFlight == map[] && FilesOk(start, settings)
  }

  predicate UnderWay(job: Job) { job.kind == Acquirer && !job.phase.Over? }

  /** No two acquisitions under way are for one user; each is the one registered; and no other is registered. */
  ghost predicate OnePerUser(s: State) {
    && (forall i, j | 0 <= i < |s.jobs| && 0 <= j < |s.jobs| && UnderWay(s.jobs[i]) && UnderWay(s.jobs[j]) ::
          s.jobs[i].user == s.jobs[j].user ==> i == j)
    && (forall j | 0 <= j < |s.jobs| && UnderWay(s.jobs[j]) :: Registered(s, s.jobs[j].user, j))
    && (forall user | user in s.inFlight ::
          s.inFlight[user] < |s.jobs| && UnderWay(s.jobs[s.inFlight[user]]) && s.jobs[s.inFlight[user]].user == user)
  }

  predicate Registered(s: State, user: string, j: nat) { user in s.inFlight && s.inFlight[user] == j }

  /** Who joined waits for an acquisition of that very user. */
  ghost predicate JoinedTheirs(s: State) {
    forall j | 0 <= j < |s.jobs| && s.jobs[j].phase.Joined? :: IsAcquisitionFor(s, s.jobs[j].phase.acquisition, s.jobs[j].user)
  }

  predicate IsAcquisitionFor(s: State, a: nat, user: string) {
    a < |s.jobs| && s.jobs[a].kind == Acquirer && s.jobs[a].user == user
  }

  lemma InvGivesOnePerUser(s: State, settings: Settings)
    requires Inv(s, settings)
    ensures OnePerUser(s) && JoinedTheirs(s)
  {
    forall j | 0 <= j < |s.jobs| && UnderWay(s.jobs[j]) ensures Registered(s, s.jobs[j].user, j) {}
    forall j | 0 <= j < |s.jobs| && s.jobs[j].phase.Joined?
      ensures IsAcquisitionFor(s, s.jobs[j].phase.acquisition, s.jobs[j].user)
    {
      assert JobOk(s, j, settings);
    }
  }

  /** On every interleaving: one acquisition per user, and the callers who join it are that user's. */
  lemma OneAcquisitionPerUser(start: State, events: seq<Event>, settings: Settings)
    requires Begins(start, settings) && CanRun(start, events, settings)
    ensures OnePerUser(Run(start, events, settings)) && JoinedTheirs(Run(start, events, settings))
  {
    RunKeeps(start, events, settings);
    InvGivesOnePerUser(Run(start, events, settings), settings);
  }

  /**
   * Every ticket handed out, on every interleaving and whatever saves were lost or torn, was issued
   * to the user who asked. A cached one had more than the renewal margin left until its expiry, which
   * is a lifetime after some moment not before its issue; any other is the ticket of a finished acquisition of that user.
   */
  lemma ReturnedTicketsAreTheUsers(start: State, events: seq<Event>, settings: Settings, j: nat) returns (i: nat)
    requires Begins(start, settings) && CanRun(start, events, settings)
    requires j < |Run(start, events, settings).jobs| && Run(start, events, settings).jobs[j].phase.Returned?
    ensures var s := Run(start, events, settings);
      var job := s.jobs[j];
      && i < |s.log| && s.log[i].user == job.user && s.log[i].ticket == job.phase.ticket
      && match job.phase.origin {
           case FromCache(expiresAt) =>
             expiresAt - job.phase.at > settings.renewBeforeMs && s.log[i].at + settings.ttlMs <= expiresAt
           case FromAcquisition(a) =>
             a < |s.jobs| && s.jobs[a].kind == Acquirer && s.jobs[a].user == job.user
             && s.jobs[a].phase == Over(true) && s.jobs[a].ticket == Some(job.phase.ticket)
         }
  {
    RunKeeps(start, events, settings);
    var s := Run(start, events, settings);
    var job := s.jobs[j];
    assert JobOk(s, j, settings);
    match job.phase.origin
    case FromCache(e) =>
      i :| 0 <= i < |s.log| && s.log[i].user == job.user && s.log[i].ticket == job.phase.ticket
        && s.log[i].at + settings.ttlMs <= e;
    case FromAcquisition(a) =>
      i :| 0 <= i < |s.log| && s.log[i].user == job.user && s.log[i].ticket == job.phase.ticket;
  }

  /** The caller waits for acquisition `a`, or got its answer from it. */
  predicate JoinedIt(job: Job, a: nat) {
    job.phase == Joined(a) || job.phase == Denied(a) || (job.phase.Returned? && job.phase.origin == FromAcquisition(a))
  }

  /**
   All joiners get the acquisition's own outcome: when it ended with a ticket no joiner is turned
   away and each that has its answer has that ticket; when it failed none has a ticket from it.
   */
  lemma JoinersShareTheOutcome(start: State, events: seq<Event>, settings: Settings, j: nat, a: nat)
    requires Begins(start, settings) && CanRun(start, events, settings)
    requires j < |Run(start, events, settings).jobs| && JoinedIt(Run(start, events, settings).jobs[j], a)
    ensures var s := Run(start, events, settings);
      && IsAcquisitionFor(s, a, s.jobs[j].user)
      && (s.jobs[a].phase == Over(true) ==>
            s.jobs[j].phase.Joined? || (s.jobs[j].phase.Returned? && s.jobs[a].ticket == Some(s.jobs[j].phase.ticket)))
      && (s.jobs[a].phase == Over(false) ==> s.jobs[j].phase.Joined? || s.jobs[j].phase.Denied?)
      && (!s.jobs[a].phase.Over? ==> s.jobs[j].phase.Joined?)
  {
    RunKeeps(start, events, settings);
    assert JobOk(Run(start, events, settings), j, settings);
  }
}
