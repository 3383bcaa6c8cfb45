/** Schedules on which overlapping saves lose what the server issued, although no file operation fails. */
module TicketOverlaps {
  import opened Prelude
  import opened TicketStore
  import opened TicketFile

  /** A run from a store without a file, every file operation of which succeeds, leads to `s`. */
  ghost predicate Reaches(events: seq<Event>, s: State, settings: Settings) {
    var start := Start(0, None);
    Begins(start, settings) && CanRun(start, events, settings) && SmoothRun(events) && Run(start, events, settings) == s
  }

  lemma NothingYet(settings: Settings)
    ensures Reaches([], Start(0, None), settings)
  {
  }

  /** One more event. */
  lemma Do(events: seq<Event>, s: State, e: Event, settings: Settings) returns (longer: seq<Event>, t: State)
    requires Reaches(events, s, settings) && Enabled(s, e) && Smooth(e)
    ensures longer == events + [e] && t == Step(s, e, settings) && Reaches(longer, t, settings)
  {
    longer, t := events + [e], Step(s, e, settings);
    DropLast(events, e);
    assert forall i | 0 <= i < |events| :: longer[i] == events[i];
  }

  function Waiting(user: string, acquisition: nat): Job { Job(Caller, user, Joined(acquisition), None, map[]) }

  function Acquiring(user: string, ticket: Option<string>, phase: Phase): Job { Job(Acquirer, user, phase, ticket, map[]) }

  predicate NoFiles(s: State) { s.now == 0 && s.nodes == [] && s.path == None && s.temp == None }

  lemma BothLook(u: string, v: string, settings: Settings) returns (events: seq<Event>, s: State)
    ensures Reaches(events, s, settings) && NoFiles(s) && s.inFlight == map[]
    ensures s.jobs == [Job(Caller, u, HasRead(map[]), None, map[]), Job(Caller, v, HasRead(map[]), None, map[])]
  {
    NothingYet(settings);
    events, s := Do([], Start(0, None), AskTicket(u), settings);
    events, s := Do(events, s, AskTicket(v), settings);
    events, s := Do(events, s, ReadDone(0, true), settings);
    events, s := Do(events, s, ReadDone(1, true), settings);
  }

  /** Two users ask; neither has a ticket, so each starts an acquisition. */
  lemma BothAsk(u: string, v: string, settings: Settings) returns (events: seq<Event>, s: State)
    requires u != v
    ensures Reaches(events, s, settings) && NoFiles(s)
    ensures s.jobs == [Waiting(u, 2), Waiting(v, 3), Acquiring(u, None, Fetching), Acquiring(v, None, Fetching)]
  {
    events, s := BothLook(u, v, settings);
    events, s := Do(events, s, Proceed(0), settings);
    events, s := Do(events, s, Proceed(1), settings);
  }

  /** The server gives both a ticket, and both read the file before either saves. */
  lemma BothRead(u: string, x: string, v: string, y: string, settings: Settings) returns (events: seq<Event>, s: State)
    requires u != v
    ensures Reaches(events, s, settings) && NoFiles(s)
    ensures s.jobs == [Waiting(u, 2), Waiting(v, 3), Acquiring(u, Some(x), HasRead(map[])), Acquiring(v, Some(y), HasRead(map[]))]
  {
    events, s := BothAsk(u, v, settings);
    events, s := Do(events, s, Answer(2, Some(x)), settings);
    events, s := Do(events, s, Answer(3, Some(y)), settings);
    events, s := Do(events, s, ReadDone(2, true), settings);
    events, s := Do(events, s, ReadDone(3, true), settings);
  }

  /** Nothing but this save happens until it is over; it replaces the file by exactly what it set out to write. */
  lemma SaveAlone(events: seq<Event>, s: State, j: nat, settings: Settings) returns (longer: seq<Event>, t: State)
    requires Reaches(events, s, settings) && s.temp == None
    requires j < |s.jobs| && s.jobs[j].kind == Acquirer && s.jobs[j].phase.MakingDir?
    ensures Reaches(longer, t, settings) && t.temp == None && t.now == s.now
    ensures FileUsers(t, true) == s.jobs[j].phase.users
    ensures t.jobs == s.jobs[j := s.jobs[j].(phase := Settled(true))]
  {
    longer, t := Do(events, s, DirMade(j, true), settings);
    longer, t := Do(longer, t, Opened(j, true), settings);
    longer, t := Do(longer, t, Written(j, true, true), settings);
    longer, t := Do(longer, t, Renamed(j, true), settings);
  }

  /**
   * For any two users: both acquisitions end well, one save after the other, yet the file has only
   * the later one's entry.
   */
  lemma LaterSaveDropsEarlier(u: string, x: string, v: string, y: string, settings: Settings)
    returns (events: seq<Event>, s: State)
    requires u != v
    ensures Reaches(events, s, settings)
    ensures s.jobs == [Waiting(u, 2), Waiting(v, 3), Acquiring(u, Some(x), Settled(true)), Acquiring(v, Some(y), Settled(true))]
    ensures FileEntry(s, u) == None && FileEntry(s, v).Some? && FileEntry(s, v).value.ticket == y
  {
    events, s := BothRead(u, x, v, y, settings);
    events, s := Do(events, s, Proceed(2), settings);
    events, s := SaveAlone(events, s, 2, settings);
    events, s := Do(events, s, Proceed(3), settings);
    events, s := SaveAlone(events, s, 3, settings);
  }

  function OnlyEntry(user: string, ticket: string, settings: Settings): Users { map[user := Stored(ticket, settings.ttlMs)] }

  lemma BothEdit(u: string, x: string, v: string, y: string, settings: Settings) returns (events: seq<Event>, s: State)
    requires u != v
    ensures Reaches(events, s, settings) && NoFiles(s)
    ensures s.jobs == [Waiting(u, 2), Waiting(v, 3), Acquiring(u, Some(x), Opening(OnlyEntry(u, x, settings))),
                       Acquiring(v, Some(y), Opening(OnlyEntry(v, y, settings)))]
  {
    events, s := BothRead(u, x, v, y, settings);
    events, s := Do(events, s, Proceed(2), settings);
    events, s := Do(events, s, Proceed(3), settings);
    events, s := Do(events, s, DirMade(2, true), settings);
    events, s := Do(events, s, DirMade(3, true), settings);
  }

  /** Both have written the one temporary file, the second over the first, and are about to rename it. */
  lemma BothWrite(u: string, x: string, v: string, y: string, settings: Settings) returns (events: seq<Event>, s: State)
    requires u != v
    ensures Reaches(events, s, settings) && s.path == None && s.temp == Some(0) && s.nodes == [Whole(OnlyEntry(v, y, settings))]
    ensures s.jobs == [Waiting(u, 2), Waiting(v, 3), Acquiring(u, Some(x), Renaming(OnlyEntry(u, x, settings))),
                       Acquiring(v, Some(y), Renaming(OnlyEntry(v, y, settings)))]
  {
    events, s := BothEdit(u, x, v, y, settings);
    events, s := Do(events, s, Opened(2, true), settings);
    events, s := Do(events, s, Opened(3, true), settings);
    events, s := Do(events, s, Written(2, true, true), settings);
    events, s := Do(events, s, Written(3, true, true), settings);
  }

  /**
   * For any two users: the second rename finds no file and the acquisition fails, whatever the server
   * gave it; the one that ended well has put the other's entry in place, not its own.
   */
  lemma SecondRenameFails(u: string, x: string, v: string, y: string, settings: Settings)
    returns (events: seq<Event>, s: State)
    requires u != v
    ensures Reaches(events, s, settings)
    ensures s.jobs == [Waiting(u, 2), Waiting(v, 3), Acquiring(u, Some(x), Settled(true)), Acquiring(v, Some(y), Settled(false))]
    ensures FileUsers(s, true) == OnlyEntry(v, y, settings)
  {
    events, s := BothWrite(u, x, v, y, settings);
    events, s := Do(events, s, Renamed(2, true), settings);
    events, s := Do(events, s, Renamed(3, true), settings);
  }

  /** An invalidation comes as far as its open. */
  lemma Invalidating(events: seq<Event>, s: State, u: string, settings: Settings) returns (longer: seq<Event>, t: State)
    requires Reaches(events, s, settings)
    ensures Reaches(longer, t, settings) && |t.jobs| == |s.jobs| + 1 && t.jobs[..|s.jobs|] == s.jobs
    ensures t.jobs[|s.jobs|].phase.Opening? && t.nodes == s.nodes && t.path == s.path && t.temp == s.temp
  {
    var j := |s.jobs|;
    longer, t := Do(events, s, AskInvalidate(u), settings);
    longer, t := Do(longer, t, ReadDone(j, true), settings);
    longer, t := Do(longer, t, Proceed(j), settings);
    longer, t := Do(longer, t, DirMade(j, true), settings);
  }

  /** For any two users, and one of them invalidated meanwhile: both acquisitions end well, and no entry is left to read. */
  lemma EveryEntryIsLost(u: string, x: string, v: string, y: string, settings: Settings)
    returns (events: seq<Event>, s: State)
    requires u != v
    ensures Reaches(events, s, settings) && |s.jobs| == 5
    ensures s.jobs[2] == Acquiring(u, Some(x), Settled(true)) && s.jobs[3] == Acquiring(v, Some(y), Settled(true))
    ensures FileUsers(s, true) == map[]
  {
    events, s := BothWrite(u, x, v, y, settings);
    var before := s.jobs;
    events, s := Invalidating(events, s, u, settings);
    assert s.jobs[..4][2] == before[2] && s.jobs[..4][3] == before[3];
    RenameTakesAnothersFile(s, settings, 2, 3, 4);
    events, s := Do(events, s, Renamed(2, true), settings);
    events, s := Do(events, s, Opened(4, true), settings);
    events, s := Do(events, s, Renamed(3, true), settings);
  }
}
