/** The cache at work: a stored ticket that is good for longer than the margin is returned and the server left alone. */
module TicketReuse {
  import opened Prelude
  import opened TicketStore
  import opened TicketFile
  import opened TicketSaves

  /** The entry is good for more than the renewal margin. */
  predicate Lasts(entry: Option<Stored>, now: int, settings: Settings) {
    entry.Some? && now + settings.renewBeforeMs < entry.value.expiresAt
  }

  /** The call has its answer from the cache; nothing else has changed, and no server was asked. */
  ghost predicate FromFile(s: State, t: State, j: nat, stored: Stored)
    requires j < |s.jobs|
  {
    t == s.(jobs := s.jobs[j := s.jobs[j].(phase := Returned(stored.ticket, s.now, FromCache(stored.expiresAt)))])
  }

  /** The call waits for the acquisition under way for its user, or for a new one. */
  ghost predicate FromServer(s: State, t: State, j: nat)
    requires j < |s.jobs|
  {
    var user := s.jobs[j].user;
    && j < |t.jobs| && t.jobs[j].phase.Joined? && t.log == s.log
    && if user in s.inFlight then
         t.jobs[j].phase.acquisition == s.inFlight[user] && |t.jobs| == |s.jobs| && t.inFlight == s.inFlight
       else
         && t.jobs[j].phase.acquisition == |s.jobs| && |t.jobs| == |s.jobs| + 1
         && t.jobs[|s.jobs|] == Job(Acquirer, user, Fetching, None, map[]) && t.inFlight == s.inFlight[user := |s.jobs|]
  }

  /**
   On every interleaving, a caller that goes on after its read gets the ticket it read exactly when that is
   good for longer than the margin; otherwise it joins the acquisition under way, or a new one.
   */
  lemma ReadDecides(start: State, events: seq<Event>, settings: Settings, j: nat) returns (i: nat)
    requires Begins(start, settings) && CanRun(start, events, settings) && Enabled(Run(start, events, settings), Proceed(j))
    requires Run(start, events, settings).jobs[j].kind == Caller && Run(start, events, settings).jobs[j].phase.HasRead?
    ensures i < |events| && events[i].ReadDone? && events[i].job == j && CanRun(start, events[..i], settings)
    ensures var s, t := Run(start, events, settings), Step(Run(start, events, settings), Proceed(j), settings);
      var entry := Entry(FileUsers(Run(start, events[..i], settings), events[i].readable), s.jobs[j].user);
      if Lasts(entry, s.now, settings) then FromFile(s, t, j, entry.value) else FromServer(s, t, j)
  {
    i := SeenIsFileAtRead(start, events, settings, j);
    ReadIsSeen(start, events, settings, j);
  }

  /** Right after its read a call carries what it saw. */
  lemma {:induction false} ReadIsSeen(start: State, events: seq<Event>, settings: Settings, j: nat)
    requires Begins(start, settings) && CanRun(start, events, settings) && j < |Run(start, events, settings).jobs|
    ensures var job := Run(start, events, settings).jobs[j]; job.phase.HasRead? ==> job.phase.users == job.seen
  {
    hide Begins, Step;
    CallsComeLater(start, events, settings, j);
    var front, e := events[..|events| - 1], events[|events| - 1];
    FrontCanRun(start, events, settings);
    var s := Run(start, front, settings);
    if j < |s.jobs| { ReadIsSeen(start, front, settings, j); }
    ReadStep(s, e, settings, j);
  }

  lemma ReadStep(s: State, e: Event, settings: Settings, j: nat)
    requires Enabled(s, e) && j < |Step(s, e, settings).jobs|
    requires j < |s.jobs| && s.jobs[j].phase.HasRead? ==> s.jobs[j].phase.users == s.jobs[j].seen
    ensures var job := Step(s, e, settings).jobs[j]; job.phase.HasRead? ==> job.phase.users == job.seen
  {
    if JobOf(e) != Some(j) { OthersStay(s, e, settings, j); }
  }

  // ------------------------------------------------------------ how long it is good

  lemma {:induction false} ClockGoesOn(start: State, events: seq<Event>, settings: Settings, q: nat)
    requires CanRun(start, events, settings) && q <= |events|
    ensures CanRun(start, events[..q], settings)
    ensures Run(start, events[..q], settings).now <= Run(start, events, settings).now
    decreases |events|
  {
    if q == |events| {
      assert events[..q] == events;
    } else {
      ClockGoesOn(start, events[..|events| - 1], settings, q);
      TakeTake(events, q, |events| - 1);
    }
  }

  /** The server's answer to acquisition `a` is the `q`-th event. */
  ghost predicate AnsweredAt(events: seq<Event>, a: nat, q: nat) {
    q < |events| && events[q].Answer? && events[q].job == a && events[q].ticket.Some?
  }

  /** What the acquisition carries for its user is good until `until` at least. */
  ghost predicate CarriesUntil(job: Job, until: int) {
    job.kind == Acquirer && !job.phase.HasRead? && Carried(job.phase).Some? ==>
      Entry(Carried(job.phase).value, job.user).Some? && until <= Entry(Carried(job.phase).value, job.user).value.expiresAt
  }

  /** An acquisition sets an expiry one lifetime after the server's answer, or later. */
  lemma {:induction false} ExpiresAfterAnswer(start: State, events: seq<Event>, settings: Settings, a: nat, q: nat)
    requires Begins(start, settings) && CanRun(start, events, settings) && AnsweredAt(events, a, q)
    ensures CanRun(start, events[..q], settings) && a < |Run(start, events, settings).jobs|
    ensures CarriesUntil(Run(start, events, settings).jobs[a], Run(start, events[..q], settings).now + settings.ttlMs)
  {
    hide Begins, Step, CarriesUntil;
    var front, e := events[..|events| - 1], events[|events| - 1];
    FrontCanRun(start, events, settings);
    ClockGoesOn(start, events, settings, q);
    var s := Run(start, front, settings);
    ReachedInv(start, front, settings);
    if q < |front| {
      assert front[q] == events[q];
      ExpiresAfterAnswer(start, front, settings, a, q);
      TakeTake(events, q, |front|);
      ClockGoesOn(start, front, settings, q);
      CarryUntilStep(s, e, settings, a, Run(start, events[..q], settings).now + settings.ttlMs);
    } else {
      JustAnswered(s, settings, a, e.ticket, s.now + settings.ttlMs);
    }
  }

  lemma JustAnswered(s: State, settings: Settings, a: nat, ticket: Option<string>, until: int)
    requires Enabled(s, Answer(a, ticket))
    ensures var t := Step(s, Answer(a, ticket), settings); a < |t.jobs| && CarriesUntil(t.jobs[a], until)
  {
  }

  lemma CarryUntilStep(s: State, e: Event, settings: Settings, a: nat, until: int)
    requires Inv(s, settings) && Enabled(s, e) && a < |s.jobs| && CarriesUntil(s.jobs[a], until)
    requires until <= s.now + settings.ttlMs
    ensures a < |Step(s, e, settings).jobs| && CarriesUntil(Step(s, e, settings).jobs[a], until)
  {
    hide Inv;
    IdentityStays(s, e, settings, a);
    if JobOf(e) != Some(a) {
      OthersStay(s, e, settings, a);
    } else if !e.Proceed? && !e.ReadDone? {
      CarriesOn(s, e, settings, a);
    }
  }

  // ------------------------------------------------------- asking again costs nothing

  /**
   Before the `i`-th event acquisition `a` for this user, answered at `q`, has ended well, saves came one at
   a time, and none for this user since its own.
   */
  ghost predicate ServedBefore(start: State, events: seq<Event>, settings: Settings, i: nat, user: string, a: nat, q: nat) {
    && i <= |events| && CanRun(start, events[..i], settings) && OneAtATime(start, events[..i], settings)
    && var s := Run(start, events[..i], settings);
    && a < |s.jobs| && EndedWell(s.jobs[a]) && s.jobs[a].user == user && AnsweredAt(events[..i], a, q)
    && forall r: nat | r < i && events[r] == Renamed(a, true) :: NoLaterSave(s, events[..i], r, user)
  }

  /** What the file then holds for the user: that acquisition's ticket, good for a lifetime from the answer. */
  lemma ServedIsStored(start: State, events: seq<Event>, settings: Settings, user: string, a: nat, q: nat) returns (stored: Stored)
    requires Begins(start, settings) && SmoothRun(events) && CanRun(start, events, settings)
    requires ServedBefore(start, events, settings, |events|, user, a, q)
    ensures CanRun(start, events[..q], settings)
    ensures var s := Run(start, events, settings);
      && a < |s.jobs| && s.jobs[a].ticket == Some(stored.ticket) && FileEntry(s, user) == Some(stored)
      && Run(start, events[..q], settings).now + settings.ttlMs <= stored.expiresAt
  {
    assert events[..|events|] == events;
    var r: nat;
    r, stored := EntryUntilNextSave(start, events, settings, a);
    AnsweredEarlier(start, events, settings, a, q, r);
    TakeTake(events, q, r);
    ExpiresAfterAnswer(start, events[..r], settings, a, q);
    RenamerIsAcquirer(start, events, settings, a, r);
  }

  /** Once it renames, an acquisition is not answered any more. */
  lemma {:induction false} AnsweredEarlier(start: State, events: seq<Event>, settings: Settings, a: nat, q: nat, r: nat)
    requires CanRun(start, events, settings) && AnsweredAt(events, a, q) && r < |events| && events[r] == Renamed(a, true)
    ensures q < r && AnsweredAt(events[..r], a, q)
    decreases |events|
  {
    var front, e := events[..|events| - 1], events[|events| - 1];
    FrontCanRun(start, events, settings);
    if q < |front| && r < |front| {
      AnsweredEarlier(start, front, settings, a, q, r);
      TakeTake(events, r, |front|);
    } else if q == |front| && r < |front| {
      RenamedIsEnded(start, front, settings, r);
    }
  }

  lemma {:induction false} RenamerIsAcquirer(start: State, events: seq<Event>, settings: Settings, a: nat, r: nat)
    requires CanRun(start, events, settings) && r < |events| && CanRun(start, events[..r], settings)
    requires a < |Run(start, events[..r], settings).jobs|
    ensures a < |Run(start, events, settings).jobs|
    ensures Run(start, events[..r], settings).jobs[a].kind == Run(start, events, settings).jobs[a].kind
    ensures Run(start, events[..r], settings).jobs[a].user == Run(start, events, settings).jobs[a].user
    decreases |events|
  {
    hide Step;
    var front, e := events[..|events| - 1], events[|events| - 1];
    FrontCanRun(start, events, settings);
    if r < |front| {
      TakeTake(events, r, |front|);
      RenamerIsAcquirer(start, front, settings, a, r);
    }
    IdentityStays(Run(start, front, settings), e, settings, a);
  }

  /**
   Main result: whatever else goes on, a caller that reads after an acquisition for its user ended well, with
   no save for that user in between, and goes on within `ttlMs - renewBeforeMs` of the server's answer, gets that
   very ticket; the server is not asked.
   */
  lemma AskingAgainIsFree(start: State, events: seq<Event>, settings: Settings, j: nat, a: nat, q: nat) returns (i: nat)
    requires Begins(start, settings) && CanRun(start, events, settings) && SmoothRun(events)
    requires Enabled(Run(start, events, settings), Proceed(j))
    requires Run(start, events, settings).jobs[j].kind == Caller && Run(start, events, settings).jobs[j].phase.HasRead?
    ensures i < |events| && events[i] == ReadDone(j, true) && CanRun(start, events[..i], settings)
    ensures var s, t := Run(start, events, settings), Step(Run(start, events, settings), Proceed(j), settings);
      ServedBefore(start, events, settings, i, s.jobs[j].user, a, q) && CanRun(start, events[..q], settings)
      && s.now < Run(start, events[..q], settings).now + settings.ttlMs - settings.renewBeforeMs ==>
        && a < |Run(start, events[..i], settings).jobs| && Run(start, events[..i], settings).jobs[a].ticket.Some?
        && t.jobs[j].phase.Returned? && t.jobs[j].phase.ticket == Run(start, events[..i], settings).jobs[a].ticket.value
        && |t.jobs| == |s.jobs| && t.inFlight == s.inFlight && t.log == s.log
  {
    i := ReadDecides(start, events, settings, j);
    assert Smooth(events[i]);
    var user := Run(start, events, settings).jobs[j].user;
    if ServedBefore(start, events, settings, i, user, a, q) {
      var before := events[..i];
      assert before[..i] == before && forall k | 0 <= k < i :: before[k] == events[k];
      assert SmoothRun(before);
      var stored := ServedIsStored(start, before, settings, user, a, q);
      TakeTake(events, q, i);
    }
  }

  /** The server's log has one entry for each answer with a ticket, for the user who asked, at that time; only ticks move the clock. */
  lemma OnlyAnswersIssue(s: State, e: Event, settings: Settings)
    requires Enabled(s, e)
    ensures Step(s, e, settings).log ==
            if e.Answer? && e.ticket.Some? then s.log + [Issue(s.jobs[e.job].user, e.ticket.value, s.now)] else s.log
    ensures Step(s, e, settings).now == s.now + if e.Tick? then e.ms else 0
  {
  }
}
