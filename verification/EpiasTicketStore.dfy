/** The store as it updates its map of acquisitions and the ticket file, one synchronous stretch a method. */
module EpiasTicketStore {
  import opened Prelude
  import opened TicketStore

  class Store {
    const settings: Settings
    var now: int
    var jobs: seq<Job>
    var inFlight: map<string, nat>
    var nodes: seq<Content>
    var path: Option<nat>
    var temp: Option<nat>
    ghost var log: seq<TicketStore.Issue>

    ghost function Now(): State
      reads this
    {
      State(now, jobs, inFlight, nodes, path, temp, log)
    }

    ghost predicate Valid()
      reads this
    {
      Inv(Now(), settings)
    }

    constructor (settings: Settings, now: int, file: Option<Content>, ghost log: seq<TicketStore.Issue>)
      requires Begins(Start(now, file).(log := log), settings)
      ensures this.settings == settings && Now() == Start(now, file).(log := log) && Valid()
    {
      this.settings, this.now, this.log := settings, now, log;
      jobs, inFlight, temp := [], map[], None;
      match file
      case None => nodes, path := [], None;
      case Some(content) => nodes, path := [content], Some(0);
    }

    method Suspend(j: nat, phase: Phase)
      requires j < |jobs|
      modifies this`jobs
      ensures Now() == SetPhase(old(Now()), j, phase)
    {
      jobs := jobs[j := jobs[j].(phase := phase)];
    }

    method Ticket(user: string) returns (j: nat)
      requires Valid()
      modifies this
      ensures j == |old(jobs)| && Now() == Step(old(Now()), AskTicket(user), settings) && Valid()
    {
      StepKeeps(Now(), AskTicket(user), settings);
      j := |jobs|;
      jobs := jobs + [Job(Caller, user, Reading, None, map[])];
    }

    method Invalidate(user: string) returns (j: nat)
      requires Valid()
      modifies this
      ensures j == |old(jobs)| && Now() == Step(old(Now()), AskInvalidate(user), settings) && Valid()
    {
      StepKeeps(Now(), AskInvalidate(user), settings);
      j := |jobs|;
      jobs := jobs + [Job(Invalidator, user, Reading, None, map[])];
    }

    method ReadFile(j: nat, readable: bool)
      requires Valid() && Enabled(Now(), ReadDone(j, readable))
      modifies this`jobs
      ensures Now() == Step(old(Now()), ReadDone(j, readable), settings) && Valid()
    {
      StepKeeps(Now(), ReadDone(j, readable), settings);
      var users: Users := map[];
      if readable && path.Some? && nodes[path.value].Whole? { users := nodes[path.value].users; }
      jobs := jobs[j := jobs[j].(phase := HasRead(users), seen := users)];
    }

    /** `ticket` after its read: no other call can come between the look into `inFlight` and the entry there. */
    method AfterRead(j: nat)
      requires Valid() && Enabled(Now(), Proceed(j)) && jobs[j].phase.HasRead? && jobs[j].kind == Caller
      modifies this
      ensures Now() == Step(old(Now()), Proceed(j), settings) && Valid()
    {
      StepKeeps(Now(), Proceed(j), settings);
      var user, cached := jobs[j].user, jobs[j].phase.users;
      if user in cached && cached[user].expiresAt > now + settings.renewBeforeMs {
        Suspend(j, Returned(cached[user].ticket, now, FromCache(cached[user].expiresAt)));
        return;
      }
      if user in inFlight {
        Suspend(j, Joined(inFlight[user]));
        return;
      }
      var promise := |jobs|;
      Suspend(j, Joined(promise));
      jobs := jobs + [Job(Acquirer, user, Fetching, None, map[])];
      inFlight := inFlight[user := promise];
    }

    /** The acquisition enters its ticket, or the invalidation drops one, into what was read. */
    method EditUsers(j: nat)
      requires Valid() && Enabled(Now(), Proceed(j)) && jobs[j].phase.HasRead? && jobs[j].kind != Caller
      modifies this`jobs
      ensures Now() == Step(old(Now()), Proceed(j), settings) && Valid()
    {
      StepKeeps(Now(), Proceed(j), settings);
      var job := jobs[j];
      var users := job.phase.users;
      if job.kind == Invalidator {
        users := users - {job.user};
      } else {
        users := users[job.user := Stored(job.ticket.GetOr(""), now + settings.ttlMs)];
      }
      Suspend(j, MakingDir(users));
    }

    method Conclude(j: nat, ok: bool)
      requires j < |jobs|
      modifies this`jobs
      ensures Now() == End(old(Now()), j, ok)
    {
      Suspend(j, if jobs[j].kind == Acquirer then Settled(ok) else Over(ok));
    }

    method Respond(j: nat, ticket: Option<string>)
      requires Valid() && Enabled(Now(), Answer(j, ticket))
      modifies this
      ensures Now() == Step(old(Now()), Answer(j, ticket), settings) && Valid()
    {
      StepKeeps(Now(), Answer(j, ticket), settings);
      if ticket == None {
        Conclude(j, false);
        return;
      }
      log := log + [TicketStore.Issue(jobs[j].user, ticket.value, now)];
      jobs := jobs[j := jobs[j].(phase := Reading, ticket := ticket)];
    }

    method OpenTemporary(j: nat)
      requires Valid() && Enabled(Now(), Opened(j, true))
      modifies this
      ensures Now() == Step(old(Now()), Opened(j, true), settings) && Valid()
    {
      StepKeeps(Now(), Opened(j, true), settings);
      var users := jobs[j].phase.users;
      if temp == None {
        temp := Some(|nodes|);
        nodes := nodes + [Torn];
      } else {
        nodes := nodes[temp.value := Torn];
      }
      Suspend(j, Writing(users, temp.value));
    }

    method RenameTemporary(j: nat, ok: bool)
      requires Valid() && Enabled(Now(), Renamed(j, ok))
      modifies this
      ensures Now() == Step(old(Now()), Renamed(j, ok), settings) && Valid()
    {
      StepKeeps(Now(), Renamed(j, ok), settings);
      if !ok || temp == None {
        Conclude(j, false);
        return;
      }
      path, temp := temp, None;
      Conclude(j, true);
    }

    /** `finally`: what is removed is this very acquisition. */
    method Forget(j: nat)
      requires Valid() && Enabled(Now(), Finally(j))
      modifies this
      ensures Now() == Step(old(Now()), Finally(j), settings) && Valid()
      ensures jobs[j].user in old(inFlight) && old(inFlight)[jobs[j].user] == j && jobs[j].user !in inFlight
    {
      StepKeeps(Now(), Finally(j), settings);
      inFlight := inFlight - {jobs[j].user};
      Suspend(j, Over(jobs[j].phase.ok));
    }

    /** A caller who joined gets what the acquisition came to. */
    method AfterJoin(j: nat)
      requires Valid() && Enabled(Now(), Proceed(j)) && jobs[j].phase.Joined?
      modifies this`jobs
      ensures Now() == Step(old(Now()), Proceed(j), settings) && Valid()
    {
      StepKeeps(Now(), Proceed(j), settings);
      var a := jobs[j].phase.acquisition;
      if jobs[a].phase.ok && jobs[a].ticket.Some? {
        Suspend(j, Returned(jobs[a].ticket.value, now, FromAcquisition(a)));
      } else {
        Suspend(j, Denied(a));
      }
    }
  }
}
