/** The 401 handling of the two API clients: one refresh at a time, everyone else waits in a queue. */
module RefreshQueue {
  import opened Prelude

  datatype Client = DemoField | ContainerWeb

  /** Where a call goes. A direct call uses an axios instance without interceptors. */
  datatype Kind = Plain | Login | Refresh | Direct

  /**
   * Where a request stands: at the server, waiting in the queue, its handler suspended on another
   * call, or settled. `token` tells whether the answer carried an access token.
   */
  datatype Status =
    | Sent
    | Queued
    | AwaitsRefresh(call: nat)
    | AwaitsGuest(call: nat)
    | AwaitsGuestThenFails(call: nat)
    | Resolved(token: bool)
    | Rejected

  /** `retried` is the `_retry` flag; the counters are bookkeeping. */
  datatype Request = Request(kind: Kind, status: Status, retried: bool, sends: nat, enqueued: nat, released: nat)

  datatype Effect = AuthCleared | TokensStored | WentToLogin

  /** `leader`: the request whose handler set `isRefreshing` (bookkeeping). */
  datatype State = State(
    requests: seq<Request>, isRefreshing: bool, failedQueue: seq<nat>, effects: seq<Effect>, leader: Option<nat>)

  const INITIAL := State([], false, [], [], None)

  datatype Answer = Success(token: bool) | Unauthorized | Failure

  /**
   * One synchronous stretch: the page sends a request, an answer arrives (`stored`: a refresh token
   * is in local storage), or a suspended handler continues.
   */
  datatype Event = Issue(kind: Kind) | Respond(id: nat, answer: Answer, stored: bool) | Resume(id: nat)

  predicate Settled(st: Status) { st.Resolved? || st.Rejected? }

  predicate Suspended(st: Status) { st.AwaitsRefresh? || st.AwaitsGuest? || st.AwaitsGuestThenFails? }

  predicate Leads(st: Status) { st.AwaitsRefresh? || st.AwaitsGuest? }

  predicate Enabled(s: State, e: Event) {
    match e
    case Issue(kind) => kind != Direct
    case Respond(id, _, _) => id < |s.requests| && s.requests[id].status == Sent
    case Resume(id) =>
      && id < |s.requests| && Suspended(s.requests[id].status)
      && s.requests[id].status.call < |s.requests|
      && Settled(s.requests[s.requests[id].status.call].status)
  }

  function New(kind: Kind): Request { Request(kind, Sent, false, 1, 0, 0) }

  function Resent(r: Request): Request { r.(status := Sent, retried := true, sends := r.sends + 1) }

  /** A waiter let go by `processQueue`. */
  function Released(r: Request, token: bool): Request {
    (if token then Resent(r) else r.(status := Rejected)).(released := r.released + 1)
  }

  /** `processQueue`: everyone in the queue, in order. */
  function ReleaseAll(requests: seq<Request>, queue: seq<nat>, token: bool): (r: seq<Request>)
    ensures |r| == |requests|
  {
    if queue == [] then requests
    else
      var before := ReleaseAll(requests, queue[..|queue| - 1], token);
      var id := queue[|queue| - 1];
      if id < |requests| then before[id := Released(before[id], token)] else before
  }

  function SetStatus(s: State, id: nat, st: Status): State
    requires id < |s.requests|
  {
    s.(requests := s.requests[id := s.requests[id].(status := st)])
  }

  function Did(s: State, effects: seq<Effect>): State { s.(effects := s.effects + effects) }

  function Fail(s: State, id: nat): State
    requires id < |s.requests|
  {
    SetStatus(s, id, Rejected)
  }

  /** The handler of `id` sends a call of its own and waits for it. */
  function Await(s: State, id: nat, kind: Kind, st: Status): State
    requires id < |s.requests|
  {
    var t := SetStatus(s, id, st);
    t.(requests := t.requests + [New(kind)])
  }

  function Lead(s: State, id: nat): State { s.(isRefreshing := true, leader := Some(id)) }

  function Enqueue(s: State, id: nat): State
    requires id < |s.requests|
  {
    var r := s.requests[id];
    s.(requests := s.requests[id := r.(status := Queued, enqueued := r.enqueued + 1)],
       failedQueue := s.failedQueue + [id])
  }

  /** The attempt is over: the queue is let go, and the leader is sent again or fails. */
  function Finish(s: State, id: nat, token: bool, again: bool): State
    requires id < |s.requests|
  {
    var released := ReleaseAll(s.requests, s.failedQueue, token);
    var r := released[id];
    State(released[id := if again then Resent(r) else r.(status := Rejected)], false, [], s.effects, None)
  }

  /** The error handler of demo-field. */
  function DemoError(s: State, id: nat, answer: Answer, stored: bool, tunnel: bool): State
    requires id < |s.requests|
  {
    var r := s.requests[id];
    if tunnel || r.kind == Login || answer != Unauthorized || r.retried then Fail(s, id)
    else if r.kind == Refresh then Fail(Did(s, [AuthCleared, WentToLogin]), id)
    else if s.isRefreshing then Enqueue(s, id)
    else if !stored then Fail(Did(s, [AuthCleared, WentToLogin]), id)
    else Await(Lead(s, id), id, Refresh, AwaitsRefresh(|s.requests|))
  }

  /** The error handler of container-web. */
  function ContainerError(s: State, id: nat, answer: Answer, stored: bool, tunnel: bool): State
    requires id < |s.requests|
  {
    var r := s.requests[id];
    if tunnel || answer != Unauthorized || r.retried || r.kind == Login then Fail(s, id)
    else if r.kind == Refresh then Await(Did(s, [AuthCleared]), id, Direct, AwaitsGuestThenFails(|s.requests|))
    else if s.isRefreshing then Enqueue(s, id)
    else if !stored then Await(Did(Lead(s, id), [AuthCleared]), id, Direct, AwaitsGuest(|s.requests|))
    else Await(Lead(s, id), id, Direct, AwaitsRefresh(|s.requests|))
  }

  function Receive(s: State, id: nat, answer: Answer, stored: bool, client: Client, tunnel: bool): State
    requires id < |s.requests|
  {
    if answer.Success? then SetStatus(s, id, Resolved(answer.token))
    else if s.requests[id].kind == Direct then Fail(s, id)
    else if client == DemoField then DemoError(s, id, answer, stored, tunnel)
    else ContainerError(s, id, answer, stored, tunnel)
  }

  /** The refresh call has settled. */
  function AfterRefresh(s: State, id: nat, result: Status, client: Client): State
    requires id < |s.requests|
  {
    if result.Resolved? then Finish(Did(s, [TokensStored]), id, result.token, true)
    else if client == DemoField then Did(Finish(s, id, false, false), [AuthCleared, WentToLogin])
    else Await(Did(s, [AuthCleared]), id, Direct, AwaitsGuest(|s.requests|))
  }

  /** The guest login has settled; without a token it is a failure. */
  function AfterGuest(s: State, id: nat, result: Status): State
    requires id < |s.requests|
  {
    if result.Resolved? && result.token then Finish(Did(s, [TokensStored]), id, true, true)
    else Did(Finish(Did(s, if result.Resolved? then [TokensStored] else []), id, false, false), [WentToLogin])
  }

  function AfterGuestThenFail(s: State, id: nat, result: Status): State
    requires id < |s.requests|
  {
    Fail(Did(s, (if result.Resolved? then [TokensStored] else [])
                + (if result.Resolved? && result.token then [] else [WentToLogin])), id)
  }

  function Continue(s: State, id: nat, client: Client): State
    requires Enabled(s, Resume(id))
  {
    var st := s.requests[id].status;
    var result := s.requests[st.call].status;
    if st.AwaitsRefresh? then AfterRefresh(s, id, result, client)
    else if st.AwaitsGuest? then AfterGuest(s, id, result)
    else AfterGuestThenFail(s, id, result)
  }

  function Step(s: State, e: Event, client: Client, tunnel: bool): State
    requires Enabled(s, e)
  {
    match e
    case Issue(kind) => s.(requests := s.requests + [New(kind)])
    case Respond(id, answer, stored) => Receive(s, id, answer, stored, client, tunnel)
    case Resume(id) => Continue(s, id, client)
  }

  // ------------------------------------------------------------- the invariant

  /** What holds of each request on its own. */
  predicate Healthy(r: Request, client: Client) {
    && r.sends == (if r.retried then 2 else 1)
    && r.enqueued == r.released + (if r.status == Queued then 1 else 0) <= 1
    && (r.kind != Plain ==> !r.retried && r.enqueued == 0 && r.status != Queued && !Leads(r.status))
    && (r.kind == Direct || r.kind == Login || client == DemoField ==> !r.status.AwaitsGuestThenFails?)
    && (client == DemoField ==> !r.status.AwaitsGuest?)
    && (r.status.AwaitsGuestThenFails? ==> r.kind == Refresh)
    && (r.status == Queued || Leads(r.status) ==> !r.retried)
    && (!r.retried && (r.status == Sent || Leads(r.status)) ==> r.enqueued == 0)
  }

  /** The call a handler waits for is on its way or settled: it can never be queued itself. */
  predicate CallIsFree(s: State, i: nat, client: Client)
    requires i < |s.requests|
  {
    var st := s.requests[i].status;
    Suspended(st) ==>
      && st.call < |s.requests|
      && s.requests[st.call].kind == (if client == DemoField then Refresh else Direct)
      && (s.requests[st.call].status == Sent || Settled(s.requests[st.call].status))
  }

  ghost predicate QueueMatches(s: State) {
    && (forall k | 0 <= k < |s.failedQueue| ::
          s.failedQueue[k] < |s.requests| && s.requests[s.failedQueue[k]].status == Queued)
    && (forall j, k | 0 <= j < k < |s.failedQueue| :: s.failedQueue[j] != s.failedQueue[k])
    && (forall i | 0 <= i < |s.requests| && s.requests[i].status == Queued :: i in s.failedQueue)
  }

  ghost predicate LeaderMatches(s: State) {
    && (s.isRefreshing <==> s.leader.Some?)
    && (s.leader.Some? ==> s.leader.value < |s.requests| && Leads(s.requests[s.leader.value].status))
    && (forall i | 0 <= i < |s.requests| && Leads(s.requests[i].status) :: s.leader == Some(i))
    && (!s.isRefreshing ==> s.failedQueue == [])
  }

  ghost predicate Inv(s: State, client: Client) {
    && (forall i | 0 <= i < |s.requests| :: Healthy(s.requests[i], client) && CallIsFree(s, i, client))
    && QueueMatches(s) && LeaderMatches(s)
  }

  /** `processQueue` touches exactly the requests in the queue, each once. */
  lemma {:induction false} ReleaseAllAt(requests: seq<Request>, queue: seq<nat>, token: bool, i: nat)
    requires i < |requests|
    requires forall j, k | 0 <= j < k < |queue| :: queue[j] != queue[k]
    ensures ReleaseAll(requests, queue, token)[i] == if i in queue then Released(requests[i], token) else requests[i]
  {
    if queue != [] {
      var n := |queue| - 1;
      ReleaseAllAt(requests, queue[..n], token, i);
      assert queue == queue[..n] + [queue[n]];
      assert queue[n] !in queue[..n];
    }
  }

  lemma IssueKeeps(s: State, kind: Kind, client: Client)
    requires Inv(s, client)
    ensures Inv(s.(requests := s.requests + [New(kind)]), client)
  {
  }

  lemma SettleKeeps(s: State, id: nat, st: Status, client: Client)
    requires Inv(s, client) && id < |s.requests| && Settled(st)
    requires s.requests[id].status == Sent || s.requests[id].status.AwaitsGuestThenFails?
    ensures Inv(SetStatus(s, id, st), client)
  {
  }

  lemma EnqueueKeeps(s: State, id: nat, client: Client)
    requires Inv(s, client) && id < |s.requests| && s.isRefreshing
    requires s.requests[id].status == Sent && s.requests[id].kind == Plain && !s.requests[id].retried
    ensures Inv(Enqueue(s, id), client)
  {
    var t := Enqueue(s, id);
    assert id !in s.failedQueue;
    assert t.failedQueue[|s.failedQueue|] == id;
  }

  /** When a handler may start to wait on a call of its own: as the leader, or on its way to failing. */
  ghost predicate MayAwait(s: State, id: nat, st: Status, client: Client) {
    && Inv(s, client) && id < |s.requests| && Suspended(st) && st.call == |s.requests|
    && (s.requests[id].status == Sent || s.requests[id].status.AwaitsRefresh?)
    && s.requests[id].kind != Direct
    && (Leads(st) ==>
          s.requests[id].kind == Plain && !s.requests[id].retried && (s.isRefreshing ==> s.leader == Some(id)))
    && (!Leads(st) ==> s.requests[id].kind == Refresh && client == ContainerWeb && s.requests[id].status == Sent)
    && (st.AwaitsGuest? ==> client == ContainerWeb)
  }

  lemma AwaitKeepsRequests(s: State, id: nat, st: Status, client: Client, i: nat)
    requires MayAwait(s, id, st, client) && i <= |s.requests|
    ensures var t := Await(s, id, if client == DemoField then Refresh else Direct, st);
      Healthy(t.requests[i], client) && CallIsFree(t, i, client)
  {
    assert Healthy(s.requests[id], client);
    if i < |s.requests| && i != id { assert Healthy(s.requests[i], client) && CallIsFree(s, i, client); }
  }

  lemma AwaitKeepsQueue(s: State, id: nat, st: Status, kind: Kind, client: Client)
    requires MayAwait(s, id, st, client)
    ensures QueueMatches(Await(s, id, kind, st))
  {
    var t := Await(s, id, kind, st);
    assert id !in s.failedQueue;
    forall i | 0 <= i < |t.requests| && t.requests[i].status == Queued ensures i in t.failedQueue {
      assert t.requests[i] == s.requests[i];
    }
  }

  lemma AwaitKeepsLeader(s: State, id: nat, st: Status, kind: Kind, client: Client)
    requires MayAwait(s, id, st, client)
    ensures LeaderMatches(Await(if Leads(st) then Lead(s, id) else s, id, kind, st))
  {
    var t := Await(if Leads(st) then Lead(s, id) else s, id, kind, st);
    forall i | 0 <= i < |t.requests| && Leads(t.requests[i].status) ensures t.leader == Some(i) {
      if i != id { assert t.requests[i] == s.requests[i]; }
    }
  }

  lemma AwaitKeeps(s: State, id: nat, st: Status, client: Client)
    requires MayAwait(s, id, st, client)
    ensures var kind := if client == DemoField then Refresh else Direct;
      Inv(Await(if Leads(st) then Lead(s, id) else s, id, kind, st), client)
  {
    var kind := if client == DemoField then Refresh else Direct;
    var u, t := Await(s, id, kind, st), Await(if Leads(st) then Lead(s, id) else s, id, kind, st);
    AwaitKeepsQueue(s, id, st, kind, client);
    AwaitKeepsLeader(s, id, st, kind, client);
    forall i | 0 <= i < |t.requests| ensures Healthy(t.requests[i], client) && CallIsFree(t, i, client) {
      AwaitKeepsRequests(s, id, st, client, i);
      assert CallIsFree(u, i, client) ==> CallIsFree(t, i, client);
    }
  }

  lemma FinishAt(s: State, id: nat, token: bool, again: bool, client: Client, i: nat)
    requires Inv(s, client) && s.leader == Some(id) && i < |s.requests|
    ensures Finish(s, id, token, again).requests[i]
         == if i == id then (if again then Resent(s.requests[i]) else s.requests[i].(status := Rejected))
            else if i in s.failedQueue then Released(s.requests[i], token)
            else s.requests[i]
  {
    ReleaseAllAt(s.requests, s.failedQueue, token, i);
  }

  lemma FinishKeeps(s: State, id: nat, token: bool, again: bool, client: Client)
    requires Inv(s, client) && s.leader == Some(id)
    ensures Inv(Finish(s, id, token, again), client)
  {
    var t := Finish(s, id, token, again);
    forall i | 0 <= i < |t.requests|
      ensures Healthy(t.requests[i], client) && t.requests[i].status != Queued && !Leads(t.requests[i].status)
      ensures t.requests[i].kind == s.requests[i].kind
      ensures i !in s.failedQueue && i != id ==> t.requests[i] == s.requests[i]
    {
      FinishAt(s, id, token, again, client, i);
    }
    forall i | 0 <= i < |t.requests| ensures CallIsFree(t, i, client) {
      FinishAt(s, id, token, again, client, i);
      assert CallIsFree(s, i, client);
    }
  }

  lemma EffectsKeep(s: State, effects: seq<Effect>, client: Client)
    requires Inv(s, client)
    ensures Inv(Did(s, effects), client)
  {
    var t := Did(s, effects);
    assert forall i | 0 <= i < |t.requests| :: CallIsFree(s, i, client) ==> CallIsFree(t, i, client);
  }

  lemma ReceiveKeeps(s: State, id: nat, answer: Answer, stored: bool, client: Client, tunnel: bool)
    requires Inv(s, client) && Enabled(s, Respond(id, answer, stored))
    ensures Inv(Receive(s, id, answer, stored, client, tunnel), client)
  {
    var r, n := s.requests[id], |s.requests|;
    assert Healthy(r, client);
    if answer.Success? {
      SettleKeeps(s, id, Resolved(answer.token), client);
    } else if r.kind == Direct || tunnel || r.kind == Login || answer != Unauthorized || r.retried {
      SettleKeeps(s, id, Rejected, client);
    } else if r.kind == Refresh {
      EffectsKeep(s, [AuthCleared, WentToLogin], client);
      EffectsKeep(s, [AuthCleared], client);
      SettleKeeps(Did(s, [AuthCleared, WentToLogin]), id, Rejected, client);
      if client == ContainerWeb { AwaitKeeps(Did(s, [AuthCleared]), id, AwaitsGuestThenFails(n), client); }
    } else if s.isRefreshing {
      EnqueueKeeps(s, id, client);
    } else if stored {
      AwaitKeeps(s, id, AwaitsRefresh(n), client);
    } else {
      EffectsKeep(s, [AuthCleared, WentToLogin], client);
      EffectsKeep(s, [AuthCleared], client);
      SettleKeeps(Did(s, [AuthCleared, WentToLogin]), id, Rejected, client);
      if client == ContainerWeb { AwaitKeeps(Did(s, [AuthCleared]), id, AwaitsGuest(n), client); }
    }
  }

  lemma ContinueKeeps(s: State, id: nat, client: Client)
    requires Inv(s, client) && Enabled(s, Resume(id))
    ensures Inv(Continue(s, id, client), client)
  {
    var st := s.requests[id].status;
    var result := s.requests[st.call].status;
    assert Healthy(s.requests[id], client);
    if st.AwaitsRefresh? {
      if result.Resolved? {
        EffectsKeep(s, [TokensStored], client);
        FinishKeeps(Did(s, [TokensStored]), id, result.token, true, client);
      } else if client == DemoField {
        FinishKeeps(s, id, false, false, client);
        EffectsKeep(Finish(s, id, false, false), [AuthCleared, WentToLogin], client);
      } else {
        EffectsKeep(s, [AuthCleared], client);
        AwaitKeeps(Did(s, [AuthCleared]), id, AwaitsGuest(|s.requests|), client);
        LeadAgain(Did(s, [AuthCleared]), id, client);
      }
    } else if st.AwaitsGuest? {
      var effects := if result.Resolved? then [TokensStored] else [];
      EffectsKeep(s, effects, client);
      if result.Resolved? && result.token {
        FinishKeeps(Did(s, [TokensStored]), id, true, true, client);
      } else {
        FinishKeeps(Did(s, effects), id, false, false, client);
        EffectsKeep(Finish(Did(s, effects), id, false, false), [WentToLogin], client);
      }
    } else {
      var effects := (if result.Resolved? then [TokensStored] else [])
        + (if result.Resolved? && result.token then [] else [WentToLogin]);
      EffectsKeep(s, effects, client);
      SettleKeeps(Did(s, effects), id, Rejected, client);
    }
  }

  lemma LeadAgain(s: State, id: nat, client: Client)
    requires Inv(s, client) && id < |s.requests| && Leads(s.requests[id].status)
    ensures Lead(s, id) == s
  {
  }

  /** Whether events can happen one after the other, and the state they lead to. */
  ghost predicate CanRun(events: seq<Event>, client: Client, tunnel: bool)
    decreases |events|, 0
  {
    events != [] ==>
      && CanRun(events[..|events| - 1], client, tunnel)
      && Enabled(Run(events[..|events| - 1], client, tunnel), events[|events| - 1])
  }

  ghost function Run(events: seq<Event>, client: Client, tunnel: bool): State
    requires CanRun(events, client, tunnel)
    decreases |events|, 1
  {
    if events == [] then INITIAL
    else Step(Run(events[..|events| - 1], client, tunnel), events[|events| - 1], client, tunnel)
  }

  lemma {:induction false} RunKeepsInv(events: seq<Event>, client: Client, tunnel: bool)
    requires CanRun(events, client, tunnel)
    ensures Inv(Run(events, client, tunnel), client)
  {
    if events != [] {
      var before, e := Run(events[..|events| - 1], client, tunnel), events[|events| - 1];
      RunKeepsInv(events[..|events| - 1], client, tunnel);
      match e
      case Issue(kind) => IssueKeeps(before, kind, client);
      case Respond(id, answer, stored) => ReceiveKeeps(before, id, answer, stored, client, tunnel);
      case Resume(id) => ContinueKeeps(before, id, client);
    }
  }

  // ------------------------------------------------------------ on every schedule

  /**
   * At most one request leads a refresh; without one nobody waits; every waiter is let go at most
   * once and is waiting exactly until then; no request is sent more than twice; logins, refreshes
   * and the client's own calls are sent once and never wait in the queue.
   */
  lemma SingleFlight(events: seq<Event>, client: Client, tunnel: bool)
    requires CanRun(events, client, tunnel)
    ensures var s := Run(events, client, tunnel);
      && (forall i, j | 0 <= i < |s.requests| && 0 <= j < |s.requests| ::
            Leads(s.requests[i].status) && Leads(s.requests[j].status) ==> i == j)
      && (s.isRefreshing <==> exists i :: 0 <= i < |s.requests| && Leads(s.requests[i].status))
      && (!s.isRefreshing ==> s.failedQueue == [])
      && (!s.isRefreshing ==> forall i | 0 <= i < |s.requests| :: s.requests[i].status != Queued)
      && (forall i | 0 <= i < |s.requests| ::
            && s.requests[i].sends <= 2
            && s.requests[i].enqueued <= 1
            && s.requests[i].released == s.requests[i].enqueued - (if s.requests[i].status == Queued then 1 else 0)
            && (s.requests[i].kind != Plain ==> s.requests[i].sends == 1 && s.requests[i].enqueued == 0))
  {
    RunKeepsInv(events, client, tunnel);
    var s := Run(events, client, tunnel);
    forall i | 0 <= i < |s.requests| ensures Healthy(s.requests[i], client) {}
    if s.isRefreshing { assert Leads(s.requests[s.leader.value].status); }
  }

  ghost predicate Inert(s: State) {
    && !s.isRefreshing && s.failedQueue == [] && s.effects == []
    && forall i | 0 <= i < |s.requests| ::
         s.requests[i].sends == 1 && (s.requests[i].status == Sent || Settled(s.requests[i].status))
  }

  lemma TunnelStaysInert(s: State, e: Event, client: Client)
    requires Inert(s) && Enabled(s, e)
    ensures Inert(Step(s, e, client, true))
  {
  }

  /** In tunnel mode nothing is refreshed, stored, cleared or redirected, and every error is passed on. */
  lemma {:induction false} TunnelIsInert(events: seq<Event>, client: Client)
    requires CanRun(events, client, true)
    ensures Inert(Run(events, client, true))
  {
    if events != [] {
      TunnelIsInert(events[..|events| - 1], client);
      TunnelStaysInert(Run(events[..|events| - 1], client, true), events[|events| - 1], client);
    }
  }

  // --------------------------------------------------- every request is settled

  /** How many more stretches a request can still take, its own calls included. */
  function Weight(r: Request): nat {
    match r.status
    case Resolved(_) => 0
    case Rejected => 0
    case Queued => 1
    case AwaitsGuestThenFails(_) => 1
    case AwaitsGuest(_) => 2
    case AwaitsRefresh(_) => 4
    case Sent => if r.retried || r.kind == Direct || r.kind == Login then 1 else if r.kind == Refresh then 3 else 8
  }

  function Total(requests: seq<Request>): nat {
    if requests == [] then 0 else Total(requests[..|requests| - 1]) + Weight(requests[|requests| - 1])
  }

  lemma {:induction false} TotalUpdate(requests: seq<Request>, i: nat, r: Request)
    requires i < |requests|
    ensures Total(requests[i := r]) == Total(requests) - Weight(requests[i]) + Weight(r)
  {
    var n := |requests| - 1;
    if i < n {
      TotalUpdate(requests[..n], i, r);
      assert requests[i := r][..n] == requests[..n][i := r];
    } else {
      assert requests[i := r][..n] == requests[..n];
    }
  }

  lemma TotalAppend(requests: seq<Request>, r: Request)
    ensures Total(requests + [r]) == Total(requests) + Weight(r)
  {
    assert (requests + [r])[..|requests|] == requests;
  }

  lemma {:induction false} TotalRelease(requests: seq<Request>, queue: seq<nat>, token: bool)
    requires forall k | 0 <= k < |queue| :: queue[k] < |requests| && requests[queue[k]].status == Queued
    requires forall j, k | 0 <= j < k < |queue| :: queue[j] != queue[k]
    ensures Total(ReleaseAll(requests, queue, token)) <= Total(requests)
  {
    if queue != [] {
      var n := |queue| - 1;
      var before := ReleaseAll(requests, queue[..n], token);
      TotalRelease(requests, queue[..n], token);
      ReleaseAllAt(requests, queue[..n], token, queue[n]);
      TotalUpdate(before, queue[n], Released(before[queue[n]], token));
    }
  }

  lemma FinishTotal(s: State, id: nat, token: bool, again: bool, client: Client)
    requires Inv(s, client) && s.leader == Some(id)
    ensures Total(Finish(s, id, token, again).requests) < Total(s.requests)
  {
    var released := ReleaseAll(s.requests, s.failedQueue, token);
    TotalRelease(s.requests, s.failedQueue, token);
    ReleaseAllAt(s.requests, s.failedQueue, token, id);
    assert id !in s.failedQueue;
    var r := released[id];
    TotalUpdate(released, id, if again then Resent(r) else r.(status := Rejected));
  }

  lemma AwaitTotal(s: State, id: nat, kind: Kind, st: Status)
    requires id < |s.requests|
    ensures Total(Await(s, id, kind, st).requests)
         == Total(s.requests) - Weight(s.requests[id]) + Weight(s.requests[id].(status := st)) + Weight(New(kind))
  {
    TotalUpdate(s.requests, id, s.requests[id].(status := st));
    TotalAppend(s.requests[id := s.requests[id].(status := st)], New(kind));
  }

  lemma StatusTotal(s: State, id: nat, st: Status)
    requires id < |s.requests| && s.requests[id].status == Sent && (Settled(st) || st == Queued)
    requires st == Queued ==> s.requests[id].kind == Plain && !s.requests[id].retried
    ensures Total(SetStatus(s, id, st).requests) < Total(s.requests)
    ensures st == Queued ==> Total(Enqueue(s, id).requests) < Total(s.requests)
  {
    var r := s.requests[id];
    TotalUpdate(s.requests, id, r.(status := st));
    TotalUpdate(s.requests, id, r.(status := Queued, enqueued := r.enqueued + 1));
  }

  lemma DemoErrorTotal(s: State, id: nat, answer: Answer, stored: bool, tunnel: bool)
    requires id < |s.requests| && s.requests[id].status == Sent && s.requests[id].kind != Direct
    ensures Total(DemoError(s, id, answer, stored, tunnel).requests) < Total(s.requests)
  {
    var r := s.requests[id];
    StatusTotal(s, id, Rejected);
    if tunnel || r.kind == Login || answer != Unauthorized || r.retried || r.kind == Refresh {
    } else if s.isRefreshing {
      StatusTotal(s, id, Queued);
    } else {
      AwaitTotal(Lead(s, id), id, Refresh, AwaitsRefresh(|s.requests|));
    }
  }

  /** A request that starts to wait on a call of its own has fewer stretches before it, the call's included. */
  lemma AwaitShrinks(s: State, id: nat, st: Status)
    requires id < |s.requests| && s.requests[id].status == Sent && !s.requests[id].retried
    requires (s.requests[id].kind == Plain && Leads(st)) || (s.requests[id].kind == Refresh && st.AwaitsGuestThenFails?)
    ensures Total(Await(s, id, Direct, st).requests) < Total(s.requests)
  {
    AwaitTotal(s, id, Direct, st);
  }

  lemma ContainerErrorTotal(s: State, id: nat, answer: Answer, stored: bool, tunnel: bool)
    requires id < |s.requests| && s.requests[id].status == Sent && s.requests[id].kind != Direct
    ensures Total(ContainerError(s, id, answer, stored, tunnel).requests) < Total(s.requests)
  {
    var r, n := s.requests[id], |s.requests|;
    if tunnel || r.kind == Login || answer != Unauthorized || r.retried {
      StatusTotal(s, id, Rejected);
    } else if r.kind == Refresh {
      AwaitShrinks(Did(s, [AuthCleared]), id, AwaitsGuestThenFails(n));
    } else if s.isRefreshing {
      StatusTotal(s, id, Queued);
    } else if stored {
      AwaitShrinks(Lead(s, id), id, AwaitsRefresh(n));
    } else {
      AwaitShrinks(Did(Lead(s, id), [AuthCleared]), id, AwaitsGuest(n));
    }
  }

  lemma ReceiveTotal(s: State, id: nat, answer: Answer, stored: bool, client: Client, tunnel: bool)
    requires Enabled(s, Respond(id, answer, stored))
    ensures Total(Receive(s, id, answer, stored, client, tunnel).requests) < Total(s.requests)
  {
    if answer.Success? {
      StatusTotal(s, id, Resolved(answer.token));
    } else if s.requests[id].kind == Direct {
      StatusTotal(s, id, Rejected);
    } else if client == DemoField {
      DemoErrorTotal(s, id, answer, stored, tunnel);
    } else {
      ContainerErrorTotal(s, id, answer, stored, tunnel);
    }
  }

  lemma AfterRefreshTotal(s: State, id: nat, result: Status, client: Client)
    requires Inv(s, client) && s.leader == Some(id) && s.requests[id].status.AwaitsRefresh?
    ensures Total(AfterRefresh(s, id, result, client).requests) < Total(s.requests)
  {
    if result.Resolved? {
      EffectsKeep(s, [TokensStored], client);
      FinishTotal(Did(s, [TokensStored]), id, result.token, true, client);
    } else if client == DemoField {
      FinishTotal(s, id, false, false, client);
    } else {
      AwaitTotal(Did(s, [AuthCleared]), id, Direct, AwaitsGuest(|s.requests|));
    }
  }

  lemma AfterGuestTotal(s: State, id: nat, result: Status, client: Client)
    requires Inv(s, client) && s.leader == Some(id)
    ensures Total(AfterGuest(s, id, result).requests) < Total(s.requests)
  {
    var effects := if result.Resolved? then [TokensStored] else [];
    EffectsKeep(s, effects, client);
    FinishTotal(Did(s, effects), id, result.Resolved? && result.token, result.Resolved? && result.token, client);
  }

  lemma ContinueTotal(s: State, id: nat, client: Client)
    requires Inv(s, client) && Enabled(s, Resume(id))
    ensures Total(Continue(s, id, client).requests) < Total(s.requests)
  {
    var st := s.requests[id].status;
    var result := s.requests[st.call].status;
    if st.AwaitsRefresh? {
      AfterRefreshTotal(s, id, result, client);
    } else if st.AwaitsGuest? {
      AfterGuestTotal(s, id, result, client);
    } else {
      TotalUpdate(s.requests, id, s.requests[id].(status := Rejected));
    }
  }

  function Issued(events: seq<Event>): nat {
    if events == [] then 0
    else Issued(events[..|events| - 1]) + (if events[|events| - 1].Issue? then 1 else 0)
  }

  /**
   * The handlers come to rest: after its own sending, a request accounts for at most eight further
   * stretches, its refresh, guest login and second sending included, whatever the schedule.
   */
  lemma {:induction false} WorkIsBounded(events: seq<Event>, client: Client, tunnel: bool)
    requires CanRun(events, client, tunnel)
    ensures |events| + Total(Run(events, client, tunnel).requests) <= 9 * Issued(events)
  {
    hide Inv, Receive, Continue;
    if events != [] {
      var front, e := events[..|events| - 1], events[|events| - 1];
      var before := Run(front, client, tunnel);
      WorkIsBounded(front, client, tunnel);
      RunKeepsInv(front, client, tunnel);
      match e
      case Issue(kind) => TotalAppend(before.requests, New(kind));
      case Respond(id, answer, stored) => ReceiveTotal(before, id, answer, stored, client, tunnel);
      case Resume(id) => ContinueTotal(before, id, client);
    }
  }

  /**
   * Nobody is stuck: while any request is unsettled, an answer is still due or a handler can
   * continue. With the bound on the work, every request, queued or not, is settled in the end.
   */
  lemma NobodyIsStuck(events: seq<Event>, client: Client, tunnel: bool, i: nat) returns (id: nat)
    requires CanRun(events, client, tunnel) && i < |Run(events, client, tunnel).requests|
    requires !Settled(Run(events, client, tunnel).requests[i].status)
    ensures var s := Run(events, client, tunnel);
      Enabled(s, Resume(id)) || (id < |s.requests| && s.requests[id].status == Sent)
  {
    RunKeepsInv(events, client, tunnel);
    var s := Run(events, client, tunnel);
    var at := if s.requests[i].status == Queued then s.leader.value else i;
    assert CallIsFree(s, at, client);
    var st := s.requests[at].status;
    id := if Suspended(st) && s.requests[st.call].status == Sent then st.call else at;
  }
}
