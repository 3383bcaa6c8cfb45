/** What becomes of the requests and of the session: who is sent again, who fails, and when tokens are stored or cleared. */
module RefreshOutcome {
  import opened Prelude
  import opened RefreshQueue

  /** Sent again, with the retry flag, for the second and last time. */
  predicate SentAgain(r: Request) { r.status == Sent && r.retried && r.sends == 2 }

  /** Failed, and sent only once. */
  predicate FailedAtOnce(r: Request) { r.status == Rejected && !r.retried && r.sends == 1 }

  predicate WithToken(st: Status) { st == Resolved(true) }

  /** The attempt of leader `id` is over: everyone who waited goes the same way, and nobody else is touched. */
  ghost predicate AttemptOver(s: State, t: State, id: nat, waitersSent: bool, leaderSent: bool)
    requires id < |s.requests|
  {
    && !t.isRefreshing && t.leader == None && t.failedQueue == [] && |t.requests| == |s.requests|
    && (forall i | 0 <= i < |s.requests| && s.requests[i].status == Queued ::
          if waitersSent then SentAgain(t.requests[i]) else FailedAtOnce(t.requests[i]))
    && (if leaderSent then SentAgain(t.requests[id]) else FailedAtOnce(t.requests[id]))
    && forall i | 0 <= i < |s.requests| && s.requests[i].status != Queued && i != id :: t.requests[i] == s.requests[i]
  }

  /** The attempt goes on with a guest login; the queue stays. */
  ghost predicate AttemptGoesOn(s: State, t: State, id: nat)
    requires id < |s.requests|
  {
    && t.isRefreshing && t.leader == Some(id) && t.failedQueue == s.failedQueue
    && |t.requests| == |s.requests| + 1 && t.requests[|s.requests|] == Request(Direct, Sent, false, 1, 0, 0)
    && t.requests[id] == s.requests[id].(status := AwaitsGuest(|s.requests|))
    && forall i | 0 <= i < |s.requests| && i != id :: t.requests[i] == s.requests[i]
  }

  lemma FinishIsOver(s: State, id: nat, token: bool, again: bool, client: Client)
    requires Inv(s, client) && s.leader == Some(id)
    ensures AttemptOver(s, Finish(s, id, token, again), id, token, again)
  {
    var t := Finish(s, id, token, again);
    forall i | 0 <= i < |s.requests|
      ensures s.requests[i].status == Queued ==> if token then SentAgain(t.requests[i]) else FailedAtOnce(t.requests[i])
      ensures i == id ==> if again then SentAgain(t.requests[i]) else FailedAtOnce(t.requests[i])
      ensures s.requests[i].status != Queued && i != id ==> t.requests[i] == s.requests[i]
    {
      FinishAt(s, id, token, again, client, i);
      assert Healthy(s.requests[i], client);
    }
  }

  /**
   * On every schedule, when the leader's own call has settled: with a token everybody who waited and
   * the leader are sent again; without one they all fail after one sending. Only a refresh that is
   * answered without a token tells them apart: the leader is sent again, the others fail. A failed
   * refresh of container-web is followed by a guest login while the others wait on.
   */
  lemma LeaderDecides(events: seq<Event>, client: Client, tunnel: bool, id: nat)
    requires CanRun(events, client, tunnel)
    requires Run(events, client, tunnel).leader == Some(id) && Enabled(Run(events, client, tunnel), Resume(id))
    ensures id < |Run(events, client, tunnel).requests|
    ensures var s := Run(events, client, tunnel);
      var t := Step(s, Resume(id), client, tunnel);
      var result := s.requests[s.requests[id].status.call].status;
      if s.requests[id].status.AwaitsRefresh? && result == Rejected && client == ContainerWeb then AttemptGoesOn(s, t, id)
      else AttemptOver(s, t, id, WithToken(result), WithToken(result) || (result.Resolved? && s.requests[id].status.AwaitsRefresh?))
  {
    RunKeepsInv(events, client, tunnel);
    var s := Run(events, client, tunnel);
    var st := s.requests[id].status;
    var result := s.requests[st.call].status;
    EffectsKeep(s, [TokensStored], client);
    FinishIsOver(s, id, false, false, client);
    if result.Resolved? {
      FinishIsOver(Did(s, [TokensStored]), id, result.token, result.token || st.AwaitsRefresh?, client);
    }
  }

  // ------------------------------------------------------------ which errors count

  /** The error that sets the handling of 401 in motion: the first one of a request that is no login, outside the tunnel. */
  predicate Counts(r: Request, answer: Answer, tunnel: bool) {
    !tunnel && answer == Unauthorized && !r.retried && (r.kind == Plain || r.kind == Refresh)
  }

  /** Any other answer is passed on, a success with what it carries, and nothing else happens. */
  lemma OthersPass(s: State, id: nat, answer: Answer, stored: bool, client: Client, tunnel: bool)
    requires id < |s.requests| && !Counts(s.requests[id], answer, tunnel)
    ensures Receive(s, id, answer, stored, client, tunnel)
         == s.(requests := s.requests[id := s.requests[id].(status := if answer.Success? then Resolved(answer.token) else Rejected)])
  {
  }

  /**
   * The first 401 of a page request: it waits when a refresh is under way; otherwise it leads one with
   * the stored token; without a token it fails, or in container-web leads a guest login.
   */
  lemma FirstUnauthorized(s: State, id: nat, stored: bool, client: Client)
    requires Inv(s, client) && id < |s.requests| && s.requests[id].status == Sent
    requires s.requests[id].kind == Plain && !s.requests[id].retried
    ensures var t := Receive(s, id, Unauthorized, stored, client, false);
      if s.isRefreshing then
        t.requests[id].status == Queued && t.failedQueue == s.failedQueue + [id] && |t.requests| == |s.requests|
      else if stored || client == ContainerWeb then
        && t.leader == Some(id) && t.isRefreshing && |t.requests| == |s.requests| + 1
        && t.requests[id].status == (if stored then AwaitsRefresh(|s.requests|) else AwaitsGuest(|s.requests|))
        && t.requests[|s.requests|].kind == (if client == DemoField then Refresh else Direct)
      else t.requests[id].status == Rejected && !t.isRefreshing && |t.requests| == |s.requests|
  {
  }

  // ------------------------------------------------------------------- the session

  /** What a stretch does to the session, beside the requests. */
  function Done(s: State, t: State): seq<Effect> {
    if |s.effects| <= |t.effects| then t.effects[|s.effects|..] else []
  }

  /** The call that a handler waits for, as it settled. */
  function ResultOf(s: State, id: nat): Status
    requires Enabled(s, Resume(id))
  {
    s.requests[s.requests[id].status.call].status
  }

  /** A refresh request of the page is refused, a leader has no stored token, or the leader's refresh has failed. */
  predicate SessionIsOver(s: State, e: Event, tunnel: bool)
    requires Enabled(s, e)
  {
    match e
    case Issue(_) => false
    case Respond(id, answer, stored) =>
      Counts(s.requests[id], answer, tunnel)
      && (s.requests[id].kind == Refresh || (!s.isRefreshing && !stored))
    case Resume(id) => s.requests[id].status.AwaitsRefresh? && ResultOf(s, id) == Rejected
  }

  lemma EffectsOfAnswer(s: State, id: nat, answer: Answer, stored: bool, client: Client, tunnel: bool)
    requires Enabled(s, Respond(id, answer, stored))
    ensures Receive(s, id, answer, stored, client, tunnel).effects == s.effects +
            if !SessionIsOver(s, Respond(id, answer, stored), tunnel) then []
            else if client == DemoField then [AuthCleared, WentToLogin] else [AuthCleared]
  {
    assert s.effects + [] == s.effects;
  }

  lemma EffectsOfRefresh(s: State, id: nat, client: Client)
    requires Enabled(s, Resume(id)) && s.requests[id].status.AwaitsRefresh?
    ensures Continue(s, id, client).effects == s.effects +
            if ResultOf(s, id).Resolved? then [TokensStored]
            else if client == DemoField then [AuthCleared, WentToLogin] else [AuthCleared]
  {
  }

  lemma EffectsOfGuest(s: State, id: nat, client: Client)
    requires Enabled(s, Resume(id)) && !s.requests[id].status.AwaitsRefresh?
    ensures Continue(s, id, client).effects == s.effects +
            if WithToken(ResultOf(s, id)) then [TokensStored]
            else if ResultOf(s, id).Resolved? then [TokensStored, WentToLogin] else [WentToLogin]
  {
  }

  lemma DoneIs(s: State, t: State, done: seq<Effect>)
    requires t.effects == s.effects + done
    ensures Done(s, t) == done
  {
  }

  /** On every schedule: tokens are stored exactly when a call of the client's own succeeds, and the session is cleared exactly when it is over. */
  lemma SessionFollows(events: seq<Event>, client: Client, tunnel: bool, e: Event)
    requires CanRun(events, client, tunnel) && Enabled(Run(events, client, tunnel), e)
    ensures var s := Run(events, client, tunnel);
      var done := Done(s, Step(s, e, client, tunnel));
      && s.effects + done == Step(s, e, client, tunnel).effects
      && (TokensStored in done <==> e.Resume? && ResultOf(s, e.id).Resolved?)
      && (AuthCleared in done <==> SessionIsOver(s, e, tunnel))
      && (WentToLogin in done <==>
            if client == DemoField then SessionIsOver(s, e, tunnel)
            else e.Resume? && !s.requests[e.id].status.AwaitsRefresh? && !WithToken(ResultOf(s, e.id)))
  {
    hide Receive, Continue, Done, Inv;
    RunKeepsInv(events, client, tunnel);
    var s := Run(events, client, tunnel);
    var t := Step(s, e, client, tunnel);
    match e
    case Issue(_) =>
      assert s.effects + [] == s.effects;
      DoneIs(s, t, []);
    case Respond(id, answer, stored) =>
      EffectsOfAnswer(s, id, answer, stored, client, tunnel);
      var over := SessionIsOver(s, e, tunnel);
      DoneIs(s, t, if !over then [] else if client == DemoField then [AuthCleared, WentToLogin] else [AuthCleared]);
    case Resume(id) =>
      SuspendedAs(s, id, client);
      if s.requests[id].status.AwaitsRefresh? {
        EffectsOfRefresh(s, id, client);
        DoneIs(s, t, if ResultOf(s, id).Resolved? then [TokensStored]
                     else if client == DemoField then [AuthCleared, WentToLogin] else [AuthCleared]);
      } else {
        EffectsOfGuest(s, id, client);
        DoneIs(s, t, if WithToken(ResultOf(s, id)) then [TokensStored]
                     else if ResultOf(s, id).Resolved? then [TokensStored, WentToLogin] else [WentToLogin]);
      }
  }

  /** In demo-field a handler only ever waits for a refresh. */
  lemma SuspendedAs(s: State, id: nat, client: Client)
    requires Inv(s, client) && Enabled(s, Resume(id))
    ensures client == DemoField ==> s.requests[id].status.AwaitsRefresh?
    ensures Settled(ResultOf(s, id))
  {
    assert Healthy(s.requests[id], client);
  }

  /**
   The first 401 of a refresh request of the page ends the session: demo-field fails it at once,
   container-web first tries a guest login and fails it then, whatever comes of that.
   */
  lemma RefusedRefresh(s: State, id: nat, stored: bool, client: Client)
    requires id < |s.requests| && s.requests[id].kind == Refresh && !s.requests[id].retried
    ensures var t := Receive(s, id, Unauthorized, stored, client, false);
      if client == DemoField then t.requests == s.requests[id := s.requests[id].(status := Rejected)]
      else t.requests == s.requests[id := s.requests[id].(status := AwaitsGuestThenFails(|s.requests|))]
                         + [Request(Direct, Sent, false, 1, 0, 0)]
  {
  }

  /** Whatever came of that guest login, the refresh request then fails, and no other request changes. */
  lemma GuestDoesNotSave(s: State, id: nat, client: Client)
    requires Enabled(s, Resume(id)) && s.requests[id].status.AwaitsGuestThenFails?
    ensures Continue(s, id, client).requests == s.requests[id := s.requests[id].(status := Rejected)]
  {
  }
}
