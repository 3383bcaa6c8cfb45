/** The response interceptors as they update the module's own variables. */
module ApiClient {
  import opened Prelude
  import opened RefreshQueue

  class Interceptor {
    const client: Client
    const tunnel: bool
    var requests: seq<Request>
    var isRefreshing: bool
    var failedQueue: seq<nat>
    var effects: seq<Effect>
    ghost var leader: Option<nat>

    ghost function Now(): State
      reads this
    {
      State(requests, isRefreshing, failedQueue, effects, leader)
    }

    ghost predicate Valid()
      reads this
    {
      Inv(Now(), client)
    }

    constructor (client: Client, tunnel: bool)
      ensures this.client == client && this.tunnel == tunnel && Now() == INITIAL && Valid()
    {
      this.client, this.tunnel := client, tunnel;
      requests, isRefreshing, failedQueue, effects, leader := [], false, [], [], None;
    }

    method Call(kind: Kind) returns (call: nat)
      modifies this`requests
      ensures requests == old(requests) + [New(kind)] && call == |old(requests)|
    {
      call := |requests|;
      requests := requests + [New(kind)];
    }

    method Settle(id: nat, st: Status)
      requires id < |requests|
      modifies this`requests
      ensures Now() == SetStatus(old(Now()), id, st)
    {
      requests := requests[id := requests[id].(status := st)];
    }

    method SendAgain(id: nat)
      requires id < |requests|
      modifies this`requests
      ensures requests == old(requests)[id := Resent(old(requests)[id])]
    {
      requests := requests[id := requests[id].(retried := true, sends := requests[id].sends + 1, status := Sent)];
    }

    /** Everyone in the queue is let go, in order, and the queue is emptied. */
    method ProcessQueue(token: bool)
      requires forall k | 0 <= k < |failedQueue| :: failedQueue[k] < |requests|
      modifies this`requests, this`failedQueue
      ensures requests == ReleaseAll(old(requests), old(failedQueue), token) && failedQueue == []
    {
      for i := 0 to |failedQueue|
        invariant failedQueue == old(failedQueue) && |requests| == |old(requests)|
        invariant requests == ReleaseAll(old(requests), failedQueue[..i], token)
      {
        TakeNext(failedQueue, i + 1);
        DropLast(failedQueue[..i], failedQueue[i]);
        var id := failedQueue[i];
        if token { SendAgain(id); } else { Settle(id, Rejected); }
        requests := requests[id := requests[id].(released := requests[id].released + 1)];
      }
      assert failedQueue[..|failedQueue|] == failedQueue;
      failedQueue := [];
    }

    method Issue(kind: Kind)
      requires Valid() && Enabled(Now(), RefreshQueue.Issue(kind))
      modifies this
      ensures Now() == Step(old(Now()), RefreshQueue.Issue(kind), client, tunnel) && Valid()
    {
      IssueKeeps(Now(), kind, client);
      var _ := Call(kind);
    }

    method Wait(id: nat)
      requires id < |requests|
      modifies this`requests, this`failedQueue
      ensures Now() == Enqueue(old(Now()), id)
    {
      failedQueue := failedQueue + [id];
      requests := requests[id := requests[id].(status := Queued, enqueued := requests[id].enqueued + 1)];
    }

    method DemoOnError(id: nat, answer: Answer, stored: bool)
      requires id < |requests|
      modifies this
      ensures Now() == DemoError(old(Now()), id, answer, stored, tunnel)
    {
      var r := requests[id];
      if tunnel { Settle(id, Rejected); return; }
      if r.kind == Login { Settle(id, Rejected); return; }
      if answer != Unauthorized || r.retried { Settle(id, Rejected); return; }
      if r.kind == Refresh {
        effects := effects + [AuthCleared, WentToLogin];
        Settle(id, Rejected);
        return;
      }
      if !isRefreshing {
        isRefreshing := true;
        if !stored {
          effects := effects + [AuthCleared, WentToLogin];
          Settle(id, Rejected);
          isRefreshing := false;
          return;
        }
        leader := Some(id);
        Settle(id, AwaitsRefresh(|requests|));
        var _ := Call(Refresh);
        return;
      }
      Wait(id);
    }

    method ContainerOnError(id: nat, answer: Answer, stored: bool)
      requires id < |requests|
      modifies this
      ensures Now() == ContainerError(old(Now()), id, answer, stored, tunnel)
    {
      var r := requests[id];
      if tunnel { Settle(id, Rejected); return; }
      if answer != Unauthorized || r.retried { Settle(id, Rejected); return; }
      if r.kind == Login { Settle(id, Rejected); return; }
      if r.kind == Refresh {
        effects := effects + [AuthCleared];
        Settle(id, AwaitsGuestThenFails(|requests|));
        var _ := Call(Direct);
        return;
      }
      if !isRefreshing {
        isRefreshing, leader := true, Some(id);
        if !stored {
          effects := effects + [AuthCleared];
          Settle(id, AwaitsGuest(|requests|));
        } else {
          Settle(id, AwaitsRefresh(|requests|));
        }
        var _ := Call(Direct);
        return;
      }
      Wait(id);
    }

    method OnAnswer(id: nat, answer: Answer, stored: bool)
      requires Valid() && Enabled(Now(), Respond(id, answer, stored))
      modifies this
      ensures Now() == Step(old(Now()), Respond(id, answer, stored), client, tunnel) && Valid()
    {
      ReceiveKeeps(Now(), id, answer, stored, client, tunnel);
      if answer.Success? {
        Settle(id, Resolved(answer.token));
      } else if requests[id].kind == Direct {
        Settle(id, Rejected);
      } else if client == DemoField {
        DemoOnError(id, answer, stored);
      } else {
        ContainerOnError(id, answer, stored);
      }
    }

    /** `finally`: the attempt is over. */
    method Release()
      modifies this`isRefreshing, this`leader
      ensures !isRefreshing && leader == None
    {
      isRefreshing, leader := false, None;
    }

    method AfterRefreshCall(id: nat, result: Status)
      requires Valid() && id < |requests|
      modifies this
      ensures Now() == AfterRefresh(old(Now()), id, result, client)
    {
      if result.Resolved? {
        effects := effects + [TokensStored];
        ProcessQueue(result.token);
        SendAgain(id);
        Release();
      } else if client == DemoField {
        ProcessQueue(false);
        effects := effects + [AuthCleared, WentToLogin];
        Settle(id, Rejected);
        Release();
      } else {
        effects := effects + [AuthCleared];
        Settle(id, AwaitsGuest(|requests|));
        var _ := Call(Direct);
      }
    }

    method AfterGuestLogin(id: nat, result: Status)
      requires Valid() && id < |requests|
      modifies this
      ensures Now() == AfterGuest(old(Now()), id, result)
    {
      var guestToken := result.Resolved? && result.token;
      if result.Resolved? { effects := effects + [TokensStored]; }
      if guestToken {
        ProcessQueue(true);
        SendAgain(id);
        Release();
        return;
      }
      ProcessQueue(false);
      assert result.Resolved? || old(effects) == old(effects) + [];
      effects := effects + [WentToLogin];
      Settle(id, Rejected);
      Release();
    }

    method OnResume(id: nat)
      requires Valid() && Enabled(Now(), Resume(id))
      modifies this
      ensures Now() == Step(old(Now()), Resume(id), client, tunnel) && Valid()
    {
      ContinueKeeps(Now(), id, client);
      var st := requests[id].status;
      var result := requests[st.call].status;
      if st.AwaitsRefresh? {
        AfterRefreshCall(id, result);
      } else if st.AwaitsGuest? {
        AfterGuestLogin(id, result);
      } else {
        if result.Resolved? { effects := effects + [TokensStored]; }
        if !(result.Resolved? && result.token) { effects := effects + [WentToLogin]; }
        Settle(id, Rejected);
      }
    }
  }
}
