/** The token store and the API client: their module variables, and the code that reassigns them. */
module SessionClient {
  import opened Wrappers
  import opened SessionRefresh

  class TokenStore {
    var accessToken: Option<Access>
    var impersonating: bool
    var refreshToken: Option<nat>

    constructor (refreshToken: Option<nat>)
      ensures View() == Tokens(None, false, refreshToken)
    {
      accessToken, impersonating, this.refreshToken := None, false, refreshToken;
    }

    function View(): Tokens
      reads this
    {
      Tokens(accessToken, impersonating, refreshToken)
    }

    method Set(pair: TokenPair)
      modifies this
      ensures View() == SetTokens(old(View()), pair)
    {
      accessToken := Some(Own(pair.access));
      refreshToken := Some(pair.refresh);
    }

    method Clear()
      modifies this
      ensures View() == ClearTokens(old(View()))
    {
      accessToken := None;
      impersonating := false;
      refreshToken := None;
    }

    method Begin(id: nat)
      modifies this
      ensures View() == BeginImpersonation(old(View()), id)
    {
      accessToken := Some(Impersonation(id));
      impersonating := true;
    }

    method End()
      modifies this
      ensures View() == EndImpersonation(old(View()))
    {
      impersonating := false;
    }
  }

  /** The API client; each method is one stretch between awaits. */
  class Client {
    const store: TokenStore
    var refreshing: Option<nat>
    var restoring: Option<nat>
    var refreshes: seq<Refresh>
    var restores: seq<Restore>
    var requests: seq<Request>
    var presented: seq<nat>

    constructor (store: TokenStore)
      ensures this.store == store && refreshing == restoring == None
      ensures refreshes == [] && restores == [] && requests == [] && presented == []
    {
      this.store := store;
      refreshing, restoring, refreshes, restores, requests, presented := None, None, [], [], [], [];
    }

    /** The client's part of the session, given the refresh tokens that the server has issued. */
    function View(issued: set<nat>): State
      reads this, store
    {
      State(store.View(), refreshing, restoring, refreshes, restores, requests, presented, issued)
    }

    method Refresh()
      modifies this, store
      ensures forall issued :: View(issued) == EnsureRefreshed(old(View(issued)))
    {
      if refreshing.None? {
        refreshing := Some(|refreshes|);
        if store.refreshToken.None? {
          store.Clear();
          refreshes := refreshes + [Settled(None)];
        } else {
          refreshes := refreshes + [Requested(store.refreshToken.value)];
          presented := presented + [store.refreshToken.value];
        }
      }
    }

    method ExitImpersonation()
      modifies this, store
      ensures forall issued :: View(issued) == RestoreAdminSession(old(View(issued)))
    {
      store.End();
      Refresh();
    }

    method Restore()
      modifies this, store
      ensures forall issued :: View(issued) == RestoreFromExpiry(old(View(issued)))
    {
      if restoring.None? {
        ghost var before := View({});
        ExitImpersonation();
        assert View({}) == RestoreAdminSession(before);
        if refreshing.Some? {
          restoring := Some(|restores|);
          restores := restores + [Restoring(refreshing.value)];
        }
      }
    }

    method Start(noRetry: bool)
      modifies this
      ensures forall issued :: View(issued) == StartRequest(old(View(issued)), noRetry)
    {
      requests := requests + [Request(noRetry, store.impersonating, First, [store.accessToken], None)];
    }

    method Respond(i: nat, unauthorized: bool)
      requires i < |requests|
      modifies this, store
      ensures forall issued :: View(issued) == OnResponse(old(View(issued)), i, unauthorized)
    {
      var request, next := requests[i], Done;
      ghost var before := View({});
      if request.phase == First && unauthorized && !request.noRetry {
        if request.wasImpersonating {
          Restore();
          assert View({}) == RestoreFromExpiry(before);
          if restoring.Some? {
            next := AwaitingRestore(restoring.value);
          }
        } else {
          Refresh();
          assert View({}) == EnsureRefreshed(before);
          if refreshing.Some? {
            next := AwaitingRefresh(refreshing.value);
          }
        }
      }
      requests := requests[i := request.(phase := next)];
    }

    /** The server answers a refresh; a pair that it sends is thereby issued. */
    method Settle(k: nat, reply: Option<TokenPair>)
      requires k < |refreshes|
      modifies this, store
      ensures forall issued :: View(if reply.Some? then issued + {reply.value.refresh} else issued)
                               == OnRefreshReply(old(View(issued)), k, reply)
    {
      if reply.Some? {
        store.Set(reply.value);
        refreshes := refreshes[k := Settled(Some(reply.value.access))];
      } else {
        store.Clear();
        refreshes := refreshes[k := Settled(None)];
      }
    }

    /** The promise's finally: the slot is free again. */
    method ClearSlot(k: nat)
      requires k < |refreshes| && refreshes[k].Settled?
      modifies this
      ensures forall issued :: View(issued) == ClearSlotOf(old(View(issued)), k)
    {
      refreshing := None;
      refreshes := refreshes[k := Over(refreshes[k].brought)];
    }

    /** A request goes on after the refresh or the restoration that it awaited. */
    method Resume(i: nat)
      requires i < |requests| && CanResume(View({}), requests[i].phase)
      modifies this
      ensures forall issued :: View(issued) == OnAwaited(old(View(issued)), i)
    {
      var request := requests[i];
      if request.phase.AwaitingRefresh? && refreshes[request.phase.refresh].brought.Some? {
        var k := request.phase.refresh;
        requests := requests[i := request.(phase := Second(k), sent := request.sent + [store.accessToken],
                                           retriedAfter := Some(k))];
      } else {
        requests := requests[i := request.(phase := Done)];
      }
    }
  }
}
