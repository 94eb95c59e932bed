/** Under whose token a request goes out: impersonation, retries and sign-out, over every run of the
    browser session. */
module SessionIdentity {
  import opened Wrappers
  import opened SessionRefresh

  // ----- a retry goes out as oneself -----

  /** The k-th refresh is over and brought this access token. */
  ghost predicate Brought(s: State, k: nat, access: nat) {
    k < |s.refreshes| && s.refreshes[k] == Over(Some(access))
  }

  /** While continuations of a refresh are pending, the token that it brought is in the store. */
  ghost predicate StoreIsFresh(s: State) {
    && (forall k :: 0 <= k < |s.refreshes| && s.refreshes[k].Settled? && s.refreshes[k].brought.Some? ==>
                      s.tokens.access == Some(Own(s.refreshes[k].brought.value)))
    && (forall i :: 0 <= i < |s.requests| && s.requests[i].phase.AwaitingRefresh? && CanResume(s, s.requests[i].phase)
                    && s.refreshes[s.requests[i].phase.refresh].brought.Some? ==>
                      s.tokens.access == Some(Own(s.refreshes[s.requests[i].phase.refresh].brought.value)))
  }

  /** A request that was sent twice went out again with what its refresh brought. */
  ghost predicate SentWithBrought(s: State, q: Request) {
    |q.sent| == 2 ==>
      && q.retriedAfter.Some? && q.sent[1].Some? && q.sent[1].value.Own?
      && Brought(s, q.retriedAfter.value, q.sent[1].value.id)
  }

  ghost predicate RetriesFresh(s: State) {
    forall i :: 0 <= i < |s.requests| ==> SentWithBrought(s, s.requests[i])
  }

  /** What a refresh brought never changes. */
  lemma {:induction false} BroughtStays(s: State, step: Step, t: State, k: nat, access: nat)
    requires Next(s, step, t) && Brought(s, k, access)
    ensures Brought(t, k, access)
  {
    RefreshesOnlyGrow(s);
    RefreshesOnlyGrow(s.(tokens := EndImpersonation(s.tokens)));
  }

  lemma RefreshesOnlyGrow(s: State)
    ensures s.refreshes <= EnsureRefreshed(s).refreshes
    ensures s.refreshes <= RestoreFromExpiry(s).refreshes
  {
  }

  /** A task begins with nothing pending, so whatever it does to the tokens, no continuation of an
      earlier refresh will see it. */
  lemma {:induction false} SettleKeepsFresh(s: State, k: nat, reply: Option<TokenPair>, t: State)
    requires Inv(s) && Next(s, Settle(k, reply), t)
    ensures StoreIsFresh(t)
  {
    forall i | 0 <= i < |t.requests| && t.requests[i].phase.AwaitingRefresh?
      ensures !CanResume(t, t.requests[i].phase)
    {
      assert !CanResume(s, s.requests[i].phase);
    }
  }

  lemma {:induction false} RespondKeepsFresh(s: State, i: nat, unauthorized: bool, t: State)
    requires Inv(s) && Next(s, Respond(i, unauthorized), t)
    ensures StoreIsFresh(t)
  {
    RefreshesKeepRequests(s);
    RefreshesOnlyGrow(s);
    forall j | 0 <= j < |t.requests| && t.requests[j].phase.AwaitingRefresh?
      ensures !CanResume(t, t.requests[j].phase)
    {
      if j != i {
        assert !CanResume(s, s.requests[j].phase);
      }
    }
  }

  lemma {:induction false} ClickKeepsFresh(s: State, step: Step, t: State)
    requires Inv(s) && Next(s, step, t) && IsTask(step) && !step.Settle? && !step.Respond?
    ensures StoreIsFresh(t)
  {
    RefreshesKeepRequests(s.(tokens := EndImpersonation(s.tokens)));
    RefreshesOnlyGrow(s.(tokens := EndImpersonation(s.tokens)));
    forall j | 0 <= j < |t.requests| && t.requests[j].phase.AwaitingRefresh?
      ensures !CanResume(t, t.requests[j].phase)
    {
      assert !CanResume(s, s.requests[j].phase);
    }
  }

  lemma {:induction false} ContinuationKeepsFresh(s: State, step: Step, t: State)
    requires Inv(s) && StoreIsFresh(s) && Next(s, step, t) && !IsTask(step)
    ensures StoreIsFresh(t)
  {
    forall i | 0 <= i < |t.requests| && t.requests[i].phase.AwaitingRefresh? && CanResume(t, t.requests[i].phase)
               && t.refreshes[t.requests[i].phase.refresh].brought.Some?
      ensures t.tokens.access == Some(Own(t.refreshes[t.requests[i].phase.refresh].brought.value))
    {
      assert i < |s.requests| && t.requests[i] == s.requests[i];
      assert t.tokens == s.tokens;
    }
  }

  lemma {:induction false} StepKeepsFresh(s: State, step: Step, t: State)
    requires Inv(s) && StoreIsFresh(s) && Next(s, step, t)
    ensures StoreIsFresh(t)
  {
    if step.Settle? {
      SettleKeepsFresh(s, step.refresh, step.reply, t);
    } else if step.Respond? {
      RespondKeepsFresh(s, step.request, step.unauthorized, t);
    } else if IsTask(step) {
      ClickKeepsFresh(s, step, t);
    } else {
      ContinuationKeepsFresh(s, step, t);
    }
  }

  /** Only a resumed request is sent again, and it takes what the store then holds. */
  lemma {:induction false} SentAgainOnlyOnResume(s: State, step: Step, t: State, i: nat)
    requires Inv(s) && Next(s, step, t) && i < |t.requests| && |t.requests[i].sent| == 2
    ensures i < |s.requests|
    ensures || (t.requests[i].sent == s.requests[i].sent && t.requests[i].retriedAfter == s.requests[i].retriedAfter)
            || (&& step == Resume(i) && s.requests[i].phase.AwaitingRefresh? && CanResume(s, s.requests[i].phase)
                && t.requests[i].retriedAfter == Some(s.requests[i].phase.refresh)
                && s.refreshes[s.requests[i].phase.refresh].brought.Some?
                && t.requests[i].sent[1] == s.tokens.access && t.refreshes == s.refreshes)
  {
    RefreshesKeepRequests(s);
    RefreshesKeepRequests(s.(tokens := EndImpersonation(s.tokens)));
    if step.Resume? {
      assert SentInTurn(s.requests[step.request]);
    }
  }

  lemma {:induction false} StepKeepsRetriesFresh(s: State, step: Step, t: State)
    requires Inv(s) && StoreIsFresh(s) && RetriesFresh(s) && Next(s, step, t)
    ensures RetriesFresh(t)
  {
    forall i | 0 <= i < |t.requests| ensures SentWithBrought(t, t.requests[i]) {
      if |t.requests[i].sent| == 2 {
        SentAgainOnlyOnResume(s, step, t, i);
        if t.requests[i].sent == s.requests[i].sent && t.requests[i].retriedAfter == s.requests[i].retriedAfter {
          assert SentWithBrought(s, s.requests[i]);
          BroughtStays(s, step, t, s.requests[i].retriedAfter.value, s.requests[i].sent[1].value.id);
        }
      }
    }
  }

  lemma {:induction false} RunKeepsFresh(states: seq<State>, steps: seq<Step>, k: nat)
    requires IsRun(states, steps) && k <= |steps|
    ensures StoreIsFresh(states[k]) && RetriesFresh(states[k])
  {
    if k > 0 {
      RunKeepsInv(states, steps, k - 1);
      RunKeepsFresh(states, steps, k - 1);
      StepKeepsFresh(states[k - 1], steps[k - 1], states[k]);
      StepKeepsRetriesFresh(states[k - 1], steps[k - 1], states[k]);
    }
  }

  /** A request that is sent again goes out with exactly the access token that the refresh it awaited
      brought: never as somebody else, and never with a token that came before or after. */
  lemma {:induction false} RetryCarriesRefreshedToken(s: State, i: nat)
    requires Reachable(s) && i < |s.requests| && |s.requests[i].sent| == 2
    ensures s.requests[i].retriedAfter.Some? && s.requests[i].retriedAfter.value < |s.refreshes|
    ensures s.refreshes[s.requests[i].retriedAfter.value].Over?
    ensures s.refreshes[s.requests[i].retriedAfter.value].brought.Some?
    ensures s.requests[i].sent[1] == Some(Own(s.refreshes[s.requests[i].retriedAfter.value].brought.value))
  {
    var states: seq<State>, steps: seq<Step> :| IsRun(states, steps) && states[|steps|] == s;
    RunKeepsFresh(states, steps, |steps|);
    assert SentWithBrought(s, s.requests[i]);
  }
}
