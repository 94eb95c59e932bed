/** What the client does for a request that is refused, from the refusal to the second send, and what
    each step does to the stored tokens. */
module SessionRetry {
  import opened Wrappers
  import opened SessionRefresh
  import opened SessionIdentity

  // ----- the tokens -----

  ghost predicate SignedInWith(t: Tokens, pair: TokenPair) {
    t.access == Some(Own(pair.access)) && t.stored == Some(pair.refresh)
  }

  ghost predicate AllCleared(t: Tokens) {
    t.access.None? && t.stored.None? && !t.impersonating
  }

  /** The step has a refresh started, or joined, for want of a valid access token. */
  ghost predicate NeedsRefresh(s: State, step: Step) {
    match step
    case Respond(i, unauthorized) =>
      && i < |s.requests| && s.requests[i].phase.First? && unauthorized && !s.requests[i].noRetry
      && (s.requests[i].wasImpersonating ==> s.restoring.None?)
    case Exit => true
    case _ => false
  }

  /** What each step does to the tokens. A pair from the server becomes the user's own session; a refused
      refresh and a sign-out clear everything, and so does the need for a refresh with no token to refresh
      with. Impersonation replaces the access token only; leaving it, or its expiry, only lowers the flag. */
  lemma {:induction false} TokensAfter(s: State, step: Step, t: State)
    requires Next(s, step, t)
    ensures (step.Settle? && step.reply.Some?) || step.SignIn? ==>
              && SignedInWith(t.tokens, if step.SignIn? then step.pair else step.reply.value)
              && t.tokens.impersonating == s.tokens.impersonating
    ensures (step.Settle? && step.reply.None?) || step.SignOut? ==> AllCleared(t.tokens)
    ensures step.Impersonate? ==>
              && t.tokens.access == Some(Impersonation(step.id)) && t.tokens.impersonating
              && t.tokens.stored == s.tokens.stored
    ensures NeedsRefresh(s, step) ==>
              if s.refreshing.None? && s.tokens.stored.None? then AllCleared(t.tokens)
              else
                && t.tokens.access == s.tokens.access && t.tokens.stored == s.tokens.stored
                && t.tokens.impersonating
                   == (s.tokens.impersonating && step.Respond? && !s.requests[step.request].wasImpersonating)
    ensures !NeedsRefresh(s, step) && !step.Settle? && !step.SignIn? && !step.SignOut? && !step.Impersonate? ==>
              t.tokens == s.tokens
  {
  }

  /** Only a start begins a request, with the token and the flag that the store then holds; no token changes. */
  lemma {:induction false} BegunAsAsked(s: State, step: Step, t: State)
    requires Next(s, step, t) && |t.requests| > |s.requests|
    ensures step.Start? && t == s.(requests := t.requests) && t.requests[..|s.requests|] == s.requests
    ensures |t.requests| == |s.requests| + 1
    ensures var q := t.requests[|s.requests|];
            && q.noRetry == step.noRetry && q.wasImpersonating == s.tokens.impersonating
            && q.sent == [s.tokens.access] && q.phase.First?
  {
    RefreshesKeepRequests(s);
    RefreshesKeepRequests(s.(tokens := EndImpersonation(s.tokens)));
  }

  // ----- the refresh that a refusal leads to -----

  /** A refresh is under way in t: the one from before, or a new one with the token then stored. */
  ghost predicate RefreshUnderWay(s: State, t: State, k: nat) {
    && t.refreshing == Some(k)
    && if s.refreshing.Some? then s.refreshing == Some(k) && t.refreshes == s.refreshes && t.presented == s.presented
       else
         && k == |s.refreshes|
         && match s.tokens.stored
            case Some(token) =>
              t.refreshes == s.refreshes + [Requested(token)] && t.presented == s.presented + [token]
            case None => t.refreshes == s.refreshes + [Settled(None)] && t.presented == s.presented
  }

  /** An answered request is done, unless it was its first send that was refused and it may be retried:
      then it awaits the refresh under way, or, begun while impersonating, the restoration under way. */
  lemma {:induction false} RefusalOutcome(s: State, i: nat, unauthorized: bool, t: State)
    requires Next(s, Respond(i, unauthorized), t)
    ensures i < |s.requests| && t.requests == s.requests[i := s.requests[i].(phase := t.requests[i].phase)]
    ensures var q := s.requests[i];
            if q.phase.Second? || !unauthorized || q.noRetry then
              t.requests[i].phase == Done && t == s.(requests := t.requests)
            else if q.wasImpersonating then
              && t.restoring.Some? && t.requests[i].phase == AwaitingRestore(t.restoring.value)
              && if s.restoring.Some? then t == s.(requests := t.requests)
                 else
                   && t.refreshing.Some? && RefreshUnderWay(s, t, t.refreshing.value)
                   && t.restoring == Some(|s.restores|) && t.restores == s.restores + [Restoring(t.refreshing.value)]
            else
              && t.refreshing.Some? && RefreshUnderWay(s, t, t.refreshing.value)
              && t.requests[i].phase == AwaitingRefresh(t.refreshing.value)
              && t.restores == s.restores && t.restoring == s.restoring
  {
    RefreshesKeepRequests(s);
  }

  // ----- nobody waits for nothing -----

  /** Whatever is awaited exists. */
  ghost predicate AwaitedExist(s: State) {
    && (forall i :: 0 <= i < |s.requests| && s.requests[i].phase.AwaitingRefresh? ==>
         s.requests[i].phase.refresh < |s.refreshes|)
    && (forall i :: 0 <= i < |s.requests| && s.requests[i].phase.AwaitingRestore? ==>
         s.requests[i].phase.restore < |s.restores|)
    && (forall k :: 0 <= k < |s.restores| && s.restores[k].Restoring? ==> s.restores[k].refresh < |s.refreshes|)
  }

  lemma {:induction false} RespondKeepsAwaited(s: State, i: nat, unauthorized: bool, t: State)
    requires Inv(s) && AwaitedExist(s) && Next(s, Respond(i, unauthorized), t)
    ensures AwaitedExist(t)
  {
    RefusalOutcome(s, i, unauthorized, t);
    RefreshesOnlyGrow(s);
  }

  lemma {:induction false} StepKeepsAwaited(s: State, step: Step, t: State)
    requires Inv(s) && AwaitedExist(s) && Next(s, step, t)
    ensures AwaitedExist(t)
  {
    if step.Respond? {
      RespondKeepsAwaited(s, step.request, step.unauthorized, t);
    } else if step.Exit? {
      RefreshesOnlyGrow(s.(tokens := EndImpersonation(s.tokens)));
    }
  }

  lemma {:induction false} RunKeepsAwaited(states: seq<State>, steps: seq<Step>, k: nat)
    requires IsRun(states, steps) && k <= |steps|
    ensures AwaitedExist(states[k])
  {
    if k > 0 {
      RunKeepsInv(states, steps, k - 1);
      RunKeepsAwaited(states, steps, k - 1);
      StepKeepsAwaited(states[k - 1], steps[k - 1], states[k]);
    }
  }

  /** Some continuation can run. */
  ghost predicate CanGoOn(s: State) {
    exists step, t :: !IsTask(step) && !step.Start? && Next(s, step, t)
  }

  lemma {:induction false} GoesOn(s: State, step: Step, t: State)
    requires Next(s, step, t) && !IsTask(step) && !step.Start?
    ensures CanGoOn(s)
  {
  }

  /** A request that waits never waits for nothing: either the one refresh under way is still to be answered
      by the server, or some continuation can run. */
  lemma {:induction false} NeverStuck(s: State, i: nat)
    requires Reachable(s) && i < |s.requests|
    requires s.requests[i].phase.AwaitingRefresh? || s.requests[i].phase.AwaitingRestore?
    ensures CanGoOn(s) || (s.refreshing.Some? && s.refreshing.value < |s.refreshes|
                           && s.refreshes[s.refreshing.value].Requested?)
  {
    var states: seq<State>, steps: seq<Step> :| IsRun(states, steps) && states[|steps|] == s;
    RunKeepsInv(states, steps, |steps|);
    RunKeepsAwaited(states, steps, |steps|);
    var phase := s.requests[i].phase;
    if CanResume(s, phase) {
      GoesOn(s, Resume(i), OnAwaited(s, i));
    } else if phase.AwaitingRefresh? {
      RefreshGoesOn(s, phase.refresh);
    } else {
      var r := s.restores[phase.restore];
      if r == Notified {
        GoesOn(s, FinishRestore(phase.restore),
               s.(restoring := None, restores := s.restores[phase.restore := Finished]));
      } else if CanNotify(s, r) {
        GoesOn(s, Notify(phase.restore), s.(restores := s.restores[phase.restore := Notified]));
      } else {
        RefreshGoesOn(s, r.refresh);
      }
    }
  }

  lemma {:induction false} RefreshGoesOn(s: State, k: nat)
    requires Inv(s) && k < |s.refreshes| && !s.refreshes[k].Over?
    ensures s.refreshing == Some(k) && (CanGoOn(s) || s.refreshes[k].Requested?)
  {
    if s.refreshes[k].Settled? {
      GoesOn(s, ClearSlot(k), ClearSlotOf(s, k));
    }
  }

  // ----- from the refusal to the second send -----

  /** The refresh has been answered, with this access token if with any. */
  ghost predicate AnsweredWith(s: State, k: nat, reply: Option<TokenPair>) {
    && k < |s.refreshes| && !s.refreshes[k].Requested?
    && s.refreshes[k].brought == if reply.Some? then Some(reply.value.access) else None
  }

  lemma {:induction false} AnswerStays(s: State, step: Step, t: State, k: nat, reply: Option<TokenPair>)
    requires Next(s, step, t) && AnsweredWith(s, k, reply)
    ensures AnsweredWith(t, k, reply)
  {
    RefreshesOnlyGrow(s);
    RefreshesOnlyGrow(s.(tokens := EndImpersonation(s.tokens)));
  }

  /** What the server answers is what the refresh brings, to everyone who awaits it, whenever that is. */
  lemma {:induction false} ReplyIsBrought(states: seq<State>, steps: seq<Step>, j: nat, l: nat, k: nat,
                                          reply: Option<TokenPair>)
    requires Linked(states, steps) && j < l <= |steps| && steps[j] == Settle(k, reply)
    ensures AnsweredWith(states[l], k, reply)
  {
    if j + 1 < l {
      ReplyIsBrought(states, steps, j, l - 1, k, reply);
      AnswerStays(states[l - 1], steps[l - 1], states[l], k, reply);
    } else {
      assert Next(states[j], steps[j], states[j + 1]);
    }
  }

  /** Request i is the given one, and awaits a refresh. */
  ghost predicate Awaits(s: State, i: nat, q: Request) {
    i < |s.requests| && s.requests[i] == q && q.phase.AwaitingRefresh?
  }

  lemma {:induction false} AwaitsUntilResumed(s: State, step: Step, t: State, i: nat, q: Request)
    requires Next(s, step, t) && Awaits(s, i, q) && step != Resume(i)
    ensures Awaits(t, i, q)
  {
    if step.Respond? {
      RefusalOutcome(s, step.request, step.unauthorized, t);
    }
  }

  lemma {:induction false} StaysAwaiting(states: seq<State>, steps: seq<Step>, i: nat, q: Request, a: nat, b: nat)
    requires Linked(states, steps) && a <= b <= |steps| && Awaits(states[a], i, q)
    requires forall j :: a <= j < b ==> steps[j] != Resume(i)
    ensures Awaits(states[b], i, q)
  {
    if a < b {
      StaysAwaiting(states, steps, i, q, a, b - 1);
      AwaitsUntilResumed(states[b - 1], steps[b - 1], states[b], i, q);
    }
  }

  /** A refused request that may be retried awaits one refresh and, when it next goes on, that refresh is
      over: if it brought a token, the request is sent a second time with exactly that token; if it did
      not, the request is given up. */
  lemma {:induction false} RefusedIsSentAgain(states: seq<State>, steps: seq<Step>, i: nat, j: nat, l: nat)
    returns (k: nat)
    requires IsRun(states, steps) && j < l < |steps| && i < |states[j].requests|
    requires steps[j] == Respond(i, true) && states[j].requests[i].phase.First? && Retryable(states[j].requests[i])
    requires steps[l] == Resume(i) && forall m :: j < m < l ==> steps[m] != Resume(i)
    ensures states[j + 1].refreshing == Some(k) && k < |states[l].refreshes| && states[l].refreshes[k].Over?
    ensures i < |states[l + 1].requests|
    ensures var before, after := states[j].requests[i], states[l + 1].requests[i];
            match states[l].refreshes[k].brought
            case Some(access) => after.sent == before.sent + [Some(Own(access))] && after.phase == Second(k)
            case None => after.sent == before.sent && after.phase == Done
  {
    RefusalOutcome(states[j], i, true, states[j + 1]);
    k := states[j + 1].refreshing.value;
    StaysAwaiting(states, steps, i, states[j + 1].requests[i], j + 1, l);
    RunKeepsFresh(states, steps, l);
    assert Next(states[l], Resume(i), states[l + 1]);
  }
}
