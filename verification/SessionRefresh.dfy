/** The browser session as an event loop: requests, the single-flight token refresh, and admin
    impersonation. A step is one stretch of code that runs without awaiting. Tasks (a response, a
    click) begin only once the continuations of the previous task, its microtasks, are all done. */
module SessionRefresh {
  import opened Wrappers

  /** Access tokens: the signed-in user's own, or one that acts as somebody else. */
  datatype Access = Own(id: nat) | Impersonation(id: nat)

  /** What the server returns on sign-in and on refresh. */
  datatype TokenPair = TokenPair(access: nat, refresh: nat)

  /** The token store: in-memory token and flag, and the refresh token in localStorage. */
  datatype Tokens = Tokens(access: Option<Access>, impersonating: bool, stored: Option<nat>)

  function SetTokens(t: Tokens, pair: TokenPair): Tokens {
    t.(access := Some(Own(pair.access)), stored := Some(pair.refresh))
  }

  function ClearTokens(t: Tokens): Tokens {
    Tokens(None, false, None)
  }

  function BeginImpersonation(t: Tokens, id: nat): Tokens {
    t.(access := Some(Impersonation(id)), impersonating := true)
  }

  function EndImpersonation(t: Tokens): Tokens {
    t.(impersonating := false)
  }

  /** A call of doRefresh: its request is out with some refresh token, or it has come to an end (with
      the access token it brought, if any), or its promise has also cleared the single-flight slot. */
  datatype Refresh = Requested(token: nat) | Settled(brought: Option<nat>) | Over(brought: Option<nat>)

  /** A restoration after an expired impersonation: waiting for a refresh, telling the listeners, or finished. */
  datatype Restore = Restoring(refresh: nat) | Notified | Finished

  datatype Phase = First | AwaitingRefresh(refresh: nat) | AwaitingRestore(restore: nat) | Second(refresh: nat) | Done

  /** A call of apiRequest, the tokens it has been sent with so far, and the refresh it was retried after. */
  datatype Request = Request(noRetry: bool, wasImpersonating: bool, phase: Phase, sent: seq<Option<Access>>,
                             retriedAfter: Option<nat>)

  /** The module variables, every call ever made, and what the server has seen and issued. */
  datatype State = State(tokens: Tokens, refreshing: Option<nat>, restoring: Option<nat>, refreshes: seq<Refresh>,
                         restores: seq<Restore>, requests: seq<Request>, presented: seq<nat>, issued: set<nat>)

  // ----- the code between awaits -----

  /** ensureRefreshed: join the refresh under way, or start one with the stored token. */
  function EnsureRefreshed(s: State): State {
    if s.refreshing.Some? then s
    else
      match s.tokens.stored
      case None =>
        s.(tokens := ClearTokens(s.tokens), refreshing := Some(|s.refreshes|),
           refreshes := s.refreshes + [Settled(None)])
      case Some(token) =>
        s.(refreshing := Some(|s.refreshes|), refreshes := s.refreshes + [Requested(token)],
           presented := s.presented + [token])
  }

  function RestoreAdminSession(s: State): State {
    EnsureRefreshed(s.(tokens := EndImpersonation(s.tokens)))
  }

  /** restoreFromExpiry: join the restoration under way, or start one. */
  function RestoreFromExpiry(s: State): State {
    if s.restoring.Some? then s
    else
      var r := RestoreAdminSession(s);
      if r.refreshing.None? then r
      else r.(restoring := Some(|r.restores|), restores := r.restores + [Restoring(r.refreshing.value)])
  }

  function WithPhase(s: State, i: nat, phase: Phase): State
    requires i < |s.requests|
  {
    s.(requests := s.requests[i := s.requests[i].(phase := phase)])
  }

  /** apiRequest up to its first fetch: the flag and the token are read in one stretch. */
  function StartRequest(s: State, noRetry: bool): State {
    s.(requests := s.requests + [Request(noRetry, s.tokens.impersonating, First, [s.tokens.access], None)])
  }

  /** apiRequest once a fetch is answered. */
  function OnResponse(s: State, i: nat, unauthorized: bool): State
    requires i < |s.requests|
  {
    var q := s.requests[i];
    if q.phase != First || !unauthorized || q.noRetry then WithPhase(s, i, Done)
    else if q.wasImpersonating then
      var r := RestoreFromExpiry(s);
      WithPhase(r, i, if r.restoring.Some? then AwaitingRestore(r.restoring.value) else Done)
    else
      var r := EnsureRefreshed(s);
      WithPhase(r, i, if r.refreshing.Some? then AwaitingRefresh(r.refreshing.value) else Done)
  }

  /** doRefresh once the server has answered: a new pair is stored, a refusal clears the session. */
  function OnRefreshReply(s: State, k: nat, reply: Option<TokenPair>): State
    requires k < |s.refreshes|
  {
    match reply
    case Some(pair) => Issue(s, pair).(refreshes := s.refreshes[k := Settled(Some(pair.access))])
    case None => s.(tokens := ClearTokens(s.tokens), refreshes := s.refreshes[k := Settled(None)])
  }

  /** A pair of the user's own reaches the token store. */
  function Issue(s: State, pair: TokenPair): State {
    s.(tokens := SetTokens(s.tokens, pair), issued := s.issued + {pair.refresh})
  }

  /** The finally of the refresh promise. */
  function ClearSlotOf(s: State, k: nat): State
    requires k < |s.refreshes| && s.refreshes[k].Settled?
  {
    s.(refreshing := None, refreshes := s.refreshes[k := Over(s.refreshes[k].brought)])
  }

  /** What the request waits for has come to its end. */
  predicate CanResume(s: State, phase: Phase) {
    match phase
    case AwaitingRefresh(k) => k < |s.refreshes| && s.refreshes[k].Over?
    case AwaitingRestore(k) => k < |s.restores| && s.restores[k] == Finished
    case _ => false
  }

  /** apiRequest once what it awaited is over: retry after a refresh that succeeded, else give up. */
  function OnAwaited(s: State, i: nat): State
    requires i < |s.requests| && CanResume(s, s.requests[i].phase)
  {
    var q := s.requests[i];
    if q.phase.AwaitingRefresh? && s.refreshes[q.phase.refresh].brought.Some? then
      var k := q.phase.refresh;
      var again := q.(phase := Second(k), sent := q.sent + [s.tokens.access], retriedAfter := Some(k));
      s.(requests := s.requests[i := again])
    else WithPhase(s, i, Done)
  }

  // ----- tasks and microtasks -----

  predicate CanNotify(s: State, restore: Restore) {
    restore.Restoring? && restore.refresh < |s.refreshes| && s.refreshes[restore.refresh].Over?
  }

  /** No continuation is pending, so the next task may begin. */
  ghost predicate Quiet(s: State) {
    && (forall k :: 0 <= k < |s.refreshes| ==> !s.refreshes[k].Settled?)
    && (forall i :: 0 <= i < |s.requests| ==> !CanResume(s, s.requests[i].phase))
    && (forall k :: 0 <= k < |s.restores| ==> s.restores[k] != Notified && !CanNotify(s, s.restores[k]))
  }

  datatype Step =
    | Start(noRetry: bool)
    | Respond(request: nat, unauthorized: bool)
    | Settle(refresh: nat, reply: Option<TokenPair>)
    | ClearSlot(refresh: nat)
    | Resume(request: nat)
    | Notify(restore: nat)
    | FinishRestore(restore: nat)
    | Impersonate(request: nat, id: nat)
    | Exit
    | SignIn(pair: TokenPair)
    | SignOut

  /** Steps that begin a task. A request may also be started by a continuation. */
  predicate IsTask(step: Step) {
    step.Respond? || step.Settle? || step.Impersonate? || step.Exit? || step.SignIn? || step.SignOut?
  }

  /** One step. The server never issues a refresh token twice; impersonation begins when a request
      that asked for it has been answered. */
  ghost predicate Next(s: State, step: Step, t: State) {
    && (IsTask(step) ==> Quiet(s))
    && match step
       case Start(noRetry) => t == StartRequest(s, noRetry)
       case Respond(i, unauthorized) =>
         && i < |s.requests| && (s.requests[i].phase.First? || s.requests[i].phase.Second?)
         && t == OnResponse(s, i, unauthorized)
       case Settle(k, reply) =>
         && k < |s.refreshes| && s.refreshes[k].Requested?
         && (reply.Some? ==> reply.value.refresh !in s.issued)
         && t == OnRefreshReply(s, k, reply)
       case ClearSlot(k) => k < |s.refreshes| && s.refreshes[k].Settled? && t == ClearSlotOf(s, k)
       case Resume(i) => i < |s.requests| && CanResume(s, s.requests[i].phase) && t == OnAwaited(s, i)
       case Notify(k) =>
         k < |s.restores| && CanNotify(s, s.restores[k]) && t == s.(restores := s.restores[k := Notified])
       case FinishRestore(k) =>
         && k < |s.restores| && s.restores[k] == Notified
         && t == s.(restoring := None, restores := s.restores[k := Finished])
       case Impersonate(i, id) =>
         i < |s.requests| && s.requests[i].phase == Done && t == s.(tokens := BeginImpersonation(s.tokens, id))
       case Exit => t == RestoreAdminSession(s)
       case SignIn(pair) => pair.refresh !in s.issued && t == Issue(s, pair)
       case SignOut => t == s.(tokens := ClearTokens(s.tokens))
  }

  /** A freshly loaded page: nothing under way, no access token, perhaps a refresh token from before. */
  ghost predicate Init(s: State) {
    && s.tokens.access.None? && !s.tokens.impersonating && s.refreshing.None? && s.restoring.None?
    && s.refreshes == [] && s.restores == [] && s.requests == [] && s.presented == []
    && (s.tokens.stored.Some? ==> s.tokens.stored.value in s.issued)
  }

  // ----- the invariant -----

  /** The slot names the one refresh that is not over, if there is any. */
  ghost predicate OneRefresh(s: State) {
    && (forall k: nat :: k < |s.refreshes| && !s.refreshes[k].Over? ==> s.refreshing == Some(k))
    && (s.refreshing.Some? ==> s.refreshing.value < |s.refreshes| && !s.refreshes[s.refreshing.value].Over?)
  }

  ghost predicate OneRestore(s: State) {
    && (forall k: nat :: k < |s.restores| && s.restores[k] != Finished ==> s.restoring == Some(k))
    && (s.restoring.Some? ==> s.restoring.value < |s.restores| && s.restores[s.restoring.value] != Finished)
  }

  /** No refresh token has been presented twice, and the stored one not at all, unless that is the request now out. */
  ghost predicate PresentedOnce(s: State) {
    && (forall i, j :: 0 <= i < j < |s.presented| ==> s.presented[i] != s.presented[j])
    && (forall i :: 0 <= i < |s.presented| ==> s.presented[i] in s.issued)
    && (s.tokens.stored.Some? ==> s.tokens.stored.value in s.issued)
    && (s.tokens.stored.Some? && s.tokens.stored.value in s.presented ==>
          s.refreshing.Some? && s.refreshing.value < |s.refreshes|
          && s.refreshes[s.refreshing.value] == Requested(s.tokens.stored.value))
  }

  ghost predicate Retryable(q: Request) {
    !q.noRetry && !q.wasImpersonating
  }

  /** A request is sent once, and a second time only if it may be retried. */
  ghost predicate SentInTurn(q: Request) {
    match q.phase
    case First => |q.sent| == 1
    case AwaitingRefresh(_) => |q.sent| == 1 && Retryable(q)
    case AwaitingRestore(_) => |q.sent| == 1
    case Second(_) => |q.sent| == 2 && Retryable(q)
    case Done => |q.sent| == 1 || (|q.sent| == 2 && Retryable(q))
  }

  ghost predicate RequestsInTurn(s: State) {
    forall i :: 0 <= i < |s.requests| ==> SentInTurn(s.requests[i])
  }

  ghost predicate Inv(s: State) {
    OneRefresh(s) && OneRestore(s) && PresentedOnce(s) && RequestsInTurn(s)
  }

  lemma RefreshesKeepRequests(s: State)
    ensures EnsureRefreshed(s).requests == s.requests && EnsureRefreshed(s).refreshing.Some?
    ensures RestoreFromExpiry(s).requests == s.requests && RestoreFromExpiry(s).restoring.Some?
  {
  }

  lemma EnsureKeepsInv(s: State)
    requires Inv(s)
    ensures Inv(EnsureRefreshed(s))
  {
  }

  lemma {:induction false} RestoreKeepsInv(s: State)
    requires Inv(s)
    ensures Inv(RestoreFromExpiry(s))
  {
    EnsureKeepsInv(s.(tokens := EndImpersonation(s.tokens)));
  }

  lemma {:induction false} RespondKeepsInv(s: State, i: nat, unauthorized: bool)
    requires Inv(s) && i < |s.requests| && (s.requests[i].phase.First? || s.requests[i].phase.Second?)
    ensures Inv(OnResponse(s, i, unauthorized))
  {
    EnsureKeepsInv(s);
    RestoreKeepsInv(s);
    RefreshesKeepRequests(s);
    assert SentInTurn(s.requests[i]);
  }

  lemma SettleKeepsInv(s: State, k: nat, reply: Option<TokenPair>, t: State)
    requires Inv(s) && Next(s, Settle(k, reply), t)
    ensures Inv(t)
  {
  }

  lemma {:induction false} ResumeKeepsInv(s: State, i: nat, t: State)
    requires Inv(s) && Next(s, Resume(i), t)
    ensures Inv(t)
  {
    assert SentInTurn(s.requests[i]);
  }

  lemma {:induction false} StepKeepsInv(s: State, step: Step, t: State)
    requires Inv(s) && Next(s, step, t)
    ensures Inv(t)
  {
    match step
    case Respond(i, unauthorized) => RespondKeepsInv(s, i, unauthorized);
    case Exit => EnsureKeepsInv(s.(tokens := EndImpersonation(s.tokens)));
    case Settle(k, reply) => SettleKeepsInv(s, k, reply, t);
    case Resume(i) => ResumeKeepsInv(s, i, t);
    case _ =>
  }

  // ----- whole runs -----

  /** States linked by steps. */
  ghost predicate Linked(states: seq<State>, steps: seq<Step>) {
    && |states| == |steps| + 1
    && forall i :: 0 <= i < |steps| ==> Next(states[i], steps[i], states[i + 1])
  }

  ghost predicate IsRun(states: seq<State>, steps: seq<Step>) {
    Linked(states, steps) && Init(states[0])
  }

  ghost predicate Reachable(s: State) {
    exists states: seq<State>, steps: seq<Step> :: IsRun(states, steps) && states[|steps|] == s
  }

  lemma {:induction false} RunKeepsInv(states: seq<State>, steps: seq<Step>, k: nat)
    requires IsRun(states, steps) && k <= |steps|
    ensures Inv(states[k])
  {
    if k > 0 {
      RunKeepsInv(states, steps, k - 1);
      StepKeepsInv(states[k - 1], steps[k - 1], states[k]);
    }
  }

  lemma {:induction false} ReachableInv(s: State)
    requires Reachable(s)
    ensures Inv(s)
  {
    var states: seq<State>, steps: seq<Step> :| IsRun(states, steps) && states[|steps|] == s;
    RunKeepsInv(states, steps, |steps|);
  }

  lemma {:induction false} ReachableStep(s: State, step: Step, t: State)
    requires Reachable(s) && Next(s, step, t)
    ensures Reachable(t)
  {
    var states: seq<State>, steps: seq<Step> :| IsRun(states, steps) && states[|steps|] == s;
    assert IsRun(states + [t], steps + [step]);
  }

  /** In every interleaving at most one refresh is outstanding, and at most one restoration; the slot
      is taken exactly while a refresh is not over, so it is never left blocked. */
  lemma {:induction false} SingleFlight(s: State, j: nat, k: nat)
    requires Reachable(s)
    ensures j < |s.refreshes| && k < |s.refreshes| && !s.refreshes[j].Over? && !s.refreshes[k].Over? ==> j == k
    ensures j < |s.restores| && k < |s.restores| && s.restores[j] != Finished && s.restores[k] != Finished ==> j == k
    ensures s.refreshing == Some(k) <==> k < |s.refreshes| && !s.refreshes[k].Over?
  {
    ReachableInv(s);
  }

  /** No refresh token is ever presented to the server a second time. */
  lemma {:induction false} NeverPresentedTwice(s: State, i: nat, j: nat)
    requires Reachable(s) && i < j < |s.presented|
    ensures s.presented[i] != s.presented[j]
  {
    ReachableInv(s);
  }

  /** Every request goes out once or twice; exactly once if it was begun while impersonating, or asked not to
      be retried. */
  lemma {:induction false} SentAtMostTwice(s: State, i: nat)
    requires Reachable(s) && i < |s.requests|
    ensures 1 <= |s.requests[i].sent| <= 2
    ensures s.requests[i].wasImpersonating || s.requests[i].noRetry ==> |s.requests[i].sent| == 1
  {
    ReachableInv(s);
    assert SentInTurn(s.requests[i]);
  }

  // ----- requests that fail together -----

  /** A refresh request is out. */
  ghost predicate RefreshOut(s: State) {
    s.refreshing.Some? && s.refreshing.value < |s.refreshes| && s.refreshes[s.refreshing.value].Requested?
  }

  lemma {:induction false} StepSharesRefresh(s: State, step: Step, t: State)
    requires Inv(s) && Next(s, step, t) && !step.Settle?
    ensures RefreshOut(s) ==> RefreshOut(t) && t.presented == s.presented
    ensures t.presented == s.presented || (|t.presented| == |s.presented| + 1 && RefreshOut(t))
  {
  }

  /** Whatever fails between one refresh reply and the next, a whole cluster of requests included,
      presents one refresh token at most, and none while a refresh is out already. */
  lemma {:induction false} ClusterSharesRefresh(states: seq<State>, steps: seq<Step>, i: nat, j: nat)
    requires IsRun(states, steps) && i <= j <= |steps|
    requires forall k :: i <= k < j ==> !steps[k].Settle?
    ensures |states[j].presented| <= |states[i].presented| + if RefreshOut(states[i]) then 0 else 1
    ensures RefreshOut(states[i]) || |states[j].presented| > |states[i].presented| ==> RefreshOut(states[j])
  {
    if i < j {
      ClusterSharesRefresh(states, steps, i, j - 1);
      RunKeepsInv(states, steps, j - 1);
      StepSharesRefresh(states[j - 1], steps[j - 1], states[j]);
    }
  }

  lemma {:induction false} StepSharesRestore(s: State, step: Step, t: State)
    requires Inv(s) && Next(s, step, t) && !step.FinishRestore?
    ensures s.restoring.Some? ==> t.restoring == s.restoring && |t.restores| == |s.restores|
    ensures |t.restores| == |s.restores| || (|t.restores| == |s.restores| + 1 && t.restoring.Some?)
  {
  }

  /** Until a restoration is finished, however many impersonating requests fail, none but that one is
      started, so the listeners hear of the expiry once. */
  lemma {:induction false} ClusterSharesRestore(states: seq<State>, steps: seq<Step>, i: nat, j: nat)
    requires IsRun(states, steps) && i <= j <= |steps|
    requires forall k :: i <= k < j ==> !steps[k].FinishRestore?
    ensures |states[j].restores| <= |states[i].restores| + if states[i].restoring.Some? then 0 else 1
    ensures states[i].restoring.Some? || |states[j].restores| > |states[i].restores| ==> states[j].restoring.Some?
  {
    if i < j {
      ClusterSharesRestore(states, steps, i, j - 1);
      RunKeepsInv(states, steps, j - 1);
      StepSharesRestore(states[j - 1], steps[j - 1], states[j]);
    }
  }
}
