/** When the impersonation flag and the token agree, and when a signed-out session stays signed out:
    conditions that can be checked before the step. */
module SessionImpersonation {
  import opened Wrappers
  import opened SessionRefresh

  /** A screen that shows impersonation holds an impersonation token. */
  ghost predicate FlagAgrees(t: Tokens) {
    t.impersonating ==> t.access.Some? && t.access.value.Impersonation?
  }

  /** The step stores a token pair of the user's own. */
  predicate InstallsOwn(step: Step) {
    step.SignIn? || (step.Settle? && step.reply.Some?)
  }

  lemma StepKeepsAgreement(s: State, step: Step, t: State)
    requires Next(s, step, t) && FlagAgrees(s.tokens)
    ensures FlagAgrees(t.tokens) <==> !(InstallsOwn(step) && s.tokens.impersonating)
  {
  }

  lemma {:induction false} AgreementHolds(states: seq<State>, steps: seq<Step>, k: nat)
    requires IsRun(states, steps) && k <= |steps|
    requires forall i :: 0 <= i < |steps| && InstallsOwn(steps[i]) ==> !states[i].tokens.impersonating
    ensures FlagAgrees(states[k].tokens)
  {
    if k > 0 {
      AgreementHolds(states, steps, k - 1);
      StepKeepsAgreement(states[k - 1], steps[k - 1], states[k]);
    }
  }

  /** Looking back at a run: flag and token agreed throughout exactly if no pair arrived while the flag was up. */
  lemma {:induction false} AgreementExactly(states: seq<State>, steps: seq<Step>)
    requires IsRun(states, steps)
    ensures (forall k :: 0 <= k <= |steps| ==> FlagAgrees(states[k].tokens))
            <==> (forall i :: 0 <= i < |steps| && InstallsOwn(steps[i]) ==> !states[i].tokens.impersonating)
  {
    if forall i :: 0 <= i < |steps| && InstallsOwn(steps[i]) ==> !states[i].tokens.impersonating {
      forall k | 0 <= k <= |steps| ensures FlagAgrees(states[k].tokens) {
        AgreementHolds(states, steps, k);
      }
    } else {
      var i :| 0 <= i < |steps| && InstallsOwn(steps[i]) && states[i].tokens.impersonating;
      if FlagAgrees(states[i].tokens) {
        StepKeepsAgreement(states[i], steps[i], states[i + 1]);
        assert !FlagAgrees(states[i + 1].tokens);
      }
    }
  }

  /** No refresh is under way, and none can be started by a request still unanswered: such a request
      would have to be the user's own, retryable, and find a refresh token in the store. */
  ghost predicate NoRefreshAhead(s: State) {
    && s.refreshing.None?
    && (s.tokens.stored.None? || forall i :: 0 <= i < |s.requests| && s.requests[i].phase.First? ==>
         !Retryable(s.requests[i]))
  }

  /** Impersonation is shown, rightly, and no refresh can come in under it. */
  ghost predicate Sheltered(s: State) {
    s.tokens.impersonating && FlagAgrees(s.tokens) && NoRefreshAhead(s)
  }

  lemma {:induction false} ShelterHolds(s: State, step: Step, t: State)
    requires Inv(s) && Sheltered(s) && Next(s, step, t) && !step.SignIn?
    ensures t.tokens.impersonating ==> Sheltered(t)
  {
    match step
    case Respond(i, unauthorized) => ShelterHoldsOnResponse(s, i, unauthorized);
    case Start(_) => assert forall i :: 0 <= i < |s.requests| ==> t.requests[i] == s.requests[i];
    case Resume(i) => assert forall j :: 0 <= j < |s.requests| && j != i ==> t.requests[j] == s.requests[j];
    case _ =>
  }

  /** A response that leaves the flag up changes nothing but the request's own phase. */
  lemma {:induction false} ShelterHoldsOnResponse(s: State, i: nat, unauthorized: bool)
    requires Inv(s) && Sheltered(s) && i < |s.requests|
    ensures var t := OnResponse(s, i, unauthorized); t.tokens.impersonating ==> Sheltered(t)
  {
    RefreshesKeepRequests(s);
    var t := OnResponse(s, i, unauthorized);
    if t.tokens.impersonating {
      assert t.tokens == s.tokens && t.refreshing.None?;
      assert forall j :: 0 <= j < |t.requests| && t.requests[j].phase.First? ==> t.requests[j] == s.requests[j];
    }
  }

  /** States linked by steps from s on, with the flag up before each step and no sign-in meanwhile. */
  ghost predicate UnderFlag(s: State, states: seq<State>, steps: seq<Step>) {
    && Linked(states, steps) && states[0] == s
    && forall k :: 0 <= k < |steps| ==> states[k].tokens.impersonating && !steps[k].SignIn?
  }

  lemma {:induction false} ShelterLasts(s: State, states: seq<State>, steps: seq<Step>, k: nat)
    requires Inv(s) && Sheltered(s) && UnderFlag(s, states, steps) && k <= |steps|
    ensures Inv(states[k]) && (states[k].tokens.impersonating ==> Sheltered(states[k]))
  {
    if k > 0 {
      ShelterLasts(s, states, steps, k - 1);
      StepKeepsInv(states[k - 1], steps[k - 1], states[k]);
      ShelterHolds(states[k - 1], steps[k - 1], states[k]);
    }
  }

  lemma {:induction false} UpperBound(tokens: set<nat>) returns (bound: nat)
    ensures forall token :: token in tokens ==> token < bound
  {
    if tokens == {} {
      bound := 0;
    } else {
      var token :| token in tokens;
      var rest := UpperBound(tokens - {token});
      bound := if rest <= token then token + 1 else rest;
      forall other | other in tokens ensures other < bound {
        assert other == token || other in tokens - {token};
      }
    }
  }

  /** A refresh that is out when the flag is up can come back with a pair of the user's own. */
  lemma {:induction false} OutstandingCrosses(s: State, k: nat) returns (pair: TokenPair, t: State)
    requires Quiet(s) && s.tokens.impersonating && k < |s.refreshes| && s.refreshes[k].Requested?
    ensures Next(s, Settle(k, Some(pair)), t) && !FlagAgrees(t.tokens) && t.tokens.stored.Some?
  {
    var unissued := UpperBound(s.issued);
    pair := TokenPair(0, unissued);
    t := OnRefreshReply(s, k, Some(pair));
  }

  /** An own request that is refused under the flag sends a refresh out. */
  lemma {:induction false} RefusedSendsRefresh(s: State, i: nat) returns (t: State)
    requires Inv(s) && Quiet(s) && s.tokens.impersonating && s.refreshing.None? && s.tokens.stored.Some?
    requires i < |s.requests| && s.requests[i].phase.First? && Retryable(s.requests[i])
    ensures Next(s, Respond(i, true), t) && Quiet(t) && t.tokens == s.tokens
    ensures |t.refreshes| == |s.refreshes| + 1 && t.refreshes[|s.refreshes|].Requested?
  {
    t := OnResponse(s, i, true);
    forall j | 0 <= j < |t.requests| ensures !CanResume(t, t.requests[j].phase) {
      if j != i {
        assert !CanResume(s, s.requests[j].phase);
      }
    }
    forall j | 0 <= j < |t.restores| ensures t.restores[j] != Notified && !CanNotify(t, t.restores[j]) {
      assert !CanNotify(s, s.restores[j]);
    }
  }

  lemma {:induction false} BeginningIsQuiet(s: State, i: nat, id: nat, t: State)
    requires Next(s, Impersonate(i, id), t)
    ensures Quiet(t) && t.tokens.impersonating && FlagAgrees(t.tokens)
  {
    forall j | 0 <= j < |t.requests| ensures !CanResume(t, t.requests[j].phase) {
      assert !CanResume(s, s.requests[j].phase);
    }
    forall j | 0 <= j < |t.restores| ensures t.restores[j] != Notified && !CanNotify(t, t.restores[j]) {
      assert !CanNotify(s, s.restores[j]);
    }
  }

  /** If a refresh is ahead when impersonation begins, some continuation puts the user's own token
      under the raised flag. */
  lemma {:induction false} UnsafeBeginningCrosses(s: State, i: nat, id: nat, t: State)
    returns (states: seq<State>, steps: seq<Step>)
    requires Inv(s) && Next(s, Impersonate(i, id), t) && !NoRefreshAhead(s)
    ensures UnderFlag(t, states, steps) && !FlagAgrees(states[|steps|].tokens)
  {
    BeginningIsQuiet(s, i, id, t);
    if s.refreshing.Some? {
      var k := s.refreshing.value;
      var pair, u := OutstandingCrosses(t, k);
      states, steps := [t, u], [Settle(k, Some(pair))];
    } else {
      StepKeepsInv(s, Impersonate(i, id), t);
      var j :| 0 <= j < |s.requests| && s.requests[j].phase.First? && Retryable(s.requests[j]);
      var u := RefusedSendsRefresh(t, j);
      var pair, v := OutstandingCrosses(u, |t.refreshes|);
      states, steps := [t, u, v], [Respond(j, true), Settle(|t.refreshes|, Some(pair))];
    }
  }

  /** Flag and token agree from s on until the flag falls, whatever happens but a sign-in. */
  ghost predicate AgreesUntilFlagFalls(s: State) {
    forall states: seq<State>, steps: seq<Step> :: UnderFlag(s, states, steps) ==> FlagAgrees(states[|steps|].tokens)
  }

  /** When impersonation begins, flag and token agree until the flag falls, whatever happens but a
      sign-in, exactly if no refresh is under way and no unanswered own request can start one. */
  lemma {:induction false} BeginningIsSafeExactly(s: State, i: nat, id: nat, t: State)
    requires Reachable(s) && Next(s, Impersonate(i, id), t)
    ensures AgreesUntilFlagFalls(t) <==> NoRefreshAhead(s)
  {
    ReachableInv(s);
    StepKeepsInv(s, Impersonate(i, id), t);
    if NoRefreshAhead(s) {
      forall states: seq<State>, steps: seq<Step> | UnderFlag(t, states, steps)
        ensures FlagAgrees(states[|steps|].tokens)
      {
        ShelterLasts(t, states, steps, |steps|);
      }
    } else {
      var states, steps := UnsafeBeginningCrosses(s, i, id, t);
    }
  }

  // ----- whole runs -----

  /** Every impersonation of the run begins with no refresh ahead, and nobody signs in under the flag. */
  ghost predicate BeginsSafely(states: seq<State>, steps: seq<Step>) {
    && IsRun(states, steps)
    && (forall k :: 0 <= k < |steps| && steps[k].Impersonate? ==>
         states[k].tokens.impersonating || NoRefreshAhead(states[k]))
    && forall k :: 0 <= k < |steps| && steps[k].SignIn? ==> !states[k].tokens.impersonating
  }

  lemma {:induction false} SafeRunIsSheltered(states: seq<State>, steps: seq<Step>, k: nat)
    requires BeginsSafely(states, steps) && k <= |steps|
    ensures Inv(states[k]) && (states[k].tokens.impersonating ==> Sheltered(states[k]))
  {
    if k > 0 {
      SafeRunIsSheltered(states, steps, k - 1);
      var s, step, t := states[k - 1], steps[k - 1], states[k];
      StepKeepsInv(s, step, t);
      if s.tokens.impersonating {
        ShelterHolds(s, step, t);
      }
    }
  }

  /** The request went out as somebody else, and only so. */
  ghost predicate SentAsOther(q: Request) {
    |q.sent| == 1 && q.sent[0].Some? && q.sent[0].value.Impersonation?
  }

  ghost predicate ImpersonatedAsOther(s: State) {
    forall i :: 0 <= i < |s.requests| && s.requests[i].wasImpersonating ==> SentAsOther(s.requests[i])
  }

  lemma {:induction false} RequestsOnlyGrow(s: State, step: Step, t: State)
    requires Next(s, step, t)
    ensures |s.requests| <= |t.requests|
    ensures forall i :: 0 <= i < |s.requests| ==> t.requests[i].wasImpersonating == s.requests[i].wasImpersonating
    ensures forall i :: |s.requests| <= i < |t.requests| ==>
                          t.requests[i].wasImpersonating == s.tokens.impersonating
                            && t.requests[i].sent == [s.tokens.access]
  {
    RefreshesKeepRequests(s);
    RefreshesKeepRequests(s.(tokens := EndImpersonation(s.tokens)));
  }

  lemma {:induction false} KeepsSent(s: State, step: Step, t: State, i: nat)
    requires RequestsInTurn(s) && Next(s, step, t) && i < |s.requests| && s.requests[i].wasImpersonating
    ensures i < |t.requests| && t.requests[i].sent == s.requests[i].sent
  {
    RefreshesKeepRequests(s);
    RefreshesKeepRequests(s.(tokens := EndImpersonation(s.tokens)));
    assert SentInTurn(s.requests[i]);
  }

  lemma {:induction false} StepKeepsAsOther(s: State, step: Step, t: State)
    requires RequestsInTurn(s) && FlagAgrees(s.tokens) && ImpersonatedAsOther(s) && Next(s, step, t)
    ensures ImpersonatedAsOther(t)
  {
    RequestsOnlyGrow(s, step, t);
    forall i | 0 <= i < |t.requests| && t.requests[i].wasImpersonating ensures SentAsOther(t.requests[i]) {
      if i < |s.requests| {
        KeepsSent(s, step, t, i);
      }
    }
  }

  /** If every impersonation begins with no refresh ahead, flag and token always agree, and no request
      begun while impersonating is ever sent under the user's own token. */
  lemma {:induction false} ImpersonatedStayImpersonated(states: seq<State>, steps: seq<Step>, k: nat)
    requires BeginsSafely(states, steps) && k <= |steps|
    ensures FlagAgrees(states[k].tokens) && ImpersonatedAsOther(states[k])
  {
    SafeRunIsSheltered(states, steps, k);
    if k > 0 {
      SafeRunIsSheltered(states, steps, k - 1);
      ImpersonatedStayImpersonated(states, steps, k - 1);
      StepKeepsAsOther(states[k - 1], steps[k - 1], states[k]);
    }
  }

  /** Signed in, with the request for an impersonation token and a background request out under the
      same token, of which the latter has just been refused. */
  function BackgroundRefused(): State {
    var own := Request(false, false, Done, [Some(Own(3))], None);
    State(Tokens(Some(Own(3)), false, Some(1)), Some(0), None, [Requested(1)], [],
          [own, own.(phase := AwaitingRefresh(0))], [1], {1})
  }

  function BothSent(): State {
    var own := Request(false, false, First, [Some(Own(3))], None);
    State(Tokens(Some(Own(3)), false, Some(1)), None, None, [], [], [own, own], [], {1})
  }

  lemma {:induction false} BothAreSent()
    ensures Reachable(BothSent())
  {
    var s0 := State(Tokens(None, false, None), None, None, [], [], [], [], {});
    assert IsRun([s0], []);
    var s1 := BothSent().(requests := []);
    ReachableStep(s0, SignIn(TokenPair(3, 1)), s1);
    var s2 := StartRequest(s1, false);
    ReachableStep(s1, Start(false), s2);
    ReachableStep(s2, Start(false), BothSent());
  }

  lemma {:induction false} BackgroundIsRefused()
    ensures Reachable(BackgroundRefused())
  {
    var own := Request(false, false, First, [Some(Own(3))], None);
    var s3 := BothSent();
    BothAreSent();
    var s4 := s3.(refreshing := Some(0), refreshes := [Requested(1)], presented := [1],
                  requests := [own, own.(phase := AwaitingRefresh(0))]);
    ReachableStep(s3, Respond(1, true), s4);
    ReachableStep(s4, Respond(0, false), BackgroundRefused());
  }

  /** The condition can fail in practice: impersonation is granted while a background refresh is under
      way, the refresh settles under the raised flag, and the next request goes out as the user. */
  lemma {:induction false} LateRefreshCrossesOver() returns (s: State)
    ensures Reachable(s) && !FlagAgrees(s.tokens)
    ensures |s.requests| == 3 && s.requests[2].wasImpersonating && s.requests[2].sent == [Some(Own(5))]
  {
    BackgroundIsRefused();
    var s1 := BackgroundRefused().(tokens := Tokens(Some(Impersonation(7)), true, Some(1)));
    ReachableStep(BackgroundRefused(), Impersonate(0, 7), s1);
    var s2 := s1.(tokens := Tokens(Some(Own(5)), true, Some(2)), refreshes := [Settled(Some(5))], issued := {1, 2});
    ReachableStep(s1, Settle(0, Some(TokenPair(5, 2))), s2);
    s := StartRequest(s2, false);
    ReachableStep(s2, Start(false), s);
  }

  // ----- signing out -----

  /** States linked by steps from s on, without a sign-in. */
  ghost predicate NoSignIn(s: State, states: seq<State>, steps: seq<Step>) {
    Linked(states, steps) && states[0] == s && forall k :: 0 <= k < |steps| ==> !steps[k].SignIn?
  }

  /** No refresh token, and none on its way. */
  ghost predicate SignedOut(s: State) {
    s.tokens.stored.None? && forall k :: 0 <= k < |s.refreshes| ==> !s.refreshes[k].Requested?
  }

  lemma {:induction false} SignedOutLasts(s: State, states: seq<State>, steps: seq<Step>, k: nat)
    requires SignedOut(s) && NoSignIn(s, states, steps) && k <= |steps|
    ensures SignedOut(states[k])
  {
    if k > 0 {
      SignedOutLasts(s, states, steps, k - 1);
    }
  }

  /** No refresh token reaches the store from s on, whatever happens but a sign-in. */
  ghost predicate StaysSignedOut(s: State) {
    forall states: seq<State>, steps: seq<Step> :: NoSignIn(s, states, steps) ==> states[|steps|].tokens.stored.None?
  }

  /** A signed-out session stays without a refresh token, whatever happens but a sign-in, exactly if no
      refresh is under way at sign-out: one that is can bring the session back. */
  lemma {:induction false} SignOutHoldsExactly(s: State, t: State)
    requires Reachable(s) && Next(s, SignOut, t)
    ensures StaysSignedOut(t) <==> s.refreshing.None?
  {
    ReachableInv(s);
    if s.refreshing.None? {
      forall states: seq<State>, steps: seq<Step> | NoSignIn(t, states, steps)
        ensures states[|steps|].tokens.stored.None?
      {
        SignedOutLasts(t, states, steps, |steps|);
      }
    } else {
      SignOutIsUndone(s, t);
    }
  }

  /** A reachable sign-out that does not hold: the background refresh is still under way. */
  lemma {:induction false} SignOutMayBeUndone() returns (t: State)
    ensures Reachable(BackgroundRefused()) && Next(BackgroundRefused(), SignOut, t)
    ensures !StaysSignedOut(t)
  {
    BackgroundIsRefused();
    ReachableInv(BackgroundRefused());
    t := BackgroundRefused().(tokens := Tokens(None, false, None));
    SignOutIsUndone(BackgroundRefused(), t);
  }

  lemma {:induction false} SignOutIsUndone(s: State, t: State)
    requires Inv(s) && Next(s, SignOut, t) && s.refreshing.Some?
    ensures !StaysSignedOut(t)
  {
    forall j | 0 <= j < |t.requests| ensures !CanResume(t, t.requests[j].phase) {
      assert !CanResume(s, s.requests[j].phase);
    }
    forall j | 0 <= j < |t.restores| ensures t.restores[j] != Notified && !CanNotify(t, t.restores[j]) {
      assert !CanNotify(s, s.restores[j]);
    }
    var k := s.refreshing.value;
    var unissued := UpperBound(t.issued);
    var pair := TokenPair(0, unissued);
    var states, steps := [t, OnRefreshReply(t, k, Some(pair))], [Settle(k, Some(pair))];
    assert NoSignIn(t, states, steps);
  }
}
