/**
 The authorization-code flow with PKCE over any run: src/mcpxy_proxy/auth/oauth.py, lines
 412 to 510, and sections 4.1 to 4.6 of RFC 7636.
 */
module OAuthAuthorizing {
  import opened Prelude
  import opened OAuthFlows
  import opened OAuthRefreshing

  /** Pending flows are started, unredeemed ones; a flow being redeemed is marked so. */
  ghost predicate FlowInv(s: World) {
    && (forall st | st in s.pending ::
          st in s.issued && s.issued[st] == s.pending[st] && s.pending[st].state == st && st !in s.redeemed)
    && (forall st | st in s.redeemed :: st in s.issued)
    && (forall id | id in s.calls && s.calls[id].Redeeming? ::
          var p := s.calls[id].flow; p.state in s.redeemed && s.issued[p.state] == p)
  }

  /** What the first part of `finish_authorization` redeems, if anything. */
  function Redeems(s: World, a: Action, now: real): (p: Option<Pending>) {
    if a.Finish? && a.state in s.pending && !TooOld(s.pending[a.state], now) then Some(s.pending[a.state]) else None
  }

  lemma StepFlow(s: World, a: Action, now: real)
    requires FlowInv(s) && Enabled(s, a, now)
    ensures FlowInv(Step(s, a, now))
    ensures s.redeemed <= Step(s, a, now).redeemed
    ensures forall st | st in s.issued :: st in Step(s, a, now).issued && Step(s, a, now).issued[st] == s.issued[st]
    ensures Redeems(s, a, now).Some? ==>
      var p := Redeems(s, a, now).value;
      && p.state == a.state && p.state !in s.redeemed && p.state in Step(s, a, now).redeemed
      && p.state in s.issued && s.issued[p.state] == p && now - p.createdAt <= AUTHORIZATION_TTL
      && Step(s, a, now).calls[a.id] == Redeeming(p, a.code)
  {
    if !Moves(a) {
      hide Moves;
      UnmovedFlow(s, a, now);
    } else if a.Finish? {
      FinishFlow(s, a, now);
    } else {
      hide Effect, Step, Enabled, Holds;
      StepEffect(s, a, now);
      OthersFlow(s, a, now);
    }
  }

  lemma UnmovedFlow(s: World, a: Action, now: real)
    requires FlowInv(s) && Enabled(s, a, now) && !Moves(a)
    ensures FlowInv(Step(s, a, now)) && s.redeemed == Step(s, a, now).redeemed
    ensures forall st | st in s.issued :: st in Step(s, a, now).issued && Step(s, a, now).issued[st] == s.issued[st]
  {
  }

  lemma FinishFlow(s: World, a: Action, now: real)
    requires FlowInv(s) && Enabled(s, a, now) && a.Finish?
    ensures FlowInv(Step(s, a, now)) && s.redeemed <= Step(s, a, now).redeemed && s.issued == Step(s, a, now).issued
    ensures Redeems(s, a, now).Some? ==>
      var p := Redeems(s, a, now).value;
      && p.state == a.state && p.state !in s.redeemed && p.state in Step(s, a, now).redeemed
      && p.state in s.issued && s.issued[p.state] == p && now - p.createdAt <= AUTHORIZATION_TTL
      && Step(s, a, now).calls[a.id] == Redeeming(p, a.code)
  {
    hide TooOld, FinishAuthorization;
    FinishEnds(s, a.id, a.state, a.code, now);
    FinishTakes(s, a.id, a.state, a.code, now);
    if a.state in s.pending && !TooOld(s.pending[a.state], now) {
      NotTooOld(s.pending[a.state], now);
    }
  }

  /** The flow is taken out before its age is looked at. */
  lemma FinishTakes(s: World, id: CallId, state: string, code: string, now: real)
    ensures var r := FinishAuthorization(s, id, state, code, now);
      && r.pending == s.pending - {state} && id in r.calls
      && if state in s.pending && !TooOld(s.pending[state], now)
         then r.redeemed == s.redeemed + {state} && r.calls[id] == Redeeming(s.pending[state], code)
         else r.redeemed == s.redeemed && r.calls[id].Done?
  {
    hide TooOld;
    if state !in s.pending { assert s.pending - {state} == s.pending; }
  }

  lemma NotTooOld(p: Pending, now: real)
    requires !TooOld(p, now)
    ensures now - p.createdAt <= AUTHORIZATION_TTL
  {
  }

  ghost predicate OthersKeepFlows(s: World, a: Action, r: World)
    requires Moves(a)
  {
    && r.pending == s.pending && r.issued == s.issued && r.redeemed == s.redeemed
    && a.id in r.calls && !r.calls[a.id].Redeeming?
  }

  /** Only `finish_authorization` begins to redeem, and only the flow steps touch the flows. */
  lemma OthersFlow(s: World, a: Action, now: real)
    requires Enabled(s, a, now) && Moves(a) && !a.Finish?
    ensures OthersKeepFlows(s, a, Step(s, a, now))
  {
    hide IsExpired, EndRefresh, EndExchange, GetAccessToken, Leave, End, Holds, Upstream, DropTokens, DropRaises;
    match a {
      case Revoke(id, u, forgotten) =>
        DropKeeps(s, u, forgotten);
        EndKeeps(DropTokens(s, u, forgotten), id, if DropRaises(s, u, forgotten) then Failed else Revoked);
      case Ask(id, u, rejected) => GetEffect(if rejected.Some? then ForceExpire(s, u) else s, id, u, now);
      case Acquire(id) =>
        if s.calls[id].upstream in s.tokens { EndKeeps(s, id, Token(s.tokens[s.calls[id].upstream].access)); }
      case Prepared(id, ok) => LeaveKeeps(s, id, s.calls[id].upstream, true, Failed);
      case Replied(id, reply) => RepliedEnds(s, id, reply, now);
      case Redeemed(id, reply) => RedeemedEnds(s, id, reply, now);
      case Cancel(id) => LeaveKeeps(s, id, Upstream(s.calls[id]), Holds(s.calls[id], Upstream(s.calls[id])), Failed);
    }
  }

  /** Within a run, once issued or redeemed a flow stays so. */
  lemma {:induction false} FlowsGrow(states: seq<World>, events: seq<Event>, j: nat, k: nat)
    requires IsRun(states, events) && j <= k <= |events|
    ensures FlowInv(states[k]) && states[j].redeemed <= states[k].redeemed
    ensures forall st | st in states[j].issued ::
      st in states[k].issued && states[k].issued[st] == states[j].issued[st]
    decreases k
  {
    hide FlowInv, Step, Enabled;
    if k == 0 {
      InitialFlow(states[0]);
    } else if j < k {
      FlowsGrow(states, events, j, k - 1);
      StepFlow(states[k - 1], events[k - 1].action, events[k - 1].at);
    } else {
      FlowsGrow(states, events, k - 1, k - 1);
      StepFlow(states[k - 1], events[k - 1].action, events[k - 1].at);
    }
  }

  lemma InitialFlow(s: World)
    requires Initial(s)
    ensures FlowInv(s)
  {
  }

  /** No `state` is redeemed twice, however the callbacks interleave. */
  lemma RedeemedOnce(states: seq<World>, events: seq<Event>, j: nat, k: nat)
    requires IsRun(states, events) && j < k < |events|
    requires Redeems(states[j], events[j].action, events[j].at).Some?
    requires Redeems(states[k], events[k].action, events[k].at).Some?
    ensures events[j].action.state != events[k].action.state
  {
    hide FlowInv, Step, Enabled, Redeems;
    FlowsGrow(states, events, 0, j);
    FlowsGrow(states, events, j + 1, k);
    StepFlow(states[j], events[j].action, events[j].at);
    StepFlow(states[k], events[k].action, events[k].at);
  }

  /** Not its own callback, and not a registration of its upstream. */
  predicate LeavesFlow(a: Action, p: Pending) {
    && (a.Finish? ==> a.state != p.state)
    && (a.Register? || a.Unregister? ==> a.upstream != p.upstream)
  }

  /** A flow is forgotten only by its own callback, its upstream being registered anew or dropped, or its age. */
  lemma StepKeepsPending(s: World, a: Action, now: real, st: string)
    requires FlowInv(s) && Enabled(s, a, now) && st in s.pending && !TooOld(s.pending[st], now)
    requires LeavesFlow(a, s.pending[st]) && s.pending[st].state == st
    ensures st in Step(s, a, now).pending && Step(s, a, now).pending[st] == s.pending[st]
  {
    hide TooOld;
    if a.Finish? {
      hide FinishAuthorization;
      FinishTakes(s, a.id, a.state, a.code, now);
    } else if Moves(a) {
      hide Step, Enabled;
      OthersFlow(s, a, now);
    }
  }

  /** So a started flow can be redeemed, once, at any time within the time to live. */
  lemma {:induction false} StartedStaysPending(states: seq<World>, events: seq<Event>, j: nat, k: nat)
    requires IsRun(states, events) && j < k < |events| && events[j].action.StartFlow?
    requires events[k].at - events[j].at <= 900.0
    requires forall i | j < i < k :: LeavesFlow(events[i].action, events[j].action.flow)
    ensures var p := events[j].action.flow;
      p.state in states[k].pending && states[k].pending[p.state] == p && !TooOld(p, events[k].at)
    decreases k
  {
    hide FlowInv, Step, Enabled, LeavesFlow;
    var p := events[j].action.flow;
    CreatedThen(states, events, j);
    assert events[j].at <= events[k - 1].at <= events[k].at;
    if k == j + 1 {
      StartAdds(states[j], p, events[j].at);
    } else {
      StartedStaysPending(states, events, j, k - 1);
      FlowsGrow(states, events, 0, k - 1);
      assert LeavesFlow(events[k - 1].action, p);
      StepKeepsPending(states[k - 1], events[k - 1].action, events[k - 1].at, p.state);
    }
  }

  lemma CreatedThen(states: seq<World>, events: seq<Event>, j: nat)
    requires IsRun(states, events) && j < |events| && events[j].action.StartFlow?
    ensures events[j].action.flow.createdAt == events[j].at
  {
    assert Enabled(states[j], events[j].action, events[j].at);
  }

  lemma StartAdds(s: World, p: Pending, now: real)
    requires Enabled(s, StartFlow(p), now)
    ensures var r := Step(s, StartFlow(p), now); p.state in r.pending && r.pending[p.state] == p
  {
  }

  /** A flow comes into the map by its start, and stays until its own callback or a registration of its upstream. */
  lemma StepPending(s: World, a: Action, now: real, st: string)
    requires FlowInv(s) && Enabled(s, a, now) && st in Step(s, a, now).pending
    ensures var p := Step(s, a, now).pending[st];
      p.state == st && if a == StartFlow(p) then p.createdAt == now
                       else st in s.pending && s.pending[st] == p && LeavesFlow(a, p)
  {
    hide TooOld;
    if a.Finish? {
      hide FinishAuthorization;
      FinishTakes(s, a.id, a.state, a.code, now);
    } else if Moves(a) {
      hide Step, Enabled;
      OthersFlow(s, a, now);
    }
  }

  /** Step `j` started a flow under this state that step `k` can still redeem. */
  ghost predicate CanRedeem(events: seq<Event>, st: string, j: nat, k: nat)
    requires j < k < |events|
  {
    && events[j].action.StartFlow? && events[j].action.flow.state == st
    && events[k].at - events[j].at <= 900.0
    && forall i | j < i < k :: LeavesFlow(events[i].action, events[j].action.flow)
  }

  /** Every pending flow was started by an earlier step, and left alone since. */
  lemma {:induction false} PendingSince(states: seq<World>, events: seq<Event>, k: nat, st: string) returns (j: nat)
    requires IsRun(states, events) && k <= |events| && st in states[k].pending
    ensures j < k && events[j].action == StartFlow(states[k].pending[st]) && states[k].pending[st].state == st
    ensures events[j].at == states[k].pending[st].createdAt
    ensures forall i | j < i < k :: LeavesFlow(events[i].action, events[j].action.flow)
  {
    hide FlowInv, Enabled, Step, LeavesFlow;
    assert Initial(states[0]);
    FlowsGrow(states, events, 0, k - 1);
    StepPending(states[k - 1], events[k - 1].action, events[k - 1].at, st);
    if events[k - 1].action == StartFlow(states[k].pending[st]) {
      j := k - 1;
    } else {
      j := PendingSince(states, events, k - 1, st);
    }
  }

  /** What the browser is sent to the authorization server with (sections 4.2 and 4.3 of RFC 7636). */
  datatype AuthorizationRequest = AuthorizationRequest(state: string, redirect: string, challenge: string)

  /** What the token endpoint is sent (section 4.5 of RFC 7636). */
  datatype ExchangeForm = ExchangeForm(code: string, redirect: string, verifier: string)

  function RequestOf(p: Pending, hash: string -> string): (q: AuthorizationRequest) {
    AuthorizationRequest(p.state, p.redirect, hash(p.verifier))
  }

  function FormOf(c: Call): (f: ExchangeForm)
    requires c.Redeeming?
  {
    ExchangeForm(c.code, c.flow.redirect, c.flow.verifier)
  }

  /** The check of section 4.6 of RFC 7636, with the redirect check of section 4.1.3 of RFC 6749. */
  predicate ServerAccepts(q: AuthorizationRequest, f: ExchangeForm, hash: string -> string) {
    hash(f.verifier) == q.challenge && f.redirect == q.redirect
  }

  /**
   Whenever a flow begins to be redeemed in a run, one earlier start created it, at most a
   quarter of an hour before, and neither a callback nor a registration of its upstream came in
   between; the code goes to the token endpoint that start resolved, and the verifier and
   redirect sent along are the ones that the server saw at that start.
   */
  lemma RedeemedAsStarted(states: seq<World>, events: seq<Event>, k: nat, hash: string -> string) returns (j: nat)
    requires IsRun(states, events) && k < |events|
    requires Redeems(states[k], events[k].action, events[k].at).Some?
    ensures var c := states[k + 1].calls[events[k].action.id];
      && j < k && CanRedeem(events, events[k].action.state, j, k)
      && c.Redeeming? && c.flow.endpoints.token == events[j].action.flow.endpoints.token
      && c.code == events[k].action.code
      && ServerAccepts(RequestOf(events[j].action.flow, hash), FormOf(c), hash)
  {
    hide FlowInv, Step, Enabled, Redeems, LeavesFlow;
    FlowsGrow(states, events, 0, k);
    StepFlow(states[k], events[k].action, events[k].at);
    RedeemsWhat(states[k], events[k].action, events[k].at);
    j := PendingSince(states, events, k, events[k].action.state);
  }

  lemma RedeemsWhat(s: World, a: Action, now: real)
    requires Redeems(s, a, now).Some?
    ensures a.Finish? && a.state in s.pending && s.pending[a.state] == Redeems(s, a, now).value
    ensures now - s.pending[a.state].createdAt <= 900.0
  {
  }

  /** In any run, a callback redeems its flow if and only if an earlier step started one that can still be redeemed. */
  lemma RedeemsIff(states: seq<World>, events: seq<Event>, k: nat)
    requires IsRun(states, events) && k < |events| && events[k].action.Finish?
    ensures events[k].action.id in states[k + 1].calls
    ensures states[k + 1].calls[events[k].action.id].Redeeming? <==>
      exists j | 0 <= j < k :: CanRedeem(events, events[k].action.state, j, k)
  {
    hide FlowInv, Step, Redeems, CanRedeem, FinishAuthorization, TooOld;
    var s, a, now := states[k], events[k].action, events[k].at;
    FinishTakes(s, a.id, a.state, a.code, now);
    assert states[k + 1] == FinishAuthorization(s, a.id, a.state, a.code, now) by { FinishStep(s, a, now); }
    if exists j | 0 <= j < k :: CanRedeem(events, a.state, j, k) {
      var j :| 0 <= j < k && CanRedeem(events, a.state, j, k);
      StaysRedeemable(states, events, j, k);
    }
    if a.state in s.pending && !TooOld(s.pending[a.state], now) {
      assert Redeems(s, a, now).Some? by { RedeemsPending(s, a, now); }
      var j := RedeemedAsStarted(states, events, k, (v: string) => v);
    }
  }

  lemma FinishStep(s: World, a: Action, now: real)
    requires Enabled(s, a, now) && a.Finish?
    ensures Step(s, a, now) == FinishAuthorization(s, a.id, a.state, a.code, now)
  {
  }

  lemma RedeemsPending(s: World, a: Action, now: real)
    requires a.Finish? && a.state in s.pending && !TooOld(s.pending[a.state], now)
    ensures Redeems(s, a, now).Some?
  {
  }

  lemma StaysRedeemable(states: seq<World>, events: seq<Event>, j: nat, k: nat)
    requires IsRun(states, events) && j < k < |events| && events[k].action.Finish?
    requires CanRedeem(events, events[k].action.state, j, k)
    ensures events[k].action.state in states[k].pending
    ensures !TooOld(states[k].pending[events[k].action.state], events[k].at)
  {
    hide LeavesFlow, Step, Enabled;
    StartedStaysPending(states, events, j, k);
  }
}
