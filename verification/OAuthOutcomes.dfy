/**
 What the end of a call tells, and what a registration is for: src/mcpxy_proxy/auth/oauth.py,
 lines 266 to 308, 470 to 528 and 549 to 604.
 */
module OAuthOutcomes {
  import opened Prelude
  import opened OAuthFlows
  import opened OAuthRefreshing

  // ---- Dropping and keeping tokens ----

  /** The tokens of other upstreams stay, in memory and in the store. */
  ghost predicate OthersStay(s: World, r: World, u: string) {
    && (forall v | v != u :: v in r.tokens <==> v in s.tokens)
    && (forall v | v != u && v in s.tokens :: r.tokens[v] == s.tokens[v])
    && (forall v | v != u :: v in r.secrets <==> v in s.secrets)
    && (forall v | v != u && v in s.secrets :: r.secrets[v] == s.secrets[v])
  }

  /** No tokens of `u` are cached any more; the call ended well if and only if none are stored either. */
  ghost predicate Forgets(s: World, r: World, u: string, id: CallId, good: Outcome) {
    && OthersStay(s, r, u) && u !in r.tokens && id in r.calls
    && (r.calls[id] == Done(good) || r.calls[id] == Done(Failed))
    && (r.calls[id] == Done(good) <==> u !in r.secrets)
    && (u in r.secrets ==> r.secrets == s.secrets)
  }

  lemma DropForgets(s: World, u: string, forgotten: bool)
    ensures var r := DropTokens(s, u, forgotten);
      && OthersStay(s, r, u) && u !in r.tokens && (u in r.secrets ==> r.secrets == s.secrets)
      && (DropRaises(s, u, forgotten) <==> u in r.secrets)
  {
  }

  /** Revoking forgets the tokens, and says so exactly when the store has forgotten them too. */
  lemma RevokeTells(s: World, id: CallId, u: string, forgotten: bool, now: real)
    requires Enabled(s, Revoke(id, u, forgotten), now)
    ensures Forgets(s, Step(s, Revoke(id, u, forgotten), now), u, id, Revoked)
  {
    DropForgets(s, u, forgotten);
    hide DropTokens, DropRaises, OthersStay;
    DropKeeps(s, u, forgotten);
    SameTokensForget(DropTokens(s, u, forgotten), Step(s, Revoke(id, u, forgotten), now), s, u);
  }

  lemma SameTokensForget(s1: World, r: World, s: World, u: string)
    requires OthersStay(s, s1, u) && r.tokens == s1.tokens && r.secrets == s1.secrets
    ensures OthersStay(s, r, u)
  {
  }

  /** The tokens that were granted are cached; the call got them if and only if they are stored as well. */
  ghost predicate Keeps(s: World, r: World, u: string, id: CallId, t: TokenSet) {
    && OthersStay(s, r, u) && id in r.calls
    && u in r.tokens && r.tokens[u].access == t.access && r.tokens[u].expiresAt == t.expiresAt
    && (t.refresh.Some? ==> r.tokens[u].refresh == t.refresh)
    && (r.calls[id] == Done(Token(t.access)) || r.calls[id] == Done(Failed))
    && (r.calls[id] == Done(Failed) ==> r.secrets == s.secrets)
    && (r.calls[id] != Done(Failed) ==> u in r.secrets && r.secrets[u] == r.tokens[u])
  }

  /**
   How a refresh ends: after a refusal the tokens are forgotten, after a failure nothing has
   changed, and a grant is kept. A refresh token that the server leaves out is the one sent.
   */
  lemma RefreshTells(s: World, id: CallId, reply: Reply, now: real)
    requires Enabled(s, Replied(id, reply), now)
    ensures var r := Step(s, Replied(id, reply), now); var u := s.calls[id].upstream;
      && (reply.Refused? ==> Forgets(s, r, u, id, NotAuthorized))
      && (reply.Broken? ==> r.tokens == s.tokens && r.secrets == s.secrets && r.calls[id] == Done(Failed))
      && (reply.Granted? ==>
            && Keeps(s, r, u, id, reply.tokens)
            && (reply.saved <==> r.calls[id] == Done(Token(reply.tokens.access)))
            && (reply.tokens.refresh.None? ==> r.tokens[u].refresh == Some(s.calls[id].refresh)))
  {
    var u := s.calls[id].upstream;
    var r := Step(s, Replied(id, reply), now);
    match reply {
      case Refused(forgotten) =>
        DropForgets(s, u, forgotten);
        hide DropTokens, DropRaises, OthersStay;
        DropKeeps(s, u, forgotten);
        SameTokensForget(DropTokens(s, u, forgotten), r, s, u);
      case Broken =>
      case Granted(t, saved) =>
        hide PersistTokens, OthersStay;
        PersistKeeps(s, u, KeepRefresh(t, s.calls[id].refresh), t.refresh, saved);
        PersistMeans(s, u, KeepRefresh(t, s.calls[id].refresh), t.refresh, saved);
        SameTokensForget(PersistTokens(s, u, KeepRefresh(t, s.calls[id].refresh), t.refresh, saved), r, s, u);
    }
  }

  lemma PersistMeans(s: World, u: string, t: TokenSet, granted: Option<string>, saved: bool)
    ensures var r := PersistTokens(s, u, t, granted, saved);
      && OthersStay(s, r, u) && u in r.tokens && r.tokens[u] == t
      && if saved then u in r.secrets && r.secrets[u] == t else r.secrets == s.secrets
  {
  }

  /** How the exchange of a code ends. */
  lemma ExchangeTells(s: World, id: CallId, reply: Reply, now: real)
    requires Enabled(s, Redeemed(id, reply), now)
    ensures var r := Step(s, Redeemed(id, reply), now); var u := s.calls[id].flow.upstream;
      && (!reply.Granted? ==> r.tokens == s.tokens && r.secrets == s.secrets && r.calls[id] == Done(Failed))
      && (reply.Granted? ==>
            && Keeps(s, r, u, id, reply.tokens)
            && (reply.saved <==> r.calls[id] == Done(Token(reply.tokens.access)))
            && r.tokens[u].refresh == reply.tokens.refresh)
  {
    var u := s.calls[id].flow.upstream;
    if reply.Granted? {
      hide PersistTokens, OthersStay;
      PersistKeeps(s, u, reply.tokens, reply.tokens.refresh, reply.saved);
      PersistMeans(s, u, reply.tokens, reply.tokens.refresh, reply.saved);
      SameTokensForget(PersistTokens(s, u, reply.tokens, reply.tokens.refresh, reply.saved),
        Step(s, Redeemed(id, reply), now), s, u);
    }
  }

  // ---- Registering ----

  /**
   Dropping an upstream and registering it again: what is cached then is what is stored, or what
   was cached was dropped; its pending flows are gone; and no other upstream notices.
   */
  lemma RegisteredAnew(s: World, u: string, now: real)
    ensures var r := Step(Step(s, Unregister(u), now), Register(u), now);
      && r.configs == s.configs + {u} && OthersStay(s, r, u) && r.secrets == s.secrets
      && (u in r.tokens <==> u in s.secrets) && (u in s.secrets ==> r.tokens[u] == s.secrets[u])
      && (forall st :: st in r.pending <==> st in s.pending && s.pending[st].upstream != u)
      && (forall st | st in r.pending :: r.pending[st] == s.pending[st])
      && r.calls == s.calls && r.locks == s.locks
  {
    var s1 := Step(s, Unregister(u), now);
    assert s1.configs == s.configs - {u} && s1.secrets == s.secrets;
    assert OthersStay(s, s1, u) && u !in s1.tokens;
  }

  /** Step `j` registered the upstream, and no step since then dropped it. */
  ghost predicate RegisteredBy(events: seq<Event>, u: string, j: nat, k: nat)
    requires j < k <= |events|
  {
    events[j].action == Register(u) && forall i | j < i < k :: events[i].action != Unregister(u)
  }

  lemma StepConfigs(s: World, a: Action, now: real)
    requires Enabled(s, a, now)
    ensures Step(s, a, now).configs ==
      if a.Register? then s.configs + {a.upstream} else if a.Unregister? then s.configs - {a.upstream} else s.configs
  {
    hide IsExpired, TooOld, EndRefresh, EndExchange, GetAccessToken, FinishAuthorization, Leave, End, DropTokens, DropRaises,
      ForceExpire, Holds, Upstream;
    match a {
      case Register(_) =>
      case Unregister(_) =>
      case StartFlow(_) =>
      case Revoke(id, u, forgotten) =>
        DropKeeps(s, u, forgotten);
        EndKeeps(DropTokens(s, u, forgotten), id, if DropRaises(s, u, forgotten) then Failed else Revoked);
      case Finish(id, state, code) => FinishEnds(s, id, state, code, now);
      case Ask(id, u, rejected) =>
        ForceExpireKeeps(s, u);
        GetEffect(if rejected.Some? then ForceExpire(s, u) else s, id, u, now);
      case Acquire(id) =>
        if s.calls[id].upstream in s.tokens { EndKeeps(s, id, Token(s.tokens[s.calls[id].upstream].access)); }
      case Prepared(id, ok) => LeaveKeeps(s, id, s.calls[id].upstream, true, Failed);
      case Replied(id, reply) => RepliedEnds(s, id, reply, now);
      case Redeemed(id, reply) => RedeemedEnds(s, id, reply, now);
      case Cancel(id) => LeaveKeeps(s, id, Upstream(s.calls[id]), Holds(s.calls[id], Upstream(s.calls[id])), Failed);
    }
  }

  lemma {:induction false} ConfiguredIff(states: seq<World>, events: seq<Event>, u: string, k: nat)
    requires IsRun(states, events) && k <= |events|
    ensures u in states[k].configs <==> exists j | 0 <= j < k :: RegisteredBy(events, u, j, k)
  {
    hide Step, Enabled;
    if k > 0 {
      ConfiguredIff(states, events, u, k - 1);
      StepConfigs(states[k - 1], events[k - 1].action, events[k - 1].at);
      if u in states[k].configs {
        if events[k - 1].action == Register(u) {
          assert RegisteredBy(events, u, k - 1, k);
        } else {
          var j :| 0 <= j < k - 1 && RegisteredBy(events, u, j, k - 1);
          assert RegisteredBy(events, u, j, k);
        }
      }
      if exists j | 0 <= j < k :: RegisteredBy(events, u, j, k) {
        var j :| 0 <= j < k && RegisteredBy(events, u, j, k);
        if j < k - 1 { assert RegisteredBy(events, u, j, k - 1); }
      }
    }
  }

  /**
   In a run from the start of a process, a caller in the locked part goes on to exchange its
   refresh token if and only if it has endpoints and credentials, and its upstream is still
   registered; otherwise it fails, and gives the lock back.
   */
  lemma ExchangesIff(states: seq<World>, events: seq<Event>, k: nat)
    requires IsRun(states, events) && k < |events| && events[k].action.Prepared?
    ensures var id := events[k].action.id; var c := states[k].calls[id]; var r := states[k + 1];
      if events[k].action.ok && exists j | 0 <= j < k :: RegisteredBy(events, c.upstream, j, k)
      then r.calls[id] == Posting(c.upstream, c.refresh)
      else r.calls[id] == Done(Failed) && r.locks == states[k].locks[c.upstream := None]
  {
    var s, a := states[k], events[k].action;
    assert Enabled(s, a, events[k].at) && states[k + 1] == Step(s, a, events[k].at);
    ConfiguredIff(states, events, s.calls[a.id].upstream, k);
    hide RegisteredBy;
    PreparedMeans(s, a.id, a.ok, events[k].at);
    hide Step, Enabled;
  }

  lemma PreparedMeans(s: World, id: CallId, ok: bool, now: real)
    requires Enabled(s, Prepared(id, ok), now)
    ensures var c := s.calls[id]; var r := Step(s, Prepared(id, ok), now);
      if ok && c.upstream in s.configs then r.calls[id] == Posting(c.upstream, c.refresh)
      else r.calls[id] == Done(Failed) && r.locks == s.locks[c.upstream := None]
  {
  }
}
