/**
 The OAuth client of src/mcpxy_proxy/auth/oauth.py: refreshing under a lock, and the
 authorization-code flow with PKCE. Every step is the part of a coroutine between two
 awaits that can suspend; any number of calls interleave there. Writing to the secret store
 does not suspend (src/mcpxy_proxy/secrets.py:231-241), so it may fail but not be overtaken.
 */
module OAuthFlows {
  import opened Prelude

  type CallId = nat

  const REFRESH_LEEWAY := 60.0
  const AUTHORIZATION_TTL := 900.0

  datatype TokenSet = TokenSet(access: string, refresh: Option<string>, expiresAt: Option<real>)

  predicate IsExpired(t: TokenSet, now: real) {
    t.expiresAt.Some? && now >= t.expiresAt.value - REFRESH_LEEWAY
  }

  datatype Endpoints = Endpoints(authorization: string, token: string)

  /** An authorization flow in progress. */
  datatype Pending = Pending(
    upstream: string, state: string, verifier: string, redirect: string, endpoints: Endpoints, createdAt: real)

  predicate TooOld(p: Pending, now: real) {
    now - p.createdAt > AUTHORIZATION_TTL
  }

  datatype Outcome =
    | Token(access: string)
    | Revoked
    | NotAuthorized   // OAuthNotAuthorizedError
    | Failed          // any other exception, cancellation included

  /** Where a call stands: what it awaits, or how it ended. */
  datatype Call =
    | Waiting(upstream: string, refresh: string)              // for the lock
    | Preparing(upstream: string, refresh: string)            // for endpoints and client credentials
    | Posting(upstream: string, refresh: string)              // a refresh exchange is in flight
    | Redeeming(flow: Pending, code: string)                  // the code is being exchanged
    | Done(outcome: Outcome)

  /**
   The manager, its secret store, the calls, and history: the flows issued and redeemed, and
   the refresh token that the server granted last.
   */
  datatype World = World(
    configs: set<string>, tokens: map<string, TokenSet>, pending: map<string, Pending>,
    locks: map<string, Option<CallId>>, secrets: map<string, TokenSet>, calls: map<CallId, Call>,
    issued: map<string, Pending>, redeemed: set<string>, latest: map<string, string>)

  /** The token endpoint's answer, and whether the store then did what it was told. */
  datatype Reply = Refused(forgotten: bool) | Broken | Granted(tokens: TokenSet, saved: bool)

  datatype Action =
    | Register(upstream: string)
    | Unregister(upstream: string)
    | Revoke(id: CallId, upstream: string, forgotten: bool)
    | StartFlow(flow: Pending)
    | Finish(id: CallId, state: string, code: string)
    | Redeemed(id: CallId, reply: Reply)
    | Ask(id: CallId, upstream: string, rejected: Option<string>)  // the access token that was answered 401
    | Acquire(id: CallId)
    | Prepared(id: CallId, ok: bool)
    | Replied(id: CallId, reply: Reply)
    | Cancel(id: CallId)

  /** A `state` is drawn at random, and taken never to repeat. */
  predicate Enabled(s: World, a: Action, now: real) {
    match a
    case Register(_) => true
    case Unregister(_) => true
    case StartFlow(p) => p.state !in s.issued && p.createdAt == now
    case Revoke(id, _, _) => id !in s.calls
    case Finish(id, _, _) => id !in s.calls
    case Ask(id, _, _) => id !in s.calls
    case Redeemed(id, _) => id in s.calls && s.calls[id].Redeeming?
    case Acquire(id) => id in s.calls && s.calls[id].Waiting? && Free(s, s.calls[id].upstream)
    case Prepared(id, _) => id in s.calls && s.calls[id].Preparing?
    case Replied(id, _) => id in s.calls && s.calls[id].Posting?
    case Cancel(id) => id in s.calls && !s.calls[id].Done?
  }

  predicate Free(s: World, u: string) {
    u in s.locks && s.locks[u].None?
  }

  function End(s: World, id: CallId, o: Outcome): (r: World) {
    s.(calls := s.calls[id := Done(o)])
  }

  /** A call ends; if it was in the locked part, it lets the lock go. */
  function Leave(s: World, id: CallId, u: string, locked: bool, o: Outcome): (r: World) {
    End(if locked then s.(locks := s.locks[u := None]) else s, id, o)
  }

  function NotOf(pending: map<string, Pending>, u: string): (r: map<string, Pending>) {
    map k | k in pending && pending[k].upstream != u :: pending[k]
  }

  function RegisterUpstream(s: World, u: string): (r: World) {
    s.(configs := s.configs + {u}, pending := NotOf(s.pending, u),
       tokens := if u in s.secrets then s.tokens[u := s.secrets[u]] else s.tokens)
  }

  function UnregisterUpstream(s: World, u: string): (r: World) {
    s.(configs := s.configs - {u}, tokens := s.tokens - {u}, pending := NotOf(s.pending, u))
  }

  /** Forgets the tokens in memory, then in the store, unless that raises. */
  function DropTokens(s: World, u: string, forgotten: bool): (r: World) {
    s.(tokens := s.tokens - {u}, secrets := if forgotten then s.secrets - {u} else s.secrets)
  }

  predicate DropRaises(s: World, u: string, forgotten: bool) {
    u in s.secrets && !forgotten
  }

  /** Puts tokens in memory, then in the store, unless that raises; `granted` is the refresh token they came with. */
  function PersistTokens(s: World, u: string, t: TokenSet, granted: Option<string>, saved: bool): (r: World) {
    s.(tokens := s.tokens[u := t], secrets := if saved then s.secrets[u := t] else s.secrets,
       latest := if granted.Some? then s.latest[u := granted.value] else s.latest)
  }

  function StartAuthorization(s: World, p: Pending, now: real): (r: World) {
    var all := s.pending[p.state := p];
    s.(pending := map k | k in all && !TooOld(all[k], now) :: all[k], issued := s.issued[p.state := p])
  }

  function FinishAuthorization(s: World, id: CallId, state: string, code: string, now: real): (r: World) {
    if state !in s.pending then End(s, id, Failed)
    else
      var p := s.pending[state];
      var s1 := s.(pending := s.pending - {state});
      if TooOld(p, now) then End(s1, id, Failed)
      else s1.(redeemed := s1.redeemed + {state}, calls := s1.calls[id := Redeeming(p, code)])
  }

  function EndExchange(s: World, id: CallId, reply: Reply, now: real): (r: World)
    requires Enabled(s, Redeemed(id, reply), now)
  {
    match reply
    case Granted(t, saved) =>
      var s1 := PersistTokens(s, s.calls[id].flow.upstream, t, t.refresh, saved);
      End(s1, id, if saved then Token(t.access) else Failed)
    case _ => End(s, id, Failed)
  }

  /** After a 401, whatever is cached by now is made to look expired. */
  function ForceExpire(s: World, u: string): (r: World) {
    if u in s.tokens then s.(tokens := s.tokens[u := s.tokens[u].(expiresAt := Some(0.0))]) else s
  }

  function GetAccessToken(s: World, id: CallId, u: string, now: real): (r: World) {
    if u !in s.tokens then End(s, id, NotAuthorized)
    else if !IsExpired(s.tokens[u], now) then End(s, id, Token(s.tokens[u].access))
    else if s.tokens[u].refresh.None? then End(s, id, NotAuthorized)
    else
      s.(locks := if u in s.locks then s.locks else s.locks[u := None],
         calls := s.calls[id := Waiting(u, s.tokens[u].refresh.value)])
  }

  /** The lock is free: look again, and go on to refresh only if the tokens are still expired. */
  function EnterRefresh(s: World, id: CallId, now: real): (r: World)
    requires Enabled(s, Acquire(id), now)
  {
    var c := s.calls[id];
    if c.upstream in s.tokens && !IsExpired(s.tokens[c.upstream], now)
    then End(s, id, Token(s.tokens[c.upstream].access))
    else s.(locks := s.locks[c.upstream := Some(id)], calls := s.calls[id := Preparing(c.upstream, c.refresh)])
  }

  function SendRefresh(s: World, id: CallId, ok: bool, now: real): (r: World)
    requires Enabled(s, Prepared(id, ok), now)
  {
    var c := s.calls[id];
    if ok && c.upstream in s.configs then s.(calls := s.calls[id := Posting(c.upstream, c.refresh)])
    else Leave(s, id, c.upstream, true, Failed)
  }

  /** A server that does not rotate refresh tokens leaves them out: the one that was sent is kept. */
  function KeepRefresh(t: TokenSet, sent: string): (r: TokenSet) {
    if t.refresh.None? then t.(refresh := Some(sent)) else t
  }

  function EndRefresh(s: World, id: CallId, reply: Reply, now: real): (r: World)
    requires Enabled(s, Replied(id, reply), now)
  {
    var c := s.calls[id];
    match reply
    case Refused(forgotten) =>
      Leave(DropTokens(s, c.upstream, forgotten), id, c.upstream, true,
        if DropRaises(s, c.upstream, forgotten) then Failed else NotAuthorized)
    case Broken => Leave(s, id, c.upstream, true, Failed)
    case Granted(t, saved) =>
      Leave(PersistTokens(s, c.upstream, KeepRefresh(t, c.refresh), t.refresh, saved), id, c.upstream, true,
        if saved then Token(t.access) else Failed)
  }

  /** Whether the call holds the lock of `u`. */
  predicate Holds(c: Call, u: string) {
    (c.Preparing? || c.Posting?) && c.upstream == u
  }

  function Upstream(c: Call): (u: string) {
    match c
    case Redeeming(p, _) => p.upstream
    case Done(_) => ""
    case _ => c.upstream
  }

  function Step(s: World, a: Action, now: real): (r: World)
    requires Enabled(s, a, now)
  {
    match a
    case Register(u) => RegisterUpstream(s, u)
    case Unregister(u) => UnregisterUpstream(s, u)
    case Revoke(id, u, forgotten) =>
      End(DropTokens(s, u, forgotten), id, if DropRaises(s, u, forgotten) then Failed else Revoked)
    case StartFlow(p) => StartAuthorization(s, p, now)
    case Finish(id, state, code) => FinishAuthorization(s, id, state, code, now)
    case Redeemed(id, reply) => EndExchange(s, id, reply, now)
    case Ask(id, u, rejected) => GetAccessToken(if rejected.Some? then ForceExpire(s, u) else s, id, u, now)
    case Acquire(id) => EnterRefresh(s, id, now)
    case Prepared(id, ok) => SendRefresh(s, id, ok, now)
    case Replied(id, reply) => EndRefresh(s, id, reply, now)
    case Cancel(id) => Leave(s, id, Upstream(s.calls[id]), Holds(s.calls[id], Upstream(s.calls[id])), Failed)
  }

  // ---- The manager as an object ----

  class OAuthManager {
    var configs: set<string>
    var tokens: map<string, TokenSet>
    var pending: map<string, Pending>
    var refreshLocks: map<string, Option<CallId>>
    var secrets: map<string, TokenSet>
    var calls: map<CallId, Call>
    ghost var issued: map<string, Pending>
    ghost var redeemed: set<string>
    ghost var latest: map<string, string>

    ghost function State(): World
      reads this
    {
      World(configs, tokens, pending, refreshLocks, secrets, calls, issued, redeemed, latest)
    }

    constructor (secrets: map<string, TokenSet>)
      ensures Initial(State()) && State().secrets == secrets
    {
      this.secrets := secrets;
      configs, tokens, pending, refreshLocks, calls, issued, redeemed := {}, map[], map[], map[], map[], map[], {};
      latest := map u | u in secrets && secrets[u].refresh.Some? :: secrets[u].refresh.value;
    }

    method RegisterUpstream(u: string)
      modifies this
      ensures State() == Step(old(State()), Register(u), 0.0)
    {
      configs := configs + {u};
      pending := map k | k in pending && pending[k].upstream != u :: pending[k];
      if u in secrets {
        tokens := tokens[u := secrets[u]];
      }
    }

    method UnregisterUpstream(u: string)
      modifies this
      ensures State() == Step(old(State()), Unregister(u), 0.0)
    {
      configs := configs - {u};
      tokens := tokens - {u};
      pending := map k | k in pending && pending[k].upstream != u :: pending[k];
    }

    /** The end of `start_authorization`: endpoints and credentials are there. */
    method StartAuthorization(p: Pending, now: real)
      requires Enabled(State(), StartFlow(p), now)
      modifies this
      ensures State() == Step(old(State()), StartFlow(p), now)
    {
      pending := pending[p.state := p];
      issued := issued[p.state := p];
      pending := map k | k in pending && !TooOld(pending[k], now) :: pending[k];
    }

    method FinishAuthorization(id: CallId, state: string, code: string, now: real)
      requires Enabled(State(), Finish(id, state, code), now)
      modifies this
      ensures State() == Step(old(State()), Finish(id, state, code), now)
    {
      if state !in pending {
        calls := calls[id := Done(Failed)];
        return;
      }
      var p := pending[state];
      pending := pending - {state};
      if TooOld(p, now) {
        calls := calls[id := Done(Failed)];
        return;
      }
      redeemed := redeemed + {state};
      calls := calls[id := Redeeming(p, code)];
    }

    /** The token endpoint has answered `finish_authorization`. */
    method EndExchange(id: CallId, reply: Reply, now: real)
      requires Enabled(State(), Redeemed(id, reply), now)
      modifies this
      ensures State() == Step(old(State()), Redeemed(id, reply), now)
    {
      if !reply.Granted? {
        calls := calls[id := Done(Failed)];
        return;
      }
      var saved := PersistTokens(calls[id].flow.upstream, reply.tokens, reply.tokens.refresh, reply.saved);
      calls := calls[id := Done(if saved then Token(reply.tokens.access) else Failed)];
    }

    method PersistTokens(u: string, t: TokenSet, ghost granted: Option<string>, stores: bool) returns (saved: bool)
      modifies this`tokens, this`secrets, this`latest
      ensures saved == stores && tokens == old(tokens)[u := t]
      ensures secrets == if stores then old(secrets)[u := t] else old(secrets)
      ensures latest == if granted.Some? then old(latest)[u := granted.value] else old(latest)
    {
      tokens := tokens[u := t];
      if granted.Some? {
        latest := latest[u := granted.value];
      }
      if stores {
        secrets := secrets[u := t];
      }
      return stores;
    }

    /** `deletes` is whether the store does as it is told; the answer, whether nothing was raised. */
    method RevokeTokens(u: string, deletes: bool) returns (ok: bool)
      modifies this`tokens, this`secrets
      ensures tokens == old(tokens) - {u} && secrets == if deletes then old(secrets) - {u} else old(secrets)
      ensures ok <==> u !in old(secrets) || deletes
    {
      tokens := tokens - {u};
      assert u !in secrets ==> secrets - {u} == secrets;
      if u in secrets {
        if !deletes {
          return false;
        }
        secrets := secrets - {u};
      }
      return true;
    }

    /** `revoke_tokens` as the operator calls it. */
    method RevokeByOperator(id: CallId, u: string, deletes: bool, now: real)
      requires id !in calls
      modifies this
      ensures State() == Step(old(State()), Revoke(id, u, deletes), now)
    {
      var ok := RevokeTokens(u, deletes);
      calls := calls[id := Done(if ok then Revoked else Failed)];
    }

    method GetAccessToken(id: CallId, u: string, now: real)
      requires id !in calls
      modifies this
      ensures State() == Step(old(State()), Ask(id, u, None), now)
    {
      if u !in tokens {
        calls := calls[id := Done(NotAuthorized)];
        return;
      }
      var token := tokens[u];
      if !IsExpired(token, now) {
        calls := calls[id := Done(Token(token.access))];
        return;
      }
      if token.refresh.None? {
        calls := calls[id := Done(NotAuthorized)];
        return;
      }
      if u !in refreshLocks {
        refreshLocks := refreshLocks[u := None];
      }
      calls := calls[id := Waiting(u, token.refresh.value)];
    }

    /** The retry of `async_auth_flow` after a 401; it does not look at the token that was rejected. */
    method RetryAfterReject(id: CallId, u: string, ghost rejected: string, now: real)
      requires id !in calls
      modifies this
      ensures State() == Step(old(State()), Ask(id, u, Some(rejected)), now)
    {
      if u in tokens {
        tokens := tokens[u := tokens[u].(expiresAt := Some(0.0))];
      }
      GetAccessToken(id, u, now);
    }

    method EnterRefresh(id: CallId, now: real)
      requires Enabled(State(), Acquire(id), now)
      modifies this
      ensures State() == Step(old(State()), Acquire(id), now)
    {
      var c := calls[id];
      if c.upstream in tokens {
        var cached := tokens[c.upstream];
        if !IsExpired(cached, now) {
          calls := calls[id := Done(Token(cached.access))];
          return;
        }
      }
      refreshLocks := refreshLocks[c.upstream := Some(id)];
      calls := calls[id := Preparing(c.upstream, c.refresh)];
    }

    /** Endpoints and credentials are there, or could not be had; the config may be gone meanwhile. */
    method SendRefresh(id: CallId, ok: bool, now: real)
      requires Enabled(State(), Prepared(id, ok), now)
      modifies this
      ensures State() == Step(old(State()), Prepared(id, ok), now)
    {
      var c := calls[id];
      if !ok || c.upstream !in configs {
        refreshLocks := refreshLocks[c.upstream := None];
        calls := calls[id := Done(Failed)];
        return;
      }
      calls := calls[id := Posting(c.upstream, c.refresh)];
    }

    method EndRefresh(id: CallId, reply: Reply, now: real)
      requires Enabled(State(), Replied(id, reply), now)
      modifies this
      ensures State() == Step(old(State()), Replied(id, reply), now)
    {
      var c := calls[id];
      var outcome := Failed;
      match reply {
        case Refused(forgotten) =>
          var ok := RevokeTokens(c.upstream, forgotten);
          outcome := if ok then NotAuthorized else Failed;
        case Broken =>
        case Granted(t, saves) =>
          var token := t;
          if token.refresh.None? {
            token := token.(refresh := Some(c.refresh));
          }
          var saved := PersistTokens(c.upstream, token, t.refresh, saves);
          outcome := if saved then Token(token.access) else Failed;
      }
      refreshLocks := refreshLocks[c.upstream := None];
      calls := calls[id := Done(outcome)];
    }

    method CancelCall(id: CallId, now: real)
      requires Enabled(State(), Cancel(id), now)
      modifies this
      ensures State() == Step(old(State()), Cancel(id), now)
    {
      var c := calls[id];
      if c.Preparing? || c.Posting? {
        refreshLocks := refreshLocks[c.upstream := None];
      }
      calls := calls[id := Done(Failed)];
    }
  }

  // ---- Runs ----

  datatype Event = Event(at: real, action: Action)

  /** A process that has just started: what is stored is what was granted last. */
  predicate Initial(s: World) {
    && s.configs == {} && s.tokens == map[] && s.pending == map[] && s.locks == map[] && s.calls == map[]
    && s.issued == map[] && s.redeemed == {}
    && s.latest == map u | u in s.secrets && s.secrets[u].refresh.Some? :: s.secrets[u].refresh.value
  }

  /** Any interleaving, on a clock that counts up from its epoch and does not run backwards. */
  ghost predicate IsChain(states: seq<World>, events: seq<Event>) {
    && |states| == |events| + 1
    && (forall k | 0 <= k < |events| ::
          Enabled(states[k], events[k].action, events[k].at)
          && states[k + 1] == Step(states[k], events[k].action, events[k].at))
    && (forall j, k | 0 <= j <= k < |events| :: 0.0 <= events[j].at <= events[k].at)
  }

  ghost predicate IsRun(states: seq<World>, events: seq<Event>) {
    IsChain(states, events) && Initial(states[0])
  }
}
