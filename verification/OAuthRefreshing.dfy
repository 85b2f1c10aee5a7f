/**
 What the refresh lock keeps over any run: one exchange at a time, and one exchange for many
 callers. See src/mcpxy_proxy/auth/oauth.py, lines 530 to 604.
 */
module OAuthRefreshing {
  import opened Prelude
  import opened OAuthFlows

  // ---- What a caller is handed ----

  /** The access token is good for more than a minute from now. */
  ghost predicate Lasts(kept: map<string, TokenSet>, u: string, now: real) {
    u in kept && (kept[u].expiresAt.Some? ==> kept[u].expiresAt.value - now > 60.0)
  }

  /** What a call was handed is the cached access token, and there is one that lasts. */
  ghost predicate HandedCached(r: World, id: CallId, u: string, now: real) {
    Lasts(r.tokens, u, now) && id in r.calls && r.calls[id] == Done(Token(r.tokens[u].access))
  }

  predicate HandedToken(r: World, id: CallId) {
    id in r.calls && r.calls[id].Done? && r.calls[id].outcome.Token?
  }

  /**
   A call that asks is handed a token at once exactly when the cached one lasts, and never after
   a 401; it is told to authorize exactly when there is no token, or no way to refresh it.
   */
  lemma AskHandsOut(s: World, id: CallId, u: string, rejected: Option<string>, now: real)
    requires Enabled(s, Ask(id, u, rejected), now) && now >= 0.0
    ensures var r := Step(s, Ask(id, u, rejected), now);
      && (HandedToken(r, id) ==> HandedCached(r, id, u, now))
      && (HandedToken(r, id) <==> rejected.None? && Lasts(s.tokens, u, now))
      && (r.calls[id] == Done(NotAuthorized) <==>
            !HandedToken(r, id) && (u in s.tokens ==> s.tokens[u].refresh.None?))
      && (r.calls[id].Waiting? <==> !r.calls[id].Done?)
      && (r.calls[id].Waiting? ==> r.calls[id].upstream == u && Some(r.calls[id].refresh) == s.tokens[u].refresh)
  {
    var s1 := if rejected.Some? then ForceExpire(s, u) else s;
    assert rejected.Some? ==> !Lasts(s1.tokens, u, now);
    hide Lasts, GetAccessToken;
    GetHandsOut(s1, id, u, now);
  }

  lemma LastsIff(kept: map<string, TokenSet>, u: string, now: real)
    ensures Lasts(kept, u, now) <==> u in kept && !IsExpired(kept[u], now)
  {
  }

  lemma GetHandsOut(s: World, id: CallId, u: string, now: real)
    ensures var r := GetAccessToken(s, id, u, now);
      && id in r.calls && r.tokens == s.tokens
      && (HandedToken(r, id) ==> HandedCached(r, id, u, now))
      && (HandedToken(r, id) <==> Lasts(s.tokens, u, now))
      && (r.calls[id] == Done(NotAuthorized) <==>
            !HandedToken(r, id) && (u in s.tokens ==> s.tokens[u].refresh.None?))
      && (r.calls[id].Waiting? <==> !r.calls[id].Done?)
      && (r.calls[id].Waiting? ==> r.calls[id].upstream == u && Some(r.calls[id].refresh) == s.tokens[u].refresh)
  {
    hide IsExpired, Lasts, End;
    LastsIff(s.tokens, u, now);
    EndKeeps(s, id, NotAuthorized);
    if u in s.tokens { EndKeeps(s, id, Token(s.tokens[u].access)); }
  }

  /** After a 401 the cached tokens are kept, but count as expired since the epoch. */
  lemma RetryKeepsTokens(s: World, id: CallId, u: string, rejected: string, now: real)
    requires Enabled(s, Ask(id, u, Some(rejected)), now)
    ensures var r := Step(s, Ask(id, u, Some(rejected)), now);
      && r.tokens.Keys == s.tokens.Keys && r.secrets == s.secrets
      && forall v | v in s.tokens ::
           && r.tokens[v].access == s.tokens[v].access && r.tokens[v].refresh == s.tokens[v].refresh
           && r.tokens[v].expiresAt == if v == u then Some(0.0) else s.tokens[v].expiresAt
  {
    hide GetAccessToken, Step, ForceExpire;
    ForceExpireMeans(s, u);
    GetEffect(ForceExpire(s, u), id, u, now);
    assert Step(s, Ask(id, u, Some(rejected)), now) == GetAccessToken(ForceExpire(s, u), id, u, now) by { RetryStep(s, id, u, rejected, now); }
  }

  lemma RetryStep(s: World, id: CallId, u: string, rejected: string, now: real)
    requires Enabled(s, Ask(id, u, Some(rejected)), now)
    ensures Step(s, Ask(id, u, Some(rejected)), now) == GetAccessToken(ForceExpire(s, u), id, u, now)
  {
    hide GetAccessToken, ForceExpire;
  }

  lemma ForceExpireMeans(s: World, u: string)
    ensures var r := ForceExpire(s, u);
      && r.tokens.Keys == s.tokens.Keys && r.secrets == s.secrets && r.calls == s.calls
      && forall v | v in s.tokens ::
           && r.tokens[v].access == s.tokens[v].access && r.tokens[v].refresh == s.tokens[v].refresh
           && r.tokens[v].expiresAt == if v == u then Some(0.0) else s.tokens[v].expiresAt
  {
    ForceExpireKeeps(s, u);
    if u in s.tokens {
      assert ForceExpire(s, u).tokens == s.tokens[u := s.tokens[u].(expiresAt := Some(0.0))];
      hide ForceExpire;
    }
  }

  /** A call that waited is handed a token without an exchange exactly when the cached one lasts by then. */
  lemma AcquireHandsOut(s: World, id: CallId, now: real)
    requires Enabled(s, Acquire(id), now)
    ensures var r := Step(s, Acquire(id), now); var u := s.calls[id].upstream;
      && (HandedToken(r, id) ==> HandedCached(r, id, u, now))
      && (HandedToken(r, id) <==> Lasts(s.tokens, u, now))
      && (!HandedToken(r, id) ==> r.calls[id] == Preparing(u, s.calls[id].refresh) && r.locks[u] == Some(id))
  {
    hide IsExpired, Lasts;
    LastsIff(s.tokens, s.calls[id].upstream, now);
  }

  // ---- One refresh at a time ----

  type Calls = map<CallId, Call>
  type Locks = map<string, Option<CallId>>

  predicate HoldsAt(calls: Calls, id: CallId, u: string) {
    id in calls && Holds(calls[id], u)
  }

  /** The lock of an upstream names the one call that is in the locked part for it. */
  ghost predicate LockOk(calls: Calls, locks: Locks) {
    && (forall id: CallId, u: string | HoldsAt(calls, id, u) :: u in locks && locks[u] == Some(id))
    && (forall u | u in locks && locks[u].Some? :: HoldsAt(calls, locks[u].value, u))
    && (forall id | id in calls && calls[id].Waiting? :: calls[id].upstream in locks)
  }

  ghost predicate LockInv(s: World) {
    LockOk(s.calls, s.locks)
  }

  /** A call goes on without taking or giving back a lock. */
  lemma Stays(calls: Calls, locks: Locks, id: CallId, c: Call)
    requires LockOk(calls, locks) && (c.Waiting? ==> c.upstream in locks)
    requires forall u :: Holds(c, u) <==> HoldsAt(calls, id, u)
    ensures LockOk(calls[id := c], locks)
  {
    hide Holds;
    var after := calls[id := c];
    forall x: CallId, u: string ensures HoldsAt(after, x, u) <==> HoldsAt(calls, x, u) {
      if x == id { assert Holds(c, u) <==> HoldsAt(calls, id, u); }
    }
    hide HoldsAt;
    assert LockOk(after, locks);
  }

  lemma Grabs(calls: Calls, locks: Locks, id: CallId, c: Call, u: string)
    requires LockOk(calls, locks) && u in locks && locks[u].None? && !c.Waiting?
    requires forall v :: !HoldsAt(calls, id, v) && (Holds(c, v) <==> v == u)
    ensures LockOk(calls[id := c], locks[u := Some(id)])
  {
    hide Holds;
    var after := calls[id := c];
    forall x: CallId, v: string ensures HoldsAt(after, x, v) <==> HoldsAt(calls, x, v) || (x == id && v == u) {
      if x == id { assert !HoldsAt(calls, id, v) && (Holds(c, v) <==> v == u); }
    }
    hide HoldsAt;
    assert LockOk(after, locks[u := Some(id)]);
  }

  lemma Drops(calls: Calls, locks: Locks, id: CallId, c: Call, u: string)
    requires LockOk(calls, locks) && HoldsAt(calls, id, u) && c.Done?
    requires forall v | v != u :: !HoldsAt(calls, id, v)
    ensures LockOk(calls[id := c], locks[u := None])
  {
    var after := calls[id := c];
    forall x: CallId, v: string ensures HoldsAt(after, x, v) <==> HoldsAt(calls, x, v) && x != id {
    }
    hide HoldsAt;
    assert LockOk(after, locks[u := None]);
  }

  lemma FreshLock(calls: Calls, locks: Locks, u: string)
    requires LockOk(calls, locks) && u !in locks
    ensures LockOk(calls, locks[u := None])
  {
    hide Holds;
  }

  predicate Moves(a: Action) {
    !a.Register? && !a.Unregister? && !a.StartFlow?
  }

  /** The upstream whose lock a moving action may touch. */
  function Lock(s: World, a: Action): (u: string)
    requires Moves(a)
  {
    if a.Revoke? || a.Ask? then a.upstream else if a.id in s.calls then Upstream(s.calls[a.id]) else ""
  }

  /** What a step does to the calls and the locks: one call moves, and at most one lock with it. */
  ghost predicate Effect(s: World, a: Action, r: World)
    requires Moves(a)
  {
    var u := Lock(s, a);
    && a.id in r.calls && r.calls == s.calls[a.id := r.calls[a.id]]
    && (r.calls[a.id].Waiting? ==> u in r.locks && r.calls[a.id].upstream == u)
    && (forall v :: Holds(r.calls[a.id], v) || HoldsAt(s.calls, a.id, v) ==> v == u)
    && if Holds(r.calls[a.id], u) == HoldsAt(s.calls, a.id, u)
       then r.locks == s.locks || (u !in s.locks && r.locks == s.locks[u := None])
       else if Holds(r.calls[a.id], u) then Free(s, u) && r.locks == s.locks[u := Some(a.id)]
       else r.calls[a.id].Done? && r.locks == s.locks[u := None]
  }

  lemma RevokeEffect(s: World, a: Action, now: real)
    requires Enabled(s, a, now) && a.Revoke?
    ensures Effect(s, a, Step(s, a, now))
  {
    hide DropTokens, DropRaises;
    DropKeeps(s, a.upstream, a.forgotten);
    var r := Step(s, a, now);
    assert r.calls[a.id].Done? && r.locks == s.locks;
  }

  /** Dropping and storing tokens leaves calls and locks alone. */
  lemma DropKeeps(s: World, u: string, forgotten: bool)
    ensures var r := DropTokens(s, u, forgotten); r == s.(tokens := r.tokens, secrets := r.secrets)
  {
  }

  lemma PersistKeeps(s: World, u: string, t: TokenSet, granted: Option<string>, saved: bool)
    ensures var r := PersistTokens(s, u, t, granted, saved);
      r == s.(tokens := r.tokens, secrets := r.secrets, latest := r.latest)
  {
  }

  lemma EndKeeps(s: World, id: CallId, o: Outcome)
    ensures var r := End(s, id, o);
      && id in r.calls && r.calls[id] == Done(o) && r.calls == s.calls[id := r.calls[id]] && r == s.(calls := r.calls)
  {
  }

  lemma FinishEnds(s: World, id: CallId, state: string, code: string, now: real)
    ensures var r := FinishAuthorization(s, id, state, code, now);
      && id in r.calls && (r.calls[id].Done? || r.calls[id].Redeeming?) && r.calls == s.calls[id := r.calls[id]]
      && r == s.(calls := r.calls, pending := r.pending, redeemed := r.redeemed)
  {
    hide TooOld, End;
    EndKeeps(s, id, Failed);
    EndKeeps(s.(pending := s.pending - {state}), id, Failed);
  }

  lemma FinishEffect(s: World, a: Action, now: real)
    requires Enabled(s, a, now) && a.Finish?
    ensures Effect(s, a, Step(s, a, now))
  {
    hide FinishAuthorization;
    FinishEnds(s, a.id, a.state, a.code, now);
  }

  lemma AskEffect(s: World, a: Action, now: real)
    requires Enabled(s, a, now) && a.Ask?
    ensures Effect(s, a, Step(s, a, now))
  {
    hide IsExpired, ForceExpire;
    var s1 := if a.rejected.Some? then ForceExpire(s, a.upstream) else s;
    assert s1.calls == s.calls && s1.locks == s.locks by { ForceExpireKeeps(s, a.upstream); }
    GetEffect(s1, a.id, a.upstream, now);
  }

  lemma ForceExpireKeeps(s: World, u: string)
    ensures ForceExpire(s, u) == s.(tokens := ForceExpire(s, u).tokens)
  {
  }

  lemma GetEffect(s: World, id: CallId, u: string, now: real)
    requires id !in s.calls
    ensures var r := GetAccessToken(s, id, u, now);
      && id in r.calls && r.calls == s.calls[id := r.calls[id]]
      && (r.calls[id].Done? || (r.calls[id].Waiting? && r.calls[id].upstream == u && u in r.locks))
      && (r.locks == s.locks || (u !in s.locks && r.locks == s.locks[u := None]))
      && r == s.(calls := r.calls, locks := r.locks)
  {
    hide IsExpired, End;
    EndKeeps(s, id, NotAuthorized);
    if u in s.tokens { EndKeeps(s, id, Token(s.tokens[u].access)); }
  }

  lemma AcquireEffect(s: World, a: Action, now: real)
    requires Enabled(s, a, now) && a.Acquire?
    ensures Effect(s, a, Step(s, a, now))
  {
    hide IsExpired;
  }

  /** A refresh that is answered ends its call and gives the lock back, whatever the answer. */
  lemma RepliedEnds(s: World, id: CallId, reply: Reply, now: real)
    requires Enabled(s, Replied(id, reply), now)
    ensures var r := EndRefresh(s, id, reply, now); var u := s.calls[id].upstream;
      && id in r.calls && r.calls[id].Done? && r.calls == s.calls[id := r.calls[id]]
      && r.locks == s.locks[u := None]
      && r.configs == s.configs && r.pending == s.pending && r.issued == s.issued && r.redeemed == s.redeemed
  {
    hide DropTokens, DropRaises, PersistTokens, KeepRefresh;
    var c := s.calls[id];
    match reply
    case Refused(forgotten) => DropKeeps(s, c.upstream, forgotten);
    case Broken =>
    case Granted(t, saved) => PersistKeeps(s, c.upstream, KeepRefresh(t, c.refresh), t.refresh, saved);
  }

  lemma RepliedEffect(s: World, a: Action, now: real)
    requires Enabled(s, a, now) && a.Replied?
    ensures Effect(s, a, Step(s, a, now))
  {
    hide EndRefresh;
    RepliedEnds(s, a.id, a.reply, now);
  }

  lemma RedeemedEnds(s: World, id: CallId, reply: Reply, now: real)
    requires Enabled(s, Redeemed(id, reply), now)
    ensures var r := EndExchange(s, id, reply, now);
      && id in r.calls && r.calls[id].Done? && r.calls == s.calls[id := r.calls[id]] && r.locks == s.locks
      && r.configs == s.configs && r.pending == s.pending && r.issued == s.issued && r.redeemed == s.redeemed
  {
    hide PersistTokens;
    if reply.Granted? {
      PersistKeeps(s, s.calls[id].flow.upstream, reply.tokens, reply.tokens.refresh, reply.saved);
    }
  }

  lemma RedeemedEffect(s: World, a: Action, now: real)
    requires Enabled(s, a, now) && a.Redeemed?
    ensures Effect(s, a, Step(s, a, now))
  {
    hide EndExchange;
    RedeemedEnds(s, a.id, a.reply, now);
  }

  lemma LeaveKeeps(s: World, id: CallId, u: string, locked: bool, o: Outcome)
    ensures var r := Leave(s, id, u, locked, o);
      && id in r.calls && r.calls[id] == Done(o) && r.calls == s.calls[id := r.calls[id]]
      && r == s.(calls := r.calls, locks := if locked then s.locks[u := None] else s.locks)
  {
  }

  lemma PreparedEffect(s: World, a: Action, now: real)
    requires Enabled(s, a, now) && a.Prepared?
    ensures Effect(s, a, Step(s, a, now))
  {
    hide Leave;
    LeaveKeeps(s, a.id, s.calls[a.id].upstream, true, Failed);
  }

  lemma CancelEffect(s: World, a: Action, now: real)
    requires Enabled(s, a, now) && a.Cancel?
    ensures Effect(s, a, Step(s, a, now))
  {
  }

  lemma StepEffect(s: World, a: Action, now: real)
    requires Enabled(s, a, now)
    ensures if Moves(a) then Effect(s, a, Step(s, a, now))
            else Step(s, a, now).calls == s.calls && Step(s, a, now).locks == s.locks
  {
    if Moves(a) {
      hide Enabled, Step, Effect;
      if a.Revoke? { RevokeEffect(s, a, now); }
      else if a.Finish? { FinishEffect(s, a, now); }
      else if a.Ask? { AskEffect(s, a, now); }
      else if a.Acquire? { AcquireEffect(s, a, now); }
      else if a.Replied? { RepliedEffect(s, a, now); }
      else if a.Cancel? { CancelEffect(s, a, now); }
      else if a.Redeemed? { RedeemedEffect(s, a, now); }
      else { PreparedEffect(s, a, now); }
    }
  }

  lemma EffectLock(s: World, a: Action, r: World)
    requires LockInv(s) && Moves(a) && Effect(s, a, r)
    ensures LockInv(r)
  {
    hide LockOk, Lock, Holds;
    var u := Lock(s, a);
    var c := r.calls[a.id];
    if Holds(c, u) == HoldsAt(s.calls, a.id, u) {
      if r.locks != s.locks { FreshLock(s.calls, s.locks, u); }
      Stays(s.calls, r.locks, a.id, c);
    } else if Holds(c, u) {
      assert !c.Waiting? by { WaitingHolds(c, u); }
      Grabs(s.calls, s.locks, a.id, c, u);
    } else {
      Drops(s.calls, s.locks, a.id, c, u);
    }
  }

  lemma WaitingHolds(c: Call, u: string)
    requires Holds(c, u)
    ensures !c.Waiting? && !c.Done?
  {
  }

  lemma StepLock(s: World, a: Action, now: real)
    requires LockInv(s) && Enabled(s, a, now)
    ensures LockInv(Step(s, a, now))
  {
    hide LockOk, Enabled, Step, Effect;
    StepEffect(s, a, now);
    if Moves(a) { EffectLock(s, a, Step(s, a, now)); }
  }

  lemma {:induction false} RunLock(states: seq<World>, events: seq<Event>, k: nat)
    requires IsRun(states, events) && k <= |events|
    ensures LockInv(states[k])
  {
    hide LockInv, Step, Enabled;
    if k == 0 {
      InitialLock(states[0]);
    } else {
      RunLock(states, events, k - 1);
      StepLock(states[k - 1], events[k - 1].action, events[k - 1].at);
    }
  }

  lemma InitialLock(s: World)
    requires Initial(s)
    ensures LockInv(s)
  {
  }

  /** In every state of every run, each upstream has at most one refresh exchange in flight. */
  lemma OneExchangeInFlight(states: seq<World>, events: seq<Event>, k: nat, c: CallId, d: CallId)
    requires IsRun(states, events) && k <= |events|
    requires c in states[k].calls && d in states[k].calls
    requires states[k].calls[c].Posting? && states[k].calls[d].Posting?
    requires states[k].calls[c].upstream == states[k].calls[d].upstream
    ensures c == d
  {
    RunLock(states, events, k);
    var s := states[k];
    assert HoldsAt(s.calls, c, s.calls[c].upstream) && HoldsAt(s.calls, d, s.calls[c].upstream);
  }

  // ---- Many callers, one exchange ----

  /** The call in the locked part for an upstream. */
  function Phase(s: World, u: string): (c: Option<Call>) {
    if u in s.locks && s.locks[u].Some? && s.locks[u].value in s.calls then Some(s.calls[s.locks[u].value]) else None
  }

  predicate InFlight(s: World, u: string) {
    Phase(s, u).Some? && Phase(s, u).value.Posting?
  }

  predicate Refreshing(s: World, u: string) {
    InFlight(s, u) || (Phase(s, u).Some? && Phase(s, u).value.Preparing?)
  }

  /** The cached tokens of `u` will not have expired by `until`. */
  predicate Fresh(s: World, u: string, until: real) {
    u in s.tokens && !IsExpired(s.tokens[u], until)
  }

  predicate StartsExchange(s: World, a: Action, u: string) {
    && a.Prepared? && a.id in s.calls && s.calls[a.id].Preparing? && s.calls[a.id].upstream == u
    && a.ok && u in s.configs
  }

  predicate FailsExchange(s: World, a: Action, u: string) {
    && ((a.Replied? && !a.reply.Granted?) || a.Cancel?)
    && a.id in s.calls && s.calls[a.id].Posting? && s.calls[a.id].upstream == u
  }

  /** A caller comes back with a 401 while the cached tokens would still last. */
  predicate ForcesExchange(s: World, a: Action, u: string, until: real) {
    a.Ask? && a.upstream == u && a.rejected.Some? && Fresh(s, u, until)
  }

  /** Nobody registers, drops, revokes or re-authorizes `u`, and what a refresh brings lasts until `until`. */
  predicate Undisturbed(s: World, a: Action, u: string, until: real) {
    match a
    case Register(v) => v != u
    case Unregister(v) => v != u
    case Revoke(_, v, _) => v != u
    case Redeemed(id, Granted(_, _)) => id in s.calls && s.calls[id].Redeeming? && s.calls[id].flow.upstream != u
    case Replied(id, Granted(t, _)) =>
      id in s.calls && s.calls[id].Posting? && (s.calls[id].upstream == u ==> !IsExpired(t, until))
    case _ => true
  }

  /** How many of the steps from `first` to `last - 1` satisfy a predicate. */
  ghost function Count(states: seq<World>, events: seq<Event>, p: (World, Action) -> bool, first: nat, last: nat): (n: nat)
    requires first <= last <= |events| < |states|
    decreases last
  {
    if first == last then 0
    else Count(states, events, p, first, last - 1) + if p(states[last - 1], events[last - 1].action) then 1 else 0
  }

  ghost function Starts(u: string): (World, Action) -> bool {
    (s, a) => StartsExchange(s, a, u)
  }

  ghost function Fails(u: string): (World, Action) -> bool {
    (s, a) => FailsExchange(s, a, u)
  }

  ghost function Forces(u: string, until: real): (World, Action) -> bool {
    (s, a) => ForcesExchange(s, a, u, until)
  }

  /** What an exchange that is under way or has succeeded is worth. */
  function Credit(s: World, u: string, until: real): (n: nat) {
    if InFlight(s, u) || Fresh(s, u, until) then 1 else 0
  }

  ghost predicate SameTokens(s: World, r: World, u: string) {
    (u in s.tokens <==> u in r.tokens) && (u in s.tokens ==> r.tokens[u] == s.tokens[u])
  }

  lemma PhaseApart(s: World, a: Action, r: World, u: string)
    requires LockInv(s) && Moves(a) && Effect(s, a, r)
    requires u == Lock(s, a) ==> !HoldsAt(s.calls, a.id, u) && !HoldsAt(r.calls, a.id, u)
    ensures Phase(r, u) == Phase(s, u)
  {
    hide Lock, Holds;
    var v := Lock(s, a);
    if u in s.locks && s.locks[u].Some? {
      assert HoldsAt(s.calls, s.locks[u].value, u);
    }
  }

  lemma PhaseHeld(s: World, id: CallId, u: string)
    requires LockInv(s) && HoldsAt(s.calls, id, u)
    ensures Phase(s, u) == Some(s.calls[id])
  {
    hide Holds;
  }

  lemma PhaseDropped(s: World, a: Action, r: World)
    requires LockInv(s) && Moves(a) && Effect(s, a, r) && !HoldsAt(r.calls, a.id, Lock(s, a))
    requires HoldsAt(s.calls, a.id, Lock(s, a))
    ensures Phase(r, Lock(s, a)) == None
  {
    hide Holds, LockOk, Lock;
  }

  /** Tokens of `u` change only in a step of `u` that registers, drops, revokes, grants, refuses or comes back with a 401. */
  predicate Touches(s: World, a: Action, u: string) {
    match a
    case Register(v) => v == u
    case Unregister(v) => v == u
    case Revoke(_, v, _) => v == u
    case Ask(_, v, rejected) => v == u && rejected.Some?
    case Replied(id, reply) => id in s.calls && Upstream(s.calls[id]) == u && !reply.Broken?
    case Redeemed(id, reply) => id in s.calls && Upstream(s.calls[id]) == u && reply.Granted?
    case _ => false
  }

  lemma AskTokens(s: World, a: Action, now: real, u: string)
    requires Enabled(s, a, now) && a.Ask? && !Touches(s, a, u)
    ensures SameTokens(s, Step(s, a, now), u)
  {
    hide GetAccessToken;
    GetEffect(if a.rejected.Some? then ForceExpire(s, a.upstream) else s, a.id, a.upstream, now);
  }

  lemma RepliedTokens(s: World, a: Action, now: real, u: string)
    requires Enabled(s, a, now) && a.Replied? && !Touches(s, a, u)
    ensures SameTokens(s, Step(s, a, now), u)
  {
    hide KeepRefresh, DropRaises;
  }

  lemma RedeemedTokens(s: World, a: Action, now: real, u: string)
    requires Enabled(s, a, now) && a.Redeemed? && !Touches(s, a, u)
    ensures SameTokens(s, Step(s, a, now), u)
  {
  }

  lemma OtherTokens(s: World, a: Action, now: real, u: string)
    requires Enabled(s, a, now) && (a.Finish? || a.Acquire? || a.Prepared? || a.Cancel?)
    ensures Step(s, a, now).tokens == s.tokens && Step(s, a, now).secrets == s.secrets && Step(s, a, now).latest == s.latest
  {
    hide IsExpired, FinishAuthorization, Leave, End, Holds, Upstream;
    match a {
      case Finish(id, state, code) => FinishEnds(s, id, state, code, now);
      case Acquire(id) =>
        if s.calls[id].upstream in s.tokens { EndKeeps(s, id, Token(s.tokens[s.calls[id].upstream].access)); }
      case Prepared(id, ok) => LeaveKeeps(s, id, s.calls[id].upstream, true, Failed);
      case Cancel(id) => LeaveKeeps(s, id, Upstream(s.calls[id]), Holds(s.calls[id], Upstream(s.calls[id])), Failed);
    }
  }

  lemma Untouched(s: World, a: Action, now: real, u: string)
    requires Enabled(s, a, now) && !Touches(s, a, u)
    ensures SameTokens(s, Step(s, a, now), u)
  {
    hide IsExpired, TooOld, NotOf;
    if a.Ask? { AskTokens(s, a, now, u); }
    else if a.Replied? { RepliedTokens(s, a, now, u); }
    else if a.Redeemed? { RedeemedTokens(s, a, now, u); }
    else if a.Finish? || a.Acquire? || a.Prepared? || a.Cancel? { hide Step; OtherTokens(s, a, now, u); }
  }

  ghost predicate NoneWhileFresh(s: World, u: string, until: real) {
    Refreshing(s, u) ==> !Fresh(s, u, until)
  }

  ghost predicate Paid(s: World, a: Action, r: World, u: string, until: real) {
    && NoneWhileFresh(r, u, until)
    && (if StartsExchange(s, a, u) then 1 else 0) + Credit(s, u, until)
         <= Credit(r, u, until) + (if FailsExchange(s, a, u) then 1 else 0) + (if ForcesExchange(s, a, u, until) then 1 else 0)
  }

  /** Neither the tokens of `u` nor the call in its locked part change. */
  lemma StillPaid(s: World, a: Action, r: World, u: string, until: real)
    requires NoneWhileFresh(s, u, until) && SameTokens(s, r, u) && Phase(r, u) == Phase(s, u)
    requires !StartsExchange(s, a, u)
    ensures Paid(s, a, r, u, until)
  {
    hide IsExpired, Phase;
  }

  lemma StartsHeld(s: World, a: Action, u: string)
    ensures StartsExchange(s, a, u) ==> Moves(a) && Lock(s, a) == u && HoldsAt(s.calls, a.id, u)
  {
  }

  /** A step of another upstream, or of a call that is not in the locked part before or after. */
  lemma OutsidePaid(s: World, a: Action, now: real, u: string, until: real)
    requires LockInv(s) && Enabled(s, a, now) && NoneWhileFresh(s, u, until) && !Touches(s, a, u)
    requires Moves(a) && Lock(s, a) == u ==> !HoldsAt(s.calls, a.id, u) && !HoldsAt(Step(s, a, now).calls, a.id, u)
    ensures Paid(s, a, Step(s, a, now), u, until)
  {
    Untouched(s, a, now, u);
    StartsHeld(s, a, u);
    hide LockOk, Step, IsExpired, Phase, Effect, Enabled, Lock, Touches, HoldsAt, StartsExchange, NoneWhileFresh, Paid;
    StepEffect(s, a, now);
    if Moves(a) { PhaseApart(s, a, Step(s, a, now), u); }
    StillPaid(s, a, Step(s, a, now), u, until);
  }

  /** A 401 makes the cached tokens look expired, and the call stays outside. */
  lemma RejectPaid(s: World, a: Action, now: real, u: string, until: real)
    requires LockInv(s) && Enabled(s, a, now) && NoneWhileFresh(s, u, until) && until >= 0.0
    requires a.Ask? && a.upstream == u && a.rejected.Some?
    ensures Paid(s, a, Step(s, a, now), u, until)
  {
    hide LockOk, GetAccessToken, Effect;
    StepEffect(s, a, now);
    var s1 := ForceExpire(s, u);
    GetEffect(s1, a.id, u, now);
    var r := Step(s, a, now);
    PhaseApart(s, a, r, u);
    assert Fresh(r, u, until) ==> Fresh(s, u, until);
    hide IsExpired, Phase, Step;
  }

  lemma AcquirePaid(s: World, a: Action, now: real, u: string, until: real)
    requires LockInv(s) && Enabled(s, a, now) && now <= until && NoneWhileFresh(s, u, until)
    requires a.Acquire? && Lock(s, a) == u
    ensures Paid(s, a, Step(s, a, now), u, until)
  {
    hide LockOk;
    var r := Step(s, a, now);
    assert s.calls[a.id].upstream == u && Phase(s, u) == None;
    if u in s.tokens && !IsExpired(s.tokens[u], now) {
      assert Phase(r, u) == None;
    } else {
      assert r.calls[a.id].Preparing? && Phase(r, u) == Some(r.calls[a.id]);
      assert r.tokens == s.tokens && !Fresh(s, u, until);
    }
    assert NoneWhileFresh(r, u, until);
    assert Fresh(r, u, until) == Fresh(s, u, until);
    assert Credit(r, u, until) == Credit(s, u, until) && !StartsExchange(s, a, u);
  }

  lemma PreparedPaid(s: World, a: Action, now: real, u: string, until: real)
    requires LockInv(s) && Enabled(s, a, now) && NoneWhileFresh(s, u, until)
    requires a.Prepared? && Lock(s, a) == u
    ensures Paid(s, a, Step(s, a, now), u, until)
  {
    hide LockOk, IsExpired, Effect;
    var r := Step(s, a, now);
    assert HoldsAt(s.calls, a.id, u);
    PhaseHeld(s, a.id, u);
    StepLock(s, a, now);
    StepEffect(s, a, now);
    if HoldsAt(r.calls, a.id, u) {
      PhaseHeld(r, a.id, u);
    } else {
      PhaseDropped(s, a, r);
    }
  }

  lemma RepliedPaid(s: World, a: Action, now: real, u: string, until: real)
    requires LockInv(s) && Enabled(s, a, now) && Undisturbed(s, a, u, until) && NoneWhileFresh(s, u, until)
    requires a.Replied? && Lock(s, a) == u
    ensures Paid(s, a, Step(s, a, now), u, until)
  {
    hide LockOk, Effect;
    var r := Step(s, a, now);
    assert HoldsAt(s.calls, a.id, u);
    PhaseHeld(s, a.id, u);
    StepEffect(s, a, now);
    RepliedEnds(s, a.id, a.reply, now);
    PhaseDropped(s, a, r);
    if a.reply.Granted? {
      assert r.tokens[u] == KeepRefresh(a.reply.tokens, s.calls[a.id].refresh);
    }
  }

  /** Cancelling leaves the tokens in memory alone. */
  lemma CancelPaid(s: World, a: Action, now: real, u: string, until: real)
    requires LockInv(s) && Enabled(s, a, now) && NoneWhileFresh(s, u, until)
    requires a.Cancel? && Lock(s, a) == u && HoldsAt(s.calls, a.id, u)
    ensures Paid(s, a, Step(s, a, now), u, until)
  {
    hide LockOk, Effect, IsExpired;
    var r := Step(s, a, now);
    PhaseHeld(s, a.id, u);
    StepEffect(s, a, now);
    PhaseDropped(s, a, r);
  }

  lemma StepPaid(s: World, a: Action, now: real, u: string, until: real)
    requires LockInv(s) && Enabled(s, a, now) && 0.0 <= now <= until
    requires Undisturbed(s, a, u, until) && NoneWhileFresh(s, u, until)
    ensures Paid(s, a, Step(s, a, now), u, until)
  {
    hide LockOk, IsExpired, Paid, NoneWhileFresh, Phase;
    if a.Ask? && a.upstream == u && a.rejected.Some? {
      RejectPaid(s, a, now, u, until);
    } else if a.Acquire? && Lock(s, a) == u {
      AcquirePaid(s, a, now, u, until);
    } else if a.Prepared? && Lock(s, a) == u {
      PreparedPaid(s, a, now, u, until);
    } else if a.Replied? && Lock(s, a) == u {
      RepliedPaid(s, a, now, u, until);
    } else if a.Cancel? && Lock(s, a) == u && HoldsAt(s.calls, a.id, u) {
      CancelPaid(s, a, now, u, until);
    } else {
      OutsideStays(s, a, now, u, until);
      hide Step, Enabled, Undisturbed, HoldsAt, Lock;
      OutsidePaid(s, a, now, u, until);
    }
  }

  lemma OutsideStays(s: World, a: Action, now: real, u: string, until: real)
    requires Enabled(s, a, now) && Undisturbed(s, a, u, until)
    requires !(a.Ask? && a.upstream == u && a.rejected.Some?)
    requires Moves(a) && Lock(s, a) == u ==>
      !a.Acquire? && !a.Prepared? && !a.Replied? && (a.Cancel? ==> !HoldsAt(s.calls, a.id, u))
    ensures !Touches(s, a, u)
    ensures Moves(a) && Lock(s, a) == u ==> !HoldsAt(s.calls, a.id, u) && !HoldsAt(Step(s, a, now).calls, a.id, u)
  {
    hide IsExpired, TooOld, Step, Effect;
    if Moves(a) && Lock(s, a) == u {
      OutsideCall(s, a, now);
    }
  }

  lemma OutsideCall(s: World, a: Action, now: real)
    requires Enabled(s, a, now) && Moves(a) && !a.Acquire? && !a.Prepared? && !a.Replied?
    ensures forall u :: !HoldsAt(Step(s, a, now).calls, a.id, u)
    ensures !a.Cancel? ==> forall u :: !HoldsAt(s.calls, a.id, u)
  {
    hide IsExpired, FinishAuthorization, Leave, End, EndExchange, GetAccessToken;
    match a {
      case Revoke(id, u, forgotten) => EndKeeps(DropTokens(s, u, forgotten), id, if DropRaises(s, u, forgotten) then Failed else Revoked);
      case Finish(id, state, code) => FinishEnds(s, id, state, code, now);
      case Redeemed(id, reply) => RedeemedEnds(s, id, reply, now);
      case Ask(id, u, rejected) => GetEffect(if rejected.Some? then ForceExpire(s, u) else s, id, u, now);
      case Cancel(id) => LeaveKeeps(s, id, Upstream(s.calls[id]), Holds(s.calls[id], Upstream(s.calls[id])), Failed);
    }
  }

  /**
   However many callers find the tokens of an upstream expired, the exchanges they start
   number at most one more than those that failed and those that a 401 forced while the
   cached tokens would still last. If there are none of either, that is one.
   */
  lemma {:induction false} OneExchange(
      states: seq<World>, events: seq<Event>, u: string, first: nat, last: nat, until: real)
    requires IsRun(states, events) && first <= last <= |events|
    requires !Refreshing(states[first], u)
    requires forall k | first <= k < last :: events[k].at <= until && Undisturbed(states[k], events[k].action, u, until)
    ensures NoneWhileFresh(states[last], u, until)
    ensures Count(states, events, Starts(u), first, last) <=
      Count(states, events, Fails(u), first, last) + Count(states, events, Forces(u, until), first, last)
      + Credit(states[last], u, until)
    ensures Credit(states[last], u, until) <= 1
    decreases last
  {
    hide Step, Enabled, Undisturbed, Refreshing, Fresh, StartsExchange, FailsExchange, ForcesExchange;
    if first < last {
      OneExchange(states, events, u, first, last - 1, until);
      RunLock(states, events, last - 1);
      StepPaid(states[last - 1], events[last - 1].action, events[last - 1].at, u, until);
    }
  }

  /**
   Two callers found the same tokens expired. When the first has refreshed them, the second
   is handed the new access token if that still lasts; if it does not, the second goes on to
   exchange the refresh token it found before it waited, even if that was replaced meanwhile.
   What is kept, in memory and in the store, is the new refresh token if there is one.
   */
  lemma WaiterAfterRefresh(s: World, a: CallId, b: CallId, t: TokenSet, t1: real, t2: real)
    requires a in s.calls && s.calls[a].Posting? && b in s.calls && b != a && s.calls[b].Waiting?
    requires s.calls[b].upstream == s.calls[a].upstream
    ensures var s1 := Step(s, Replied(a, Granted(t, true)), t1);
      Enabled(s1, Acquire(b), t2)
      && var s2 := Step(s1, Acquire(b), t2);
      && s1.calls[a] == Done(Token(t.access))
      && s2.calls[b] == (if IsExpired(t, t2) then Preparing(s.calls[b].upstream, s.calls[b].refresh) else Done(Token(t.access)))
      && s2.tokens[s.calls[a].upstream] ==
           t.(refresh := if t.refresh.Some? then t.refresh else Some(s.calls[a].refresh))
      && s2.secrets[s.calls[a].upstream] == s2.tokens[s.calls[a].upstream]
  {
    hide IsExpired;
    assert IsExpired(KeepRefresh(t, s.calls[a].refresh), t2) == IsExpired(t, t2) by { KeepsExpiry(t, s.calls[a].refresh, t2); }
  }

  lemma KeepsExpiry(t: TokenSet, sent: string, now: real)
    ensures IsExpired(KeepRefresh(t, sent), now) == IsExpired(t, now)
  {
  }
}
