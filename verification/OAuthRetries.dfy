/** Callers that come back with a 401: src/mcpxy_proxy/auth/oauth.py, lines 651 to 665. */
module OAuthRetries {
  import opened Prelude
  import opened OAuthFlows
  import opened OAuthRefreshing

  predicate LockFree(s: World, u: string) {
    u in s.locks ==> s.locks[u].None?
  }

  predicate CanRetry(s: World, u: string) {
    u in s.configs && u in s.tokens && s.tokens[u].refresh.Some? && LockFree(s, u)
  }

  /** Plainly asking would have given another access token than the rejected one. */
  predicate Needless(s: World, a: Action, now: real) {
    && a.Ask? && a.rejected.Some? && Enabled(s, Ask(a.id, a.upstream, None), now)
    && var plain := Step(s, Ask(a.id, a.upstream, None), now);
    HandedToken(plain, a.id) && plain.calls[a.id].outcome.access != a.rejected.value
  }

  ghost function Needlessly(now: real): (World, Action) -> bool {
    (s, a) => Needless(s, a, now)
  }

  /** The rejected and the cached access token tell which retries are needless. */
  lemma NeedlessIff(s: World, id: CallId, u: string, rejected: string, now: real)
    requires CanRetry(s, u) && id !in s.calls
    ensures Needless(s, Ask(id, u, Some(rejected)), now) <==> !IsExpired(s.tokens[u], now) && s.tokens[u].access != rejected
  {
    hide IsExpired;
  }

  /** What the steps of a retry need of the world, and leave as it is. */
  predicate Retrying(s: World, r: World, id: CallId, u: string, c: Call) {
    && r.configs == s.configs && r.calls == s.calls[id := c] && u in r.locks
    && u in s.tokens && u in r.tokens && r.tokens[u].refresh == s.tokens[u].refresh
  }

  lemma RetryAsks(s: World, id: CallId, u: string, rejected: string, now: real)
    requires CanRetry(s, u) && id !in s.calls && now >= 0.0
    ensures var r := Step(s, Ask(id, u, Some(rejected)), now);
      && Retrying(s, r, id, u, Waiting(u, s.tokens[u].refresh.value)) && r.locks[u].None?
      && IsExpired(r.tokens[u], now) && Enabled(r, Acquire(id), now)
      && Step(r, Acquire(id), now).calls[id] == Preparing(u, s.tokens[u].refresh.value)
  {
  }

  lemma RetryAcquires(s: World, r: World, id: CallId, u: string, now: real)
    requires u in s.tokens && s.tokens[u].refresh.Some?
    requires Retrying(s, r, id, u, Waiting(u, s.tokens[u].refresh.value)) && r.locks[u].None? && IsExpired(r.tokens[u], now)
    ensures Enabled(r, Acquire(id), now)
    ensures Retrying(s, Step(r, Acquire(id), now), id, u, Preparing(u, s.tokens[u].refresh.value))
  {
    hide IsExpired;
    assert s.calls[id := r.calls[id]][id := Preparing(u, s.tokens[u].refresh.value)]
      == s.calls[id := Preparing(u, s.tokens[u].refresh.value)];
  }

  lemma RetrySends(s: World, r: World, id: CallId, u: string, now: real)
    requires u in s.tokens && s.tokens[u].refresh.Some? && u in s.configs
    requires Retrying(s, r, id, u, Preparing(u, s.tokens[u].refresh.value))
    ensures Enabled(r, Prepared(id, true), now) && StartsExchange(r, Prepared(id, true), u)
    ensures Retrying(s, Step(r, Prepared(id, true), now), id, u, Posting(u, s.tokens[u].refresh.value))
  {
    assert s.calls[id := r.calls[id]][id := Posting(u, s.tokens[u].refresh.value)]
      == s.calls[id := Posting(u, s.tokens[u].refresh.value)];
  }

  lemma RetryEnds(s: World, r: World, id: CallId, u: string, t: TokenSet, now: real)
    requires u in s.tokens && s.tokens[u].refresh.Some? && u in s.configs
    requires Retrying(s, r, id, u, Posting(u, s.tokens[u].refresh.value))
    ensures Enabled(r, Replied(id, Granted(t, true)), now)
    ensures var q := Step(r, Replied(id, Granted(t, true)), now);
      && CanRetry(q, u) && q.calls == s.calls[id := Done(Token(t.access))]
      && q.tokens[u].access == t.access && q.tokens[u].expiresAt == t.expiresAt
  {
    assert s.calls[id := r.calls[id]][id := Done(Token(t.access))] == s.calls[id := Done(Token(t.access))];
  }

  /** The four steps of a caller that comes back with a 401 and is granted new tokens. */
  function Retry(id: CallId, u: string, rejected: string, t: TokenSet, now: real): (es: seq<Event>) {
    [Event(now, Ask(id, u, Some(rejected))), Event(now, Acquire(id)), Event(now, Prepared(id, true)),
     Event(now, Replied(id, Granted(t, true)))]
  }

  lemma RetryRound(s: World, id: CallId, u: string, rejected: string, t: TokenSet, now: real)
      returns (states: seq<World>)
    requires CanRetry(s, u) && id !in s.calls && now >= 0.0
    ensures |states| == 5 && states[0] == s && IsChain(states, Retry(id, u, rejected, t, now))
    ensures CanRetry(states[4], u) && states[4].calls == s.calls[id := Done(Token(t.access))]
    ensures states[4].tokens[u].access == t.access && states[4].tokens[u].expiresAt == t.expiresAt
    ensures StartsExchange(states[2], Prepared(id, true), u)
  {
    assert Enabled(s, Ask(id, u, Some(rejected)), now);
    hide Step, Enabled, Retrying, StartsExchange, CanRetry, IsExpired, IsChain;
    var s1 := Step(s, Ask(id, u, Some(rejected)), now);
    RetryAsks(s, id, u, rejected, now);
    RetryAcquires(s, s1, id, u, now);
    var s2 := Step(s1, Acquire(id), now);
    RetrySends(s, s2, id, u, now);
    var s3 := Step(s2, Prepared(id, true), now);
    RetryEnds(s, s3, id, u, t, now);
    states := [s, s1, s2, s3, Step(s3, Replied(id, Granted(t, true)), now)];
    FourSteps(states, Retry(id, u, rejected, t, now), now);
  }

  lemma FourSteps(states: seq<World>, es: seq<Event>, now: real)
    requires |states| == 5 && |es| == 4 && now >= 0.0 && es[0].at == es[1].at == es[2].at == es[3].at == now
    requires Enabled(states[0], es[0].action, now) && states[1] == Step(states[0], es[0].action, now)
    requires Enabled(states[1], es[1].action, now) && states[2] == Step(states[1], es[1].action, now)
    requires Enabled(states[2], es[2].action, now) && states[3] == Step(states[2], es[2].action, now)
    requires Enabled(states[3], es[3].action, now) && states[4] == Step(states[3], es[3].action, now)
    ensures IsChain(states, es)
  {
    hide Step, Enabled;
  }

  predicate Below(s: World, bound: CallId) {
    forall id | id in s.calls :: id < bound
  }

  /** `n` callers, from `base` on, come back one after another with the same rejected token. */
  function Retries(u: string, rejected: string, t: TokenSet, now: real, base: CallId, n: nat): (es: seq<Event>)
  {
    if n == 0 then []
    else Retries(u, rejected, t, now, base, n - 1) + Retry(base + n - 1, u, rejected, t, now)
  }

  lemma {:induction false} RetriesAtOnce(u: string, rejected: string, t: TokenSet, now: real, base: CallId, n: nat)
    ensures forall e | e in Retries(u, rejected, t, now, base, n) :: e.at == now
  {
    if n > 0 { RetriesAtOnce(u, rejected, t, now, base, n - 1); }
  }

  /** Whether the first of the callers could have done without an exchange. */
  function FirstNeedless(s: World, u: string, rejected: string, now: real): (n: nat)
    requires CanRetry(s, u)
  {
    if !IsExpired(s.tokens[u], now) && s.tokens[u].access != rejected then 1 else 0
  }

  predicate Lasting(t: TokenSet, now: real) {
    !IsExpired(t, now)
  }

  /**
   So `n` callers that come back one after another, with one rejected access token, make `n`
   exchanges. If the first of these grants another token, and one that lasts, all later ones are
   needless: plainly asking would have given that token, which nobody was refused.
   */
  lemma {:induction false} RejectedCallersExchange(
      s: World, u: string, rejected: string, t: TokenSet, now: real, base: CallId, n: nat)
      returns (states: seq<World>)
    requires CanRetry(s, u) && now >= 0.0 && Below(s, base)
    ensures |states| == |Retries(u, rejected, t, now, base, n)| + 1 && states[0] == s
    ensures IsChain(states, Retries(u, rejected, t, now, base, n))
    ensures Count(states, Retries(u, rejected, t, now, base, n), Starts(u), 0, |states| - 1) == n
    ensures n > 0 && t.access != rejected && Lasting(t, now) ==>
      Count(states, Retries(u, rejected, t, now, base, n), Needlessly(now), 0, |states| - 1)
        == n - 1 + FirstNeedless(s, u, rejected, now)
    ensures CanRetry(states[|states| - 1], u)
    ensures n > 0 ==> states[|states| - 1].tokens[u].access == t.access && states[|states| - 1].tokens[u].expiresAt == t.expiresAt
    ensures n == 0 ==> states == [s]
    ensures Below(states[|states| - 1], base + n)
  {
    hide CanRetry, Retries, IsChain, Count, Below, Starts, Needlessly, Retry, IsExpired;
    if n == 0 {
      states := [s];
      NoRetries(s, u, rejected, t, now, base);
    } else {
      var before := RejectedCallersExchange(s, u, rejected, t, now, base, n - 1);
      RetriesNext(u, rejected, t, now, base, n);
      RetriesAtOnce(u, rejected, t, now, base, n - 1);
      states := OneMoreRetry(before, Retries(u, rejected, t, now, base, n - 1), base + n - 1, u, rejected, t, now);
      if n == 1 {
        NoRetries(s, u, rejected, t, now, base);
      } else if t.access != rejected && Lasting(t, now) {
        LaterNeedless(before[|before| - 1], u, rejected, t, now);
      }
    }
  }

  lemma LaterNeedless(s: World, u: string, rejected: string, t: TokenSet, now: real)
    requires CanRetry(s, u) && s.tokens[u].access == t.access && s.tokens[u].expiresAt == t.expiresAt
    requires t.access != rejected && Lasting(t, now)
    ensures FirstNeedless(s, u, rejected, now) == 1
  {
  }

  lemma OneMoreRetry(before: seq<World>, done: seq<Event>, id: CallId, u: string, rejected: string, t: TokenSet, now: real)
      returns (states: seq<World>)
    requires IsChain(before, done) && |before| == |done| + 1 && CanRetry(before[|done|], u) && now >= 0.0
    requires forall e | e in done :: e.at == now
    requires Below(before[|done|], id)
    ensures |states| == |done + Retry(id, u, rejected, t, now)| + 1 && states[0] == before[0]
    ensures IsChain(states, done + Retry(id, u, rejected, t, now))
    ensures Count(states, done + Retry(id, u, rejected, t, now), Starts(u), 0, |states| - 1)
      == Count(before, done, Starts(u), 0, |done|) + 1
    ensures Count(states, done + Retry(id, u, rejected, t, now), Needlessly(now), 0, |states| - 1)
      == Count(before, done, Needlessly(now), 0, |done|) + FirstNeedless(before[|done|], u, rejected, now)
    ensures CanRetry(states[|states| - 1], u)
    ensures states[|states| - 1].tokens[u].access == t.access && states[|states| - 1].tokens[u].expiresAt == t.expiresAt
    ensures Below(states[|states| - 1], id + 1)
  {
    hide Starts, Needlessly, StartsExchange, Retry, CanRetry, IsChain, Count, IsExpired, Needless;
    var next := Retry(id, u, rejected, t, now);
    var round := RetryRound(before[|done|], id, u, rejected, t, now);
    RetryLength(id, u, rejected, t, now);
    JoinChains(before, done, round, next);
    states := before + round[1..];
    assert states[|states| - 1] == round[4] && states[0] == before[0];
    CountJoined(before, done, round, next, Starts(u));
    CountJoined(before, done, round, next, Needlessly(now));
    NeedlessIff(before[|done|], id, u, rejected, now);
    RoundCounts(round, id, u, rejected, t, now);
  }

  lemma NoRetries(s: World, u: string, rejected: string, t: TokenSet, now: real, base: CallId)
    ensures Retries(u, rejected, t, now, base, 0) == []
    ensures IsChain([s], []) && Count([s], [], Starts(u), 0, 0) == 0 && Count([s], [], Needlessly(now), 0, 0) == 0
  {
  }

  lemma RetriesNext(u: string, rejected: string, t: TokenSet, now: real, base: CallId, n: nat)
    requires n > 0
    ensures Retries(u, rejected, t, now, base, n)
      == Retries(u, rejected, t, now, base, n - 1) + Retry(base + n - 1, u, rejected, t, now)
  {
  }

  lemma RetryLength(id: CallId, u: string, rejected: string, t: TokenSet, now: real)
    ensures |Retry(id, u, rejected, t, now)| == 4
    ensures forall e | e in Retry(id, u, rejected, t, now) :: e.at == now
  {
  }

  lemma RoundCounts(round: seq<World>, id: CallId, u: string, rejected: string, t: TokenSet, now: real)
    requires |round| == 5 && StartsExchange(round[2], Prepared(id, true), u)
    ensures Count(round, Retry(id, u, rejected, t, now), Starts(u), 0, 4) == 1
    ensures Count(round, Retry(id, u, rejected, t, now), Needlessly(now), 0, 4)
      == if Needless(round[0], Ask(id, u, Some(rejected)), now) then 1 else 0
  {
    hide Needless;
    var es := Retry(id, u, rejected, t, now);
    CountFour(round, es, Starts(u));
    CountFour(round, es, Needlessly(now));
    forall k | 1 <= k < 4 ensures !Needless(round[k], es[k].action, now) { OnlyAsks(round[k], es[k].action, now); }
  }

  lemma OnlyAsks(s: World, a: Action, now: real)
    ensures Needless(s, a, now) ==> a.Ask? && a.rejected.Some?
  {
  }

  lemma CountFour(states: seq<World>, es: seq<Event>, p: (World, Action) -> bool)
    requires |states| == 5 && |es| == 4
    ensures Count(states, es, p, 0, 4) ==
      (if p(states[0], es[0].action) then 1 else 0) + (if p(states[1], es[1].action) then 1 else 0)
      + (if p(states[2], es[2].action) then 1 else 0) + (if p(states[3], es[3].action) then 1 else 0)
  {
    assert Count(states, es, p, 0, 1) == if p(states[0], es[0].action) then 1 else 0;
    assert Count(states, es, p, 0, 3) == Count(states, es, p, 0, 2) + if p(states[2], es[2].action) then 1 else 0;
  }

  /** One chain goes on where and when another ends. */
  lemma JoinChains(before: seq<World>, done: seq<Event>, more: seq<World>, next: seq<Event>)
    requires IsChain(before, done) && IsChain(more, next) && more[0] == before[|done|]
    requires forall d, e | d in done && e in next :: d.at <= e.at
    ensures IsChain(before + more[1..], done + next)
  {
    hide Step, Enabled;
    var states, events := before + more[1..], done + next;
    forall k | 0 <= k < |events|
      ensures Enabled(states[k], events[k].action, events[k].at)
      ensures states[k + 1] == Step(states[k], events[k].action, events[k].at)
    {
      if k >= |done| {
        assert states[k] == more[k - |done|] && events[k] == next[k - |done|];
        assert states[k + 1] == more[k - |done| + 1];
      } else {
        assert states[k] == before[k] && states[k + 1] == before[k + 1] && events[k] == done[k];
      }
    }
    forall j, k | 0 <= j <= k < |events| ensures 0.0 <= events[j].at <= events[k].at {
      assert events[j] == if j < |done| then done[j] else next[j - |done|];
      assert events[k] == if k < |done| then done[k] else next[k - |done|];
      assert k < |done| ==> done[j].at <= done[k].at;
    }
  }

  lemma {:induction false} CountJoinedTo(
      before: seq<World>, done: seq<Event>, more: seq<World>, next: seq<Event>, p: (World, Action) -> bool, m: nat)
    requires |before| == |done| + 1 && |more| == |next| + 1 && more[0] == before[|done|] && m <= |done| + |next|
    ensures var states, events := before + more[1..], done + next;
      Count(states, events, p, 0, m) ==
        if m <= |done| then Count(before, done, p, 0, m)
        else Count(before, done, p, 0, |done|) + Count(more, next, p, 0, m - |done|)
  {
    var states, events := before + more[1..], done + next;
    if m > 0 {
      CountJoinedTo(before, done, more, next, p, m - 1);
      if m <= |done| {
        assert states[m - 1] == before[m - 1] && events[m - 1] == done[m - 1];
      } else {
        assert states[m - 1] == more[m - 1 - |done|] && events[m - 1] == next[m - 1 - |done|];
      }
    }
  }

  lemma CountJoined(before: seq<World>, done: seq<Event>, more: seq<World>, next: seq<Event>, p: (World, Action) -> bool)
    requires |before| == |done| + 1 && |more| == |next| + 1 && more[0] == before[|done|]
    ensures Count(before + more[1..], done + next, p, 0, |done + next|)
      == Count(before, done, p, 0, |done|) + Count(more, next, p, 0, |next|)
  {
    CountJoinedTo(before, done, more, next, p, |done| + |next|);
  }

  // ---- From a process that has just started ----

  const STORED := TokenSet("a0", Some("r0"), Some(5000.0))

  function Started(): (s: World) {
    World({}, map[], map[], map[], map["u" := STORED], map[], map[], {}, map["u" := "r0"])
  }

  /** The upstream is registered, and `m` callers have been handed the stored access token. */
  function Served(m: nat): (s: World) {
    World({"u"}, map["u" := STORED], map[], map[], map["u" := STORED], AllHanded(m), map[], {}, map["u" := "r0"])
  }

  function AllHanded(m: nat): (calls: map<CallId, Call>)
    ensures forall id: CallId :: id in calls <==> id < m
    ensures forall id: CallId | id < m :: calls[id] == Done(Token("a0"))
  {
    if m == 0 then map[] else AllHanded(m - 1)[m - 1 := Done(Token("a0"))]
  }

  /** One registration, then `m` callers that ask. */
  function Serving(m: nat): (es: seq<Event>) {
    if m == 0 then [Event(1000.0, Register("u"))] else Serving(m - 1) + [Event(1000.0, Ask(m - 1, "u", None))]
  }

  lemma ServedNext(m: nat)
    ensures Enabled(Served(m), Ask(m, "u", None), 1000.0)
    ensures Step(Served(m), Ask(m, "u", None), 1000.0) == Served(m + 1)
  {
    assert AllHanded(m + 1) == AllHanded(m)[m := Done(Token("a0"))];
  }

  lemma ServedFirst()
    ensures Initial(Started()) && Step(Started(), Register("u"), 1000.0) == Served(0)
  {
    assert (map u | u in map["u" := STORED] && map["u" := STORED][u].refresh.Some? :: map["u" := STORED][u].refresh.value)
      == map["u" := "r0"];
    assert NotOf(map[], "u") == map[] && AllHanded(0) == map[];
  }

  /** None of these steps exchanges anything. */
  lemma {:induction false} ServingRuns(m: nat) returns (states: seq<World>)
    ensures |states| == |Serving(m)| + 1 && states[0] == Started() && states[|states| - 1] == Served(m)
    ensures IsChain(states, Serving(m)) && forall e | e in Serving(m) :: e.at == 1000.0
    ensures Count(states, Serving(m), Starts("u"), 0, |states| - 1) == 0
    ensures Count(states, Serving(m), Needlessly(1000.0), 0, |states| - 1) == 0
  {
    hide Starts, Needlessly, IsChain, Count, Served, Started;
    if m == 0 {
      states := [Started(), Served(0)];
      ServedFirst();
      OneEvent(states, Event(1000.0, Register("u")), "u", 1000.0);
    } else {
      var before := ServingRuns(m - 1);
      ServedNext(m - 1);
      var last := Event(1000.0, Ask(m - 1, "u", None));
      OneEvent([Served(m - 1), Served(m)], last, "u", 1000.0);
      JoinChains(before, Serving(m - 1), [Served(m - 1), Served(m)], [last]);
      CountJoined(before, Serving(m - 1), [Served(m - 1), Served(m)], [last], Starts("u"));
      CountJoined(before, Serving(m - 1), [Served(m - 1), Served(m)], [last], Needlessly(1000.0));
      states := before + [Served(m - 1), Served(m)][1..];
    }
  }

  /** A chain of one step that is neither an exchange nor a retry. */
  lemma OneEvent(states: seq<World>, e: Event, u: string, now: real)
    requires |states| == 2 && Enabled(states[0], e.action, e.at) && states[1] == Step(states[0], e.action, e.at) && e.at >= 0.0
    requires e.action.Register? || (e.action.Ask? && e.action.rejected.None?)
    ensures IsChain(states, [e])
    ensures Count(states, [e], Starts(u), 0, 1) == 0 && Count(states, [e], Needlessly(now), 0, 1) == 0
  {
    hide Step, Enabled;
    assert [e][0] == e;
    assert Count(states, [e], Starts(u), 0, 0) == 0 && Count(states, [e], Needlessly(now), 0, 0) == 0;
  }

  lemma ServedCan(m: nat)
    ensures CanRetry(Served(m), "u") && Below(Served(m), m) && FirstNeedless(Served(m), "u", "a0", 1000.0) == 0
    ensures forall id: CallId | id < m :: id in Served(m).calls && Served(m).calls[id] == Done(Token("a0"))
  {
  }

  /**
   It happens: in a run from the start of a process, `n` callers are handed one access token, all
   come back with a 401 for it, and make `n` exchanges, of which all but the first are needless.
   */
  lemma RejectionsHappen(t: TokenSet, n: nat) returns (states: seq<World>, events: seq<Event>)
    requires n > 0 && t.access != "a0" && Lasting(t, 1000.0)
    ensures IsRun(states, events) && |states| == |events| + 1
    ensures events == Serving(n) + Retries("u", "a0", t, 1000.0, n, n)
    ensures var served := states[|Serving(n)|];
      forall id: CallId | id < n :: id in served.calls && served.calls[id] == Done(Token("a0"))
    ensures Count(states, events, Starts("u"), 0, |events|) == n
    ensures Count(states, events, Needlessly(1000.0), 0, |events|) == n - 1
  {
    hide Starts, Needlessly, IsChain, Count, Served, Serving, Retries, Lasting, CanRetry, Below, Started, Initial;
    var before := ServingRuns(n);
    ServedCan(n);
    ServedFirst();
    var done, next := Serving(n), Retries("u", "a0", t, 1000.0, n, n);
    var more := RejectedCallersExchange(Served(n), "u", "a0", t, 1000.0, n, n);
    RetriesAtOnce("u", "a0", t, 1000.0, n, n);
    JoinChains(before, done, more, next);
    CountJoined(before, done, more, next, Starts("u"));
    CountJoined(before, done, more, next, Needlessly(1000.0));
    states, events := before + more[1..], done + next;
  }
}
