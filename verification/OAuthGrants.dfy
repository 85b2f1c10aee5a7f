/**
 Whether the refresh token that the server granted last is kept, in memory and in the store:
 src/mcpxy_proxy/auth/oauth.py, lines 278 to 299 and 578 to 649.
 */
module OAuthGrants {
  import opened Prelude
  import opened OAuthFlows
  import opened OAuthRefreshing

  /** These tokens of `u` carry the refresh token that the server granted last. */
  predicate Newest(kept: map<string, TokenSet>, latest: map<string, string>, u: string) {
    u in kept && u in latest && kept[u].refresh == Some(latest[u])
  }

  /** The refresh token granted last is both cached and stored. */
  predicate CanRefresh(s: World, u: string) {
    Newest(s.tokens, s.latest, u) && Newest(s.secrets, s.latest, u)
  }

  predicate Answers(s: World, a: Action, u: string) {
    (a.Replied? || a.Redeemed?) && a.id in s.calls && Upstream(s.calls[a.id]) == u
  }

  /** The upstream is revoked, dropped, refused by the server, or authorized anew without a refresh token. */
  predicate GivesUp(s: World, a: Action, u: string) {
    || ((a.Unregister? || a.Revoke?) && a.upstream == u)
    || (a.Replied? && Answers(s, a, u) && a.reply.Refused?)
    || (a.Redeemed? && Answers(s, a, u) && a.reply.Granted? && a.reply.tokens.refresh.None?)
  }

  /** The server keeps the refresh token it was sent, but what was sent is not the one it granted last. */
  predicate StaleGrant(s: World, a: Action, u: string) {
    && a.Replied? && Answers(s, a, u) && a.reply.Granted? && a.reply.tokens.refresh.None?
    && s.calls[a.id].Posting? && (u in s.latest ==> s.calls[a.id].refresh != s.latest[u])
  }

  /** The server grants another refresh token, and storing it fails. */
  predicate UnsavedGrant(s: World, a: Action, u: string) {
    && Answers(s, a, u) && a.reply.Granted? && !a.reply.saved
    && a.reply.tokens.refresh.Some? && (u in s.latest ==> a.reply.tokens.refresh.value != s.latest[u])
  }

  /** The upstream is registered anew while the store does not hold the refresh token granted last. */
  predicate StaleReload(s: World, a: Action, u: string) {
    a.Register? && a.upstream == u && u in s.secrets && !Newest(s.secrets, s.latest, u)
  }

  lemma AskNewest(s: World, a: Action, now: real, u: string)
    requires Enabled(s, a, now) && a.Ask?
    ensures var r := Step(s, a, now);
      && r.secrets == s.secrets && r.latest == s.latest
      && (Newest(r.tokens, r.latest, u) <==> Newest(s.tokens, s.latest, u))
  {
    hide GetAccessToken;
    GetEffect(if a.rejected.Some? then ForceExpire(s, a.upstream) else s, a.id, a.upstream, now);
  }

  lemma RepliedNewest(s: World, a: Action, now: real, u: string)
    requires Enabled(s, a, now) && a.Replied?
    ensures var r := Step(s, a, now);
      && (Newest(s.tokens, s.latest, u) ==> (Newest(r.tokens, r.latest, u) <==> !GivesUp(s, a, u) && !StaleGrant(s, a, u)))
      && (CanRefresh(s, u) && !GivesUp(s, a, u) && !StaleGrant(s, a, u) ==>
            (Newest(r.secrets, r.latest, u) <==> !UnsavedGrant(s, a, u)))
  {
    hide EndRefresh;
    ReplyKeeps(s, a.id, a.reply, now);
  }

  /** What an answer to a refresh makes of memory, store and history. */
  lemma ReplyKeeps(s: World, id: CallId, reply: Reply, now: real)
    requires Enabled(s, Replied(id, reply), now)
    ensures var r := EndRefresh(s, id, reply, now); var c := s.calls[id];
      match reply
      case Refused(forgotten) =>
        && r.tokens == s.tokens - {c.upstream} && r.latest == s.latest
        && r.secrets == if forgotten then s.secrets - {c.upstream} else s.secrets
      case Broken => r.tokens == s.tokens && r.secrets == s.secrets && r.latest == s.latest
      case Granted(t, saved) =>
        var kept := KeepRefresh(t, c.refresh);
        && r.tokens == s.tokens[c.upstream := kept]
        && r.secrets == (if saved then s.secrets[c.upstream := kept] else s.secrets)
        && r.latest == if t.refresh.Some? then s.latest[c.upstream := t.refresh.value] else s.latest
  {
    hide DropRaises, KeepRefresh;
  }

  lemma RedeemedNewest(s: World, a: Action, now: real, u: string)
    requires Enabled(s, a, now) && a.Redeemed?
    ensures var r := Step(s, a, now);
      && (Newest(s.tokens, s.latest, u) ==> (Newest(r.tokens, r.latest, u) <==> !GivesUp(s, a, u)))
      && (CanRefresh(s, u) && !GivesUp(s, a, u) ==> (Newest(r.secrets, r.latest, u) <==> !UnsavedGrant(s, a, u)))
  {
  }

  /** What a step does to a cached refresh token that is the one granted last. */
  lemma CachedNewestIff(s: World, a: Action, now: real, u: string)
    requires Enabled(s, a, now) && Newest(s.tokens, s.latest, u)
    ensures var r := Step(s, a, now);
      Newest(r.tokens, r.latest, u) <==> !GivesUp(s, a, u) && !StaleGrant(s, a, u) && !StaleReload(s, a, u)
  {
    hide IsExpired, TooOld, NotOf;
    if a.Ask? { hide Step; AskNewest(s, a, now, u); }
    else if a.Replied? { hide Step, StaleGrant; RepliedNewest(s, a, now, u); }
    else if a.Redeemed? { hide Step; RedeemedNewest(s, a, now, u); }
    else if a.Finish? || a.Acquire? || a.Prepared? || a.Cancel? { hide Step; OtherTokens(s, a, now, u); }
  }

  /**
   A step leaves the refresh token granted last in the cache and in the store, if it was in
   both, unless the upstream is given up, or one of the two things happens that lose it: a
   grant for a refresh token that was no longer the last, or a grant that is not stored.
   */
  lemma RefreshableIff(s: World, a: Action, now: real, u: string)
    requires Enabled(s, a, now) && CanRefresh(s, u)
    ensures CanRefresh(Step(s, a, now), u) <==> !GivesUp(s, a, u) && !StaleGrant(s, a, u) && !UnsavedGrant(s, a, u)
  {
    hide IsExpired, TooOld, NotOf;
    if a.Ask? { hide Step; AskNewest(s, a, now, u); }
    else if a.Replied? { hide Step, StaleGrant; RepliedNewest(s, a, now, u); }
    else if a.Redeemed? { hide Step; RedeemedNewest(s, a, now, u); }
    else if a.Finish? || a.Acquire? || a.Prepared? || a.Cancel? { hide Step; OtherTokens(s, a, now, u); }
  }

  predicate KeepsNewest(s: World, a: Action, u: string) {
    !GivesUp(s, a, u) && !StaleGrant(s, a, u) && !UnsavedGrant(s, a, u)
  }

  /**
   Over any stretch of any run: cache and store hold the refresh token granted last in every
   state of it if and only if none of its steps is one of those.
   */
  lemma {:induction false} StaysRefreshable(states: seq<World>, events: seq<Event>, u: string, j: nat, k: nat)
    requires IsRun(states, events) && j <= k <= |events| && CanRefresh(states[j], u)
    ensures (forall i | j <= i <= k :: CanRefresh(states[i], u)) <==>
      (forall i | j <= i < k :: KeepsNewest(states[i], events[i].action, u))
    decreases k - j
  {
    hide CanRefresh, GivesUp, StaleGrant, UnsavedGrant, Step, Enabled;
    if j < k {
      StaysRefreshable(states, events, u, j, k - 1);
      if forall i | j <= i < k :: CanRefresh(states[i], u) {
        assert CanRefresh(states[k - 1], u);
        RefreshableIff(states[k - 1], events[k - 1].action, events[k - 1].at, u);
        assert CanRefresh(states[k], u) <==> KeepsNewest(states[k - 1], events[k - 1].action, u);
      }
    }
  }

  /** Registering keeps the cached tokens if and only if none are stored or the stored ones are those. */
  lemma RegisterKeepsCacheIff(s: World, u: string, now: real)
    ensures Step(s, Register(u), now).tokens == s.tokens <==>
      u !in s.secrets || (u in s.tokens && s.tokens[u] == s.secrets[u])
  {
    if u in s.secrets && Step(s, Register(u), now).tokens == s.tokens {
      assert s.tokens[u] == s.secrets[u];
    }
  }

  // ---- Both ways to lose the newest refresh token happen ----

  /** The actions can happen one after another at one time, and this is where they lead. */
  ghost predicate Leads(s: World, actions: seq<Action>, now: real, r: World)
    decreases |actions|
  {
    if actions == [] then s == r
    else Enabled(s, actions[0], now) && Leads(Step(s, actions[0], now), actions[1..], now, r)
  }

  /** So there is a run of them. */
  lemma {:induction false} LeadsIsChain(s: World, actions: seq<Action>, now: real, r: World)
      returns (states: seq<World>, events: seq<Event>)
    requires Leads(s, actions, now, r) && now >= 0.0
    ensures IsChain(states, events) && states[0] == s && states[|events|] == r && |events| == |actions|
    ensures forall k | 0 <= k < |events| :: events[k] == Event(now, actions[k])
    decreases |actions|
  {
    if actions == [] {
      states, events := [s], [];
    } else {
      hide Step, Enabled;
      var rest, later := LeadsIsChain(Step(s, actions[0], now), actions[1..], now, r);
      states, events := [s] + rest, [Event(now, actions[0])] + later;
    }
  }

  /** One call and the lock of `u` change. */
  function At(s: World, id: CallId, c: Call, lock: Option<CallId>): (r: World) {
    s.(calls := s.calls[id := c], locks := map["u" := lock])
  }

  const OLD := TokenSet("a0", Some("r0"), Some(900.0))
  const ROTATED := TokenSet("a1", Some("r1"), Some(1030.0))
  const UNROTATED := TokenSet("a2", None, None)

  /** A process that starts with stored tokens that have long expired, and registers their upstream. */
  function Started(): (s: World) {
    World({}, map[], map[], map[], map["u" := OLD], map[], map[], {}, map["u" := "r0"])
  }

  function Loaded(): (s: World) {
    World({"u"}, map["u" := OLD], map[], map[], map["u" := OLD], map[], map[], {}, map["u" := "r0"])
  }

  lemma StartsLoaded()
    ensures Initial(Started()) && Step(Started(), Register("u"), 1000.0) == Loaded()
  {
    assert (map u | u in map["u" := OLD] && map["u" := OLD][u].refresh.Some? :: map["u" := OLD][u].refresh.value) == map["u" := "r0"];
    assert NotOf(map[], "u") == map[];
  }

  lemma AskWaits(s: World, id: CallId)
    requires s.tokens == map["u" := OLD] && id !in s.calls && (s.locks == map[] || s.locks == map["u" := None])
    ensures Enabled(s, Ask(id, "u", None), 1000.0)
    ensures Step(s, Ask(id, "u", None), 1000.0) == At(s, id, Waiting("u", "r0"), None)
  {
  }

  lemma WaitingExchanges(s: World, id: CallId)
    requires "u" in s.tokens && IsExpired(s.tokens["u"], 1000.0) && s.configs == {"u"} && s.locks == map["u" := None]
    requires id in s.calls && s.calls[id] == Waiting("u", "r0")
    ensures Enabled(s, Acquire(id), 1000.0)
    ensures var s1 := Step(s, Acquire(id), 1000.0);
      && Enabled(s1, Prepared(id, true), 1000.0)
      && Step(s1, Prepared(id, true), 1000.0) == At(s, id, Posting("u", "r0"), Some(id))
  {
    var s1 := Step(s, Acquire(id), 1000.0);
    assert s1 == At(s, id, Preparing("u", "r0"), Some(id));
    assert s1.calls[id := Posting("u", "r0")] == s.calls[id := Posting("u", "r0")];
  }

  lemma First(s: World, a: Action, rest: seq<Action>, now: real, r: World)
    requires Enabled(s, a, now) && Leads(Step(s, a, now), rest, now, r)
    ensures Leads(s, [a] + rest, now, r)
  {
    hide Step, Enabled;
    assert ([a] + rest)[1..] == rest;
  }

  /** One caller refreshes: from waiting to the answer of the token endpoint. */
  lemma Refreshes(s: World, id: CallId, t: TokenSet, saved: bool, rest: seq<Action>, r: World)
    requires "u" in s.tokens && IsExpired(s.tokens["u"], 1000.0) && s.configs == {"u"} && s.locks == map["u" := None]
    requires id in s.calls && s.calls[id] == Waiting("u", "r0")
    requires Leads(Step(At(s, id, Posting("u", "r0"), Some(id)), Replied(id, Granted(t, saved)), 1000.0), rest, 1000.0, r)
    ensures Leads(s, [Acquire(id), Prepared(id, true), Replied(id, Granted(t, saved))] + rest, 1000.0, r)
  {
    WaitingExchanges(s, id);
    var s2 := At(s, id, Posting("u", "r0"), Some(id));
    assert Enabled(s2, Replied(id, Granted(t, saved)), 1000.0);
    hide Step, Enabled, Leads, At;
    First(s2, Replied(id, Granted(t, saved)), rest, 1000.0, r);
    First(Step(s, Acquire(id), 1000.0), Prepared(id, true), [Replied(id, Granted(t, saved))] + rest, 1000.0, r);
    First(s, Acquire(id), [Prepared(id, true)] + ([Replied(id, Granted(t, saved))] + rest), 1000.0, r);
    assert [Acquire(id)] + ([Prepared(id, true)] + ([Replied(id, Granted(t, saved))] + rest))
      == [Acquire(id), Prepared(id, true), Replied(id, Granted(t, saved))] + rest;
  }

  lemma Nothing(s: World)
    ensures Leads(s, [], 1000.0, s)
  {
  }

  /** What one refresh makes of memory, store and history. */
  lemma Answered(s: World, id: CallId, t: TokenSet, saved: bool)
    requires id in s.calls && s.calls[id] == Posting("u", "r0") && s.locks == map["u" := Some(id)]
    ensures var r := Step(s, Replied(id, Granted(t, saved)), 1000.0);
      && r.tokens == s.tokens["u" := KeepRefresh(t, "r0")]
      && r.secrets == (if saved then s.secrets["u" := KeepRefresh(t, "r0")] else s.secrets)
      && r.latest == (if t.refresh.Some? then s.latest["u" := t.refresh.value] else s.latest)
      && r.configs == s.configs && r.locks == map["u" := None]
      && r.calls == s.calls[id := Done(if saved then Token(t.access) else Failed)]
  {
  }

  /** A grant that is not stored, and then the next apply of any configuration. */
  const UNSAVED := [Register("u"), Ask(0, "u", None), Acquire(0), Prepared(0, true),
    Replied(0, Granted(ROTATED, false)), Register("u")]

  /** The refresh is granted but not stored, and the next registration loads what is stored. */
  lemma UnsavedReload(s: World) returns (r: World)
    requires s == At(At(Loaded(), 0, Waiting("u", "r0"), None), 0, Posting("u", "r0"), Some(0))
    ensures Leads(Step(s, Replied(0, Granted(ROTATED, false)), 1000.0), [Register("u")] + [], 1000.0, r)
    ensures r.tokens == map["u" := OLD] && r.latest == map["u" := "r1"]
  {
    Answered(s, 0, ROTATED, false);
    var granted := Step(s, Replied(0, Granted(ROTATED, false)), 1000.0);
    assert Enabled(granted, Register("u"), 1000.0);
    r := Step(granted, Register("u"), 1000.0);
    Nothing(r);
    hide Leads;
    First(granted, Register("u"), [], 1000.0, r);
  }

  /** After it the cache is back at a refresh token that the server has replaced. */
  lemma UnsavedGrantHappens() returns (r: World)
    ensures Initial(Started()) && Leads(Started(), UNSAVED, 1000.0, r)
    ensures r.tokens == map["u" := OLD] && r.latest == map["u" := "r1"] && !Newest(r.tokens, r.latest, "u")
  {
    StartsLoaded();
    AskWaits(Loaded(), 0);
    var waiting := At(Loaded(), 0, Waiting("u", "r0"), None);
    assert Enabled(Started(), Register("u"), 1000.0);
    hide Step, Enabled, Leads;
    r := UnsavedReload(At(waiting, 0, Posting("u", "r0"), Some(0)));
    Refreshes(waiting, 0, ROTATED, false, [Register("u")] + [], r);
    var tail := [Acquire(0), Prepared(0, true), Replied(0, Granted(ROTATED, false))] + ([Register("u")] + []);
    First(Loaded(), Ask(0, "u", None), tail, 1000.0, r);
    First(Started(), Register("u"), [Ask(0, "u", None)] + tail, 1000.0, r);
    assert [Register("u")] + ([Ask(0, "u", None)] + tail) == UNSAVED;
  }

  /** A second caller waits behind the first; the server rotates for the first and not for the second. */
  const STALE := [Register("u"), Ask(0, "u", None), Acquire(0), Prepared(0, true), Ask(1, "u", None),
    Replied(0, Granted(ROTATED, true)), Acquire(1), Prepared(1, true), Replied(1, Granted(UNROTATED, true))]

  lemma SecondRefresh(s: World) returns (r: World)
    requires s.tokens == map["u" := ROTATED] && s.configs == {"u"} && s.locks == map["u" := None]
    requires 1 in s.calls && s.calls[1] == Waiting("u", "r0")
    ensures Leads(s, [Acquire(1), Prepared(1, true), Replied(1, Granted(UNROTATED, true))], 1000.0, r)
    ensures "u" in r.tokens && r.tokens["u"].refresh == Some("r0") && r.latest == s.latest
    ensures "u" in r.secrets && r.secrets["u"] == r.tokens["u"]
  {
    var again := At(s, 1, Posting("u", "r0"), Some(1));
    Answered(again, 1, UNROTATED, true);
    r := Step(again, Replied(1, Granted(UNROTATED, true)), 1000.0);
    Nothing(r);
    hide Step, Leads;
    Refreshes(s, 1, UNROTATED, true, [], r);
    assert [Acquire(1), Prepared(1, true), Replied(1, Granted(UNROTATED, true))] + []
      == [Acquire(1), Prepared(1, true), Replied(1, Granted(UNROTATED, true))];
  }

  function FirstWaits(): (s: World) {
    At(Loaded(), 0, Waiting("u", "r0"), None)
  }

  function FirstPosts(): (s: World) {
    At(FirstWaits(), 0, Posting("u", "r0"), Some(0))
  }

  function SecondWaits(): (s: World) {
    At(FirstPosts(), 1, Waiting("u", "r0"), Some(0))
  }

  lemma AskBehind()
    ensures Enabled(FirstPosts(), Ask(1, "u", None), 1000.0)
    ensures Step(FirstPosts(), Ask(1, "u", None), 1000.0) == SecondWaits()
  {
    assert FirstPosts().locks["u" := Some(0)] == FirstPosts().locks;
  }

  /** From the start to the two callers. */
  lemma BothAsk(rest: seq<Action>, r: World)
    requires Leads(SecondWaits(), rest, 1000.0, r)
    ensures Leads(Started(), [Register("u")] + ([Ask(0, "u", None)] + ([Acquire(0)] + ([Prepared(0, true)]
      + ([Ask(1, "u", None)] + rest)))), 1000.0, r)
  {
    AskBehind();
    AskWaits(Loaded(), 0);
    WaitingExchanges(FirstWaits(), 0);
    StartsLoaded();
    assert Enabled(Started(), Register("u"), 1000.0);
    hide Step, Enabled, Leads, At;
    var more := [Ask(1, "u", None)] + rest;
    First(FirstPosts(), Ask(1, "u", None), rest, 1000.0, r);
    First(Step(FirstWaits(), Acquire(0), 1000.0), Prepared(0, true), more, 1000.0, r);
    First(FirstWaits(), Acquire(0), [Prepared(0, true)] + more, 1000.0, r);
    First(Loaded(), Ask(0, "u", None), [Acquire(0)] + ([Prepared(0, true)] + more), 1000.0, r);
    First(Started(), Register("u"), [Ask(0, "u", None)] + ([Acquire(0)] + ([Prepared(0, true)] + more)), 1000.0, r);
  }

  /** The first caller is granted a new refresh token while the second waits. */
  lemma FirstRotates() returns (r: World)
    ensures Enabled(SecondWaits(), Replied(0, Granted(ROTATED, true)), 1000.0)
    ensures r == Step(SecondWaits(), Replied(0, Granted(ROTATED, true)), 1000.0)
    ensures r.tokens == map["u" := ROTATED] && r.configs == {"u"} && r.locks == map["u" := None]
    ensures 1 in r.calls && r.calls[1] == Waiting("u", "r0") && r.latest == map["u" := "r1"]
  {
    r := Step(SecondWaits(), Replied(0, Granted(ROTATED, true)), 1000.0);
    Answered(SecondWaits(), 0, ROTATED, true);
    hide Step;
  }

  /** After it the replaced refresh token is cached and stored again. */
  lemma StaleGrantHappens() returns (r: World)
    ensures Initial(Started()) && Leads(Started(), STALE, 1000.0, r)
    ensures "u" in r.tokens && r.tokens["u"].refresh == Some("r0") && r.latest == map["u" := "r1"]
    ensures "u" in r.secrets && r.secrets["u"] == r.tokens["u"] && !Newest(r.tokens, r.latest, "u")
  {
    hide Step, Enabled, Leads, Initial, At;
    StartsLoaded();
    var last := [Acquire(1), Prepared(1, true), Replied(1, Granted(UNROTATED, true))];
    var rotated := FirstRotates();
    r := SecondRefresh(rotated);
    First(SecondWaits(), Replied(0, Granted(ROTATED, true)), last, 1000.0, r);
    BothAsk([Replied(0, Granted(ROTATED, true))] + last, r);
    StaleIs(last);
  }

  lemma StaleIs(last: seq<Action>)
    requires last == [Acquire(1), Prepared(1, true), Replied(1, Granted(UNROTATED, true))]
    ensures [Register("u")] + ([Ask(0, "u", None)] + ([Acquire(0)] + ([Prepared(0, true)] + ([Ask(1, "u", None)]
      + ([Replied(0, Granted(ROTATED, true))] + last))))) == STALE
  {
  }
}
