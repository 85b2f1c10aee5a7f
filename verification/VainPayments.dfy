/**
 When an upstream can pay for requests that are then refused for their client, over any run of
 requests, reloads and evictions: src/mcpxy_proxy/policy/engine.py, lines 92 to 102 and 183 to 248.
 */
module VainPayments {
  import opened Prelude
  import opened TokenBuckets
  import opened PolicyEngines
  import opened RateLimiting
  import opened DeniedRequests

  /** The upstream's bucket of `u` is never fuller than that of any of its clients. */
  ghost predicate UpstreamFirst(e: Engine, u: string, limit: Limit, now: real) {
    forall c: string :: Ready(e, UpKey(u), limit, now) <= Ready(e, Key(u, PerClient, c), limit, now)
  }

  function UpKey(u: string): (k: Key) {
    Key(u, PerUpstream, "-")
  }

  function OwnKey(r: Request): (k: Key) {
    Key(r.upstream, PerClient, ClientName(r.client))
  }

  // ---- The steps that make the upstream's bucket the fuller one ----

  /** Size and method pass, and there is a limit. */
  predicate Reaches(e: Engine, r: Request, glob: Glob) {
    var p := Resolve(e.config, r.upstream);
    && p.limit.Some?
    && (p.size.Some? ==> r.bytes <= p.size.value)
    && (p.methods.Some? ==> MethodAllowed(p.methods.value, r.called, glob))
  }

  /** With the same rate and burst on clients alone, the client's bucket falls below the upstream's. */
  predicate ChargesClientAlone(e: Engine, r: Request, limit: Limit) {
    var own := Ready(e, OwnKey(r), limit, r.now);
    own >= 1.0 && Ready(e, UpKey(r.upstream), limit, r.now) > own - 1.0
  }

  /** Under another rate or burst the client's bucket is made anew too. */
  predicate RemakesClient(e: Engine, r: Request, theirs: Limit) {
    theirs.scope == Both && Ready(e, UpKey(r.upstream), theirs, r.now) >= 1.0
  }

  /** Under another rate or burst the upstream's bucket is made anew, while that of some client stays as empty as it is. */
  ghost predicate RemakesUpstream(e: Engine, r: Request, theirs: Limit, limit: Limit) {
    exists c: string ::
      && (RemakesClient(e, r, theirs) ==> c != ClientName(r.client))
      && Ready(e, Key(r.upstream, PerClient, c), limit, r.now) < limit.burst as real
  }

  /**
   The step is a request to `u` that takes from buckets under a limit of another rate, burst or
   scope than `limit`, in one of these two ways.
   */
  ghost predicate Overtakes(e: Engine, ev: Event, u: string, limit: Limit, glob: Glob) {
    && ev.Ask? && ev.request.upstream == u && Reaches(e, ev.request, glob)
    && var theirs := Resolve(e.config, u).limit.value;
    if theirs.rate == limit.rate && theirs.burst == limit.burst
    then theirs.scope == ClientOnly && ChargesClientAlone(e, ev.request, limit)
    else theirs.scope != ClientOnly && RemakesUpstream(e, ev.request, theirs, limit)
  }

  /** Ready tokens grow with time in the same way in every bucket. */
  lemma ReadyLater(e: Engine, key: Key, limit: Limit, from: real, to: real)
    requires Consistent(e, from) && limit.rate > 0.0 && limit.burst > 0 && from <= to
    ensures Ready(e, key, limit, to) == Min(limit.burst as real, Ready(e, key, limit, from) + Accrued(to - from, limit.rate))
  {
    BucketForKeeps(e, key, limit, from);
    var b := BucketFor(e, key, limit);
    hide BucketFor;
    RefillComposes(b, from, to);
    RefillKeeps(b, from);
    Grows(to - from, limit.rate);
  }

  lemma FirstLater(e: Engine, u: string, limit: Limit, from: real, to: real)
    requires Consistent(e, from) && limit.rate > 0.0 && limit.burst > 0 && from <= to && UpstreamFirst(e, u, limit, from)
    ensures UpstreamFirst(e, u, limit, to)
  {
    hide Ready, Accrued, Consistent;
    ReadyLater(e, UpKey(u), limit, from, to);
    forall c: string
      ensures Ready(e, UpKey(u), limit, to) <= Ready(e, Key(u, PerClient, c), limit, to)
    {
      ReadyLater(e, Key(u, PerClient, c), limit, from, to);
    }
  }

  lemma ReadyApart(e: Engine, r: Request, theirs: Limit, key: Key, limit: Limit)
    requires key.upstream != r.upstream
    ensures Ready(TakeAll(e, Keys(theirs, r.upstream, r.client), theirs, r.now).0, key, limit, r.now)
      == Ready(e, key, limit, r.now)
  {
    hide TakeAll;
    TakeAllApart(e, Keys(theirs, r.upstream, r.client), key, theirs, r.now);
  }

  lemma CheckTakes(e: Engine, r: Request, glob: Glob)
    ensures Check(e, r, glob).0 ==
      if Reaches(e, r, glob) then
        var limit := Resolve(e.config, r.upstream).limit.value;
        TakeAll(e, Keys(limit, r.upstream, r.client), limit, r.now).0
      else e
  {
    hide TakeAll, Keys, MethodAllowed;
  }

  lemma SameTake(e: Engine, key: Key, a: Limit, b: Limit, now: real)
    requires a.rate == b.rate && a.burst == b.burst
    ensures TakeAt(e, key, a, now) == TakeAt(e, key, b, now)
  {
    hide Take;
  }

  /** Only rate and burst of a limit matter to what is taken. */
  lemma {:induction false} SameTakes(e: Engine, keys: seq<Key>, a: Limit, b: Limit, now: real)
    requires a.rate == b.rate && a.burst == b.burst
    ensures TakeAll(e, keys, a, now) == TakeAll(e, keys, b, now)
    decreases |keys|
  {
    hide TakeAt;
    if keys != [] {
      SameTake(e, keys[0], a, b, now);
      SameTakes(TakeAt(e, keys[0], a, now).0, keys[1..], a, b, now);
    }
  }

  /** What the two takes of one request leave in the upstream's bucket and in that of any client. */
  lemma TwoTakes(e: Engine, up: Key, own: Key, other: Key, limit: Limit, now: real)
    requires Consistent(e, now) && limit.rate > 0.0 && limit.burst > 0
    requires up.scope == PerUpstream && own.scope == PerClient && other.scope == PerClient
    requires Ready(e, up, limit, now) <= Ready(e, own, limit, now) && Ready(e, up, limit, now) <= Ready(e, other, limit, now)
    ensures var f := TakeAll(e, [up, own], limit, now).0; Ready(f, up, limit, now) <= Ready(f, other, limit, now)
  {
    hide Ready, TakeAt, Consistent;
    var e1 := TakeAt(e, up, limit, now).0;
    assert [up, own][1..] == [own];
    TakeAllOne(e1, own, limit, now);
    TakeAtReadyIff(e, up, limit, now);
    TakeAtReady(e, up, up, limit, now);
    TakeAtReady(e, up, own, limit, now);
    TakeAtReady(e, up, other, limit, now);
    TakeAtKeeps(e, up, limit, now);
    TakeAtReadyIff(e1, own, limit, now);
    TakeAtReady(e1, own, up, limit, now);
    TakeAtReady(e1, own, other, limit, now);
  }

  /** A take from one client's bucket. */
  lemma OneClientTake(e: Engine, r: Request, limit: Limit)
    requires Consistent(e, r.now) && limit.rate > 0.0 && limit.burst > 0 && UpstreamFirst(e, r.upstream, limit, r.now)
    ensures UpstreamFirst(TakeAll(e, [OwnKey(r)], limit, r.now).0, r.upstream, limit, r.now) <==> !ChargesClientAlone(e, r, limit)
  {
    hide Ready, TakeAt, Consistent;
    var own, up := OwnKey(r), UpKey(r.upstream);
    TakeAllOne(e, own, limit, r.now);
    TakeAtReadyIff(e, own, limit, r.now);
    var f := TakeAt(e, own, limit, r.now).0;
    TakeAtReady(e, own, up, limit, r.now);
    forall c: string
      ensures Ready(f, Key(r.upstream, PerClient, c), limit, r.now) == Ready(e, Key(r.upstream, PerClient, c), limit, r.now)
        - (if TakeAt(e, own, limit, r.now).1 && Key(r.upstream, PerClient, c) == own then 1.0 else 0.0)
    {
      TakeAtReady(e, own, Key(r.upstream, PerClient, c), limit, r.now);
    }
    assert own == Key(r.upstream, PerClient, ClientName(r.client));
  }

  lemma UpstreamTake(e: Engine, u: string, limit: Limit, now: real)
    requires Consistent(e, now) && limit.rate > 0.0 && limit.burst > 0 && UpstreamFirst(e, u, limit, now)
    ensures UpstreamFirst(TakeAll(e, [UpKey(u)], limit, now).0, u, limit, now)
  {
    hide Ready, TakeAt, Consistent;
    TakeAllOne(e, UpKey(u), limit, now);
    var f := TakeAt(e, UpKey(u), limit, now).0;
    TakeAtReady(e, UpKey(u), UpKey(u), limit, now);
    forall c: string ensures Ready(f, UpKey(u), limit, now) <= Ready(f, Key(u, PerClient, c), limit, now) {
      TakeAtReady(e, UpKey(u), Key(u, PerClient, c), limit, now);
    }
  }

  lemma BothTake(e: Engine, r: Request, limit: Limit)
    requires Consistent(e, r.now) && limit.rate > 0.0 && limit.burst > 0 && UpstreamFirst(e, r.upstream, limit, r.now)
    ensures UpstreamFirst(TakeAll(e, [UpKey(r.upstream), OwnKey(r)], limit, r.now).0, r.upstream, limit, r.now)
  {
    hide Ready, TakeAll, Consistent;
    var f := TakeAll(e, [UpKey(r.upstream), OwnKey(r)], limit, r.now).0;
    forall c: string
      ensures Ready(f, UpKey(r.upstream), limit, r.now) <= Ready(f, Key(r.upstream, PerClient, c), limit, r.now)
    {
      assert Ready(e, UpKey(r.upstream), limit, r.now) <= Ready(e, Key(r.upstream, PerClient, ClientName(r.client)), limit, r.now);
      TwoTakes(e, UpKey(r.upstream), OwnKey(r), Key(r.upstream, PerClient, c), limit, r.now);
    }
  }

  lemma KeysAre(limit: Limit, r: Request)
    ensures Keys(limit, r.upstream, r.client) ==
      match limit.scope
      case Both => [UpKey(r.upstream), OwnKey(r)]
      case UpstreamOnly => [UpKey(r.upstream)]
      case ClientOnly => [OwnKey(r)]
  {
  }

  /** Under a limit with the same rate and burst. */
  lemma SameLimitFirstIff(e: Engine, r: Request, theirs: Limit, limit: Limit)
    requires Consistent(e, r.now) && limit.rate > 0.0 && limit.burst > 0 && UpstreamFirst(e, r.upstream, limit, r.now)
    requires theirs.rate == limit.rate && theirs.burst == limit.burst
    ensures UpstreamFirst(TakeAll(e, Keys(theirs, r.upstream, r.client), theirs, r.now).0, r.upstream, limit, r.now)
      <==> !(theirs.scope == ClientOnly && ChargesClientAlone(e, r, limit))
  {
    hide Ready, TakeAll, Consistent, UpstreamFirst, Keys, ChargesClientAlone;
    KeysAre(theirs, r);
    SameTakes(e, Keys(theirs, r.upstream, r.client), theirs, limit, r.now);
    match theirs.scope
    case Both => BothTake(e, r, limit);
    case UpstreamOnly => UpstreamTake(e, r.upstream, limit, r.now);
    case ClientOnly => OneClientTake(e, r, limit);
  }

  /** A take under another rate or burst: the bucket no longer matches, and counts as full. */
  lemma RemadeAt(e: Engine, at: Key, key: Key, theirs: Limit, limit: Limit, now: real)
    requires Consistent(e, now) && theirs.rate > 0.0 && theirs.burst > 0
    requires theirs.rate != limit.rate || theirs.burst != limit.burst
    ensures Ready(TakeAt(e, at, theirs, now).0, key, limit, now) ==
      if key == at then limit.burst as real else Ready(e, key, limit, now)
  {
    hide Refill;
    BucketForKeeps(e, at, theirs, now);
    TakeKeeps(BucketFor(e, at, theirs), now);
    FullIsFull(limit, now);
  }

  /** The keys whose buckets a request makes anew under another rate or burst. */
  function Remade(e: Engine, r: Request, theirs: Limit): (ks: set<Key>) {
    (if theirs.scope != ClientOnly then {UpKey(r.upstream)} else {})
    + (if theirs.scope == ClientOnly || RemakesClient(e, r, theirs) then {OwnKey(r)} else {})
  }

  lemma RemadeAre(e: Engine, r: Request, theirs: Limit, limit: Limit, key: Key)
    requires Consistent(e, r.now) && theirs.rate > 0.0 && theirs.burst > 0
    requires theirs.rate != limit.rate || theirs.burst != limit.burst
    ensures Ready(TakeAll(e, Keys(theirs, r.upstream, r.client), theirs, r.now).0, key, limit, r.now) ==
      if key in Remade(e, r, theirs) then limit.burst as real else Ready(e, key, limit, r.now)
  {
    hide Ready, TakeAt, Consistent, Keys;
    KeysAre(theirs, r);
    var first := Keys(theirs, r.upstream, r.client)[0];
    RemadeAt(e, first, key, theirs, limit, r.now);
    TakeAtReadyIff(e, first, theirs, r.now);
    var e1 := TakeAt(e, first, theirs, r.now).0;
    if theirs.scope == Both {
      assert [UpKey(r.upstream), OwnKey(r)][1..] == [OwnKey(r)];
      TakeAtKeeps(e, first, theirs, r.now);
      TakeAllOne(e1, OwnKey(r), theirs, r.now);
      RemadeAt(e1, OwnKey(r), key, theirs, limit, r.now);
    } else {
      TakeAllOne(e, first, theirs, r.now);
    }
  }

  /** Under a limit with another rate or burst. */
  lemma OtherLimitFirstIff(e: Engine, r: Request, theirs: Limit, limit: Limit)
    requires Consistent(e, r.now) && limit.rate > 0.0 && limit.burst > 0 && UpstreamFirst(e, r.upstream, limit, r.now)
    requires theirs.rate > 0.0 && theirs.burst > 0
    requires theirs.rate != limit.rate || theirs.burst != limit.burst
    ensures UpstreamFirst(TakeAll(e, Keys(theirs, r.upstream, r.client), theirs, r.now).0, r.upstream, limit, r.now)
      <==> !(theirs.scope != ClientOnly && RemakesUpstream(e, r, theirs, limit))
  {
    hide Ready, TakeAll, Consistent, Keys, RemakesClient;
    var f := TakeAll(e, Keys(theirs, r.upstream, r.client), theirs, r.now).0;
    var u, full := r.upstream, limit.burst as real;
    RemadeAre(e, r, theirs, limit, UpKey(u));
    ReadyGrows(e, UpKey(u), limit, r.now, r.now);
    forall c: string
      ensures Ready(f, Key(u, PerClient, c), limit, r.now) ==
        if Key(u, PerClient, c) in Remade(e, r, theirs) then full else Ready(e, Key(u, PerClient, c), limit, r.now)
      ensures Ready(e, Key(u, PerClient, c), limit, r.now) <= full
    {
      RemadeAre(e, r, theirs, limit, Key(u, PerClient, c));
      ReadyGrows(e, Key(u, PerClient, c), limit, r.now, r.now);
    }
    if theirs.scope != ClientOnly && RemakesUpstream(e, r, theirs, limit) {
      var c: string :| (RemakesClient(e, r, theirs) ==> c != ClientName(r.client))
        && Ready(e, Key(u, PerClient, c), limit, r.now) < full;
      assert Ready(f, Key(u, PerClient, c), limit, r.now) < Ready(f, UpKey(u), limit, r.now);
    }
  }

  lemma AskFirstIff(e: Engine, r: Request, u: string, limit: Limit, glob: Glob)
    requires Consistent(e, r.now) && ValidConfig(e.config) && limit.rate > 0.0 && limit.burst > 0
    requires UpstreamFirst(e, u, limit, r.now)
    ensures UpstreamFirst(Check(e, r, glob).0, u, limit, r.now) <==> !Overtakes(e, Ask(r), u, limit, glob)
  {
    hide Ready, TakeAll, Consistent, Keys, Check, Reaches, RemakesUpstream, ChargesClientAlone;
    CheckTakes(e, r, glob);
    if Reaches(e, r, glob) {
      assert Resolve(e.config, r.upstream).limit.Some? by { ReachesLimit(e, r, glob); }
      var theirs := Resolve(e.config, r.upstream).limit.value;
      if r.upstream != u {
        var f := Check(e, r, glob).0;
        forall c: string ensures Ready(f, UpKey(u), limit, r.now) <= Ready(f, Key(u, PerClient, c), limit, r.now) {
          ReadyApart(e, r, theirs, UpKey(u), limit);
          ReadyApart(e, r, theirs, Key(u, PerClient, c), limit);
        }
      } else {
        hide UpstreamFirst;
        if theirs.rate == limit.rate && theirs.burst == limit.burst {
          SameLimitFirstIff(e, r, theirs, limit);
        } else {
          OtherLimitFirstIff(e, r, theirs, limit);
        }
      }
    }
  }

  lemma ReachesLimit(e: Engine, r: Request, glob: Glob)
    requires Reaches(e, r, glob)
    ensures Resolve(e.config, r.upstream).limit.Some?
  {
  }

  lemma FirstEvict(e: Engine, u: string, limit: Limit, now: real, idle: real)
    requires Consistent(e, now) && limit.rate > 0.0 && limit.burst > 0 && UpstreamFirst(e, u, limit, now)
    ensures UpstreamFirst(Evict(e, now, idle), u, limit, now)
  {
    hide Refill;
    var up := UpKey(u);
    var f := Evict(e, now, idle);
    assert BucketFor(f, up, limit) == BucketFor(e, up, limit);
    forall c: string ensures Ready(f, up, limit, now) <= Ready(f, Key(u, PerClient, c), limit, now) {
      var own := Key(u, PerClient, c);
      if own in e.buckets && own !in f.buckets {
        BucketForKeeps(e, up, limit, now);
        RefillKeeps(BucketFor(e, up, limit), now);
        FullIsFull(limit, now);
      } else {
        assert BucketFor(f, own, limit) == BucketFor(e, own, limit);
      }
    }
  }

  lemma FullIsFull(limit: Limit, now: real)
    ensures Refill(Full(limit.rate, limit.burst), now).tokens == limit.burst as real
  {
  }

  /** One step of any kind. */
  lemma StepFirstIff(e: Engine, ev: Event, u: string, limit: Limit, glob: Glob)
    requires Consistent(e, Time(ev)) && ValidConfig(e.config) && limit.rate > 0.0 && limit.burst > 0
    requires UpstreamFirst(e, u, limit, Time(ev))
    ensures UpstreamFirst(Step(e, ev, glob), u, limit, Time(ev)) <==> !Overtakes(e, ev, u, limit, glob)
  {
    match ev {
      case Ask(r) =>
        hide Check, UpstreamFirst, Overtakes;
        AskFirstIff(e, r, u, limit, glob);
      case Reload(c, at) => ReplaceFirst(e, c, u, limit, at);
      case EvictIdle(now, idle) => FirstEvict(e, u, limit, now, idle);
    }
  }

  /** A reload keeps every bucket, or makes all of them full. */
  lemma ReplaceFirst(e: Engine, c: Config, u: string, limit: Limit, now: real)
    requires UpstreamFirst(e, u, limit, now)
    ensures UpstreamFirst(Replace(e, c), u, limit, now)
  {
    hide Refill;
    if !NoPolicy(c) {
      assert forall k :: BucketFor(Replace(e, c), k, limit) == BucketFor(e, k, limit);
    } else {
      assert forall k :: BucketFor(Replace(e, c), k, limit) == Full(limit.rate, limit.burst);
    }
  }

  // ---- Over whole runs ----

  /** After every step of the run the upstream's bucket is no fuller than any client's. */
  ghost predicate AlwaysFirst(e: Engine, run: seq<Event>, u: string, limit: Limit, glob: Glob)
    decreases |run|
  {
    run == [] ||
    (UpstreamFirst(Step(e, run[0], glob), u, limit, Time(run[0])) && AlwaysFirst(Step(e, run[0], glob), run[1..], u, limit, glob))
  }

  ghost predicate NeverOvertakes(e: Engine, run: seq<Event>, u: string, limit: Limit, glob: Glob)
    decreases |run|
  {
    run == [] || (!Overtakes(e, run[0], u, limit, glob) && NeverOvertakes(Step(e, run[0], glob), run[1..], u, limit, glob))
  }

  /** No request that is checked against `limit` makes `u` pay in vain. */
  ghost predicate NoneInVain(e: Engine, run: seq<Event>, u: string, limit: Limit, glob: Glob)
    decreases |run|
  {
    run == [] ||
    ((run[0].Ask? && run[0].request.upstream == u && Resolve(e.config, u).limit == Some(limit) ==>
        !PaysInVain(e, run[0].request, limit, glob))
      && NoneInVain(Step(e, run[0], glob), run[1..], u, limit, glob))
  }

  lemma FirstPaysNot(e: Engine, r: Request, limit: Limit, glob: Glob)
    requires UpstreamFirst(e, r.upstream, limit, r.now)
    ensures !PaysInVain(e, r, limit, glob)
  {
    hide Ready, Resolve;
    assert Ready(e, UpKey(r.upstream), limit, r.now) <= Ready(e, Key(r.upstream, PerClient, ClientName(r.client)), limit, r.now);
  }

  /**
   In any run, whatever is reloaded and evicted: measured by `limit`, the upstream's bucket is no
   fuller than any of its clients' after every step if and only if no step overtakes; and as long
   as none does, no request that is checked against `limit` makes the upstream pay in vain.
   */
  lemma {:induction false} AlwaysFirstIff(e: Engine, run: seq<Event>, u: string, limit: Limit, from: real, glob: Glob)
    requires Consistent(e, from) && ValidRun(e, run) && InOrder(run, from)
    requires limit.rate > 0.0 && limit.burst > 0 && UpstreamFirst(e, u, limit, from)
    ensures AlwaysFirst(e, run, u, limit, glob) <==> NeverOvertakes(e, run, u, limit, glob)
    ensures NeverOvertakes(e, run, u, limit, glob) ==> NoneInVain(e, run, u, limit, glob)
    decreases |run|
  {
    hide Consistent, Step, PaysInVain, UpstreamFirst, Resolve, Overtakes;
    if run != [] {
      var ev := run[0];
      Later(e, from, Time(ev));
      ValidSplit(e, run, glob);
      StepKeeps(e, ev, from, glob);
      FirstLater(e, u, limit, from, Time(ev));
      StepFirstIff(e, ev, u, limit, glob);
      if ev.Ask? && ev.request.upstream == u { FirstPaysNot(e, ev.request, limit, glob); }
      if UpstreamFirst(Step(e, ev, glob), u, limit, Time(ev)) {
        AlwaysFirstIff(Step(e, ev, glob), run[1..], u, limit, Time(ev), glob);
      }
    }
  }

  /**
   In particular no request makes the upstream pay in vain as long as its limit stays the same,
   with both scopes: rate, burst and scope.
   */
  lemma {:induction false} NeverInVain(e: Engine, run: seq<Event>, u: string, limit: Limit, from: real, glob: Glob)
    requires Consistent(e, from) && ValidRun(e, run) && InOrder(run, from)
    requires InForce(e, run, UpKey(u), limit) && limit.scope == Both
    requires UpstreamFirst(e, u, limit, from)
    ensures NoneInVain(e, run, u, limit, glob)
  {
    hide Consistent, UpstreamFirst, NoneInVain, NeverOvertakes;
    assert limit.rate > 0.0 && limit.burst > 0 by { LimitValid(e, UpKey(u), limit, run); }
    SameNeverOvertakes(e, run, u, limit, glob);
    AlwaysFirstIff(e, run, u, limit, from, glob);
  }

  lemma {:induction false} SameNeverOvertakes(e: Engine, run: seq<Event>, u: string, limit: Limit, glob: Glob)
    requires InForce(e, run, UpKey(u), limit) && limit.scope == Both
    ensures NeverOvertakes(e, run, u, limit, glob)
    decreases |run|
  {
    hide Step, Resolve, Reaches;
    if run != [] {
      InForceStep(e, run, UpKey(u), limit, glob);
      SameNeverOvertakes(Step(e, run[0], glob), run[1..], u, limit, glob);
    }
  }

  lemma LimitValid(e: Engine, key: Key, limit: Limit, run: seq<Event>)
    requires ValidConfig(e.config) && InForce(e, run, key, limit)
    ensures limit.rate > 0.0 && limit.burst > 0
  {
  }

  // ---- Both ways to overtake happen ----

  /** A limit of one request a second, first on clients alone, then on both. */
  function OneASecond(scope: LimitScope): (c: Config) {
    Config(Some(Policies(None, Some(Limit(1.0, 1, scope)), None)), map[])
  }

  const ASKED := Request("u", None, 0, Some("c"), 0.0)

  /** Such a change of scope, between two requests of one client, makes the upstream pay in vain. */
  lemma ScopeChangePaysInVain(glob: Glob)
    ensures var e0 := Engine(OneASecond(ClientOnly), map[], map[]);
      var e1 := Check(e0, ASKED, glob).0;
      var e2 := Replace(e1, OneASecond(Both));
      && Check(e0, ASKED, glob).1 == Allow
      && Consistent(e2, 0.0) && ValidConfig(e2.config)
      && Check(e2, ASKED, glob).1 == Deny(RateLimited(PerClient))
      && PaysInVain(e2, ASKED, Limit(1.0, 1, Both), glob)
      && !Untouched(e2, Check(e2, ASKED, glob).0, "u", Limit(1.0, 1, Both), 0.0)
  {
    var e0 := Engine(OneASecond(ClientOnly), map[], map[]);
    var before, after := Limit(1.0, 1, ClientOnly), Limit(1.0, 1, Both);
    var own := Key("u", PerClient, "c");
    assert Keys(before, "u", Some("c")) == [own];
    TakeAllOne(e0, own, before, 0.0);
    var e1 := Check(e0, ASKED, glob).0;
    assert e1.buckets == map[own := Bucket(1.0, 1, 0.0, Some(0.0))] && e1.lastAccess == map[own := 0.0];
    var e2 := Replace(e1, OneASecond(Both));
    assert Resolve(e2.config, "u").limit == Some(after);
    assert Consistent(e2, 0.0) && ValidConfig(e2.config);
    assert Ready(e2, own, after, 0.0) == 0.0 && Ready(e2, Key("u", PerUpstream, "-"), after, 0.0) == 1.0;
    hide Check, Untouched, Consistent, ValidConfig, Ready, Resolve;
    assert PaysInVain(e2, ASKED, after, glob) by { NothingElse(e2, after, glob); }
    hide PaysInVain;
    DeniedForClientIff(e2, ASKED, after, glob);
    DeniedRequestUntouchedIff(e2, ASKED, after, glob);
  }

  lemma NothingElse(e: Engine, limit: Limit, glob: Glob)
    requires e.config == OneASecond(Both) && limit == Limit(1.0, 1, Both)
    requires Ready(e, Key("u", PerUpstream, "-"), limit, 0.0) >= 1.0 && Ready(e, Key("u", PerClient, "c"), limit, 0.0) < 1.0
    ensures PaysInVain(e, ASKED, limit, glob)
  {
    hide Ready;
  }

  // ---- The same with a change of rate, the scope being both throughout ----

  function OneToken(rate: real): (l: Limit) {
    Limit(rate, 1, Both)
  }

  function Rated(rate: real): (c: Config) {
    Config(Some(Policies(None, Some(OneToken(rate)), None)), map[])
  }

  function AskedBy(client: string): (r: Request) {
    Request("u", None, 0, Some(client), 0.0)
  }

  lemma RatedLimits(e: Engine, rate: real, client: string, glob: Glob)
    requires e.config == Rated(rate) && rate > 0.0
    ensures ValidConfig(e.config) && Resolve(e.config, "u").limit == Some(OneToken(rate)) && Reaches(e, AskedBy(client), glob)
    ensures Check(e, AskedBy(client), glob) == TakeAll(e, [UpKey("u"), OwnKey(AskedBy(client))], OneToken(rate), 0.0)
  {
    KeysAre(OneToken(rate), AskedBy(client));
    hide TakeAll, Keys;
  }

  /** A first request empties its client's bucket. */
  lemma FirstEmpties(client: string, glob: Glob)
    ensures var e := Check(Engine(Rated(1.0), map[], map[]), AskedBy(client), glob).0;
      && Consistent(e, 0.0) && e.config == Rated(1.0)
      && Ready(e, OwnKey(AskedBy(client)), OneToken(1.0), 0.0) == 0.0
  {
    var e0 := Engine(Rated(1.0), map[], map[]);
    var limit, up, own := OneToken(1.0), UpKey("u"), OwnKey(AskedBy(client));
    assert Consistent(e0, 0.0);
    assert Ready(e0, up, limit, 0.0) == 1.0 && Ready(e0, own, limit, 0.0) == 1.0;
    RatedLimits(e0, 1.0, client, glob);
    CheckKeepsConfig(e0, AskedBy(client), glob);
    hide Ready, TakeAt, Consistent, Check;
    assert [up, own][1..] == [own];
    var e1 := TakeAt(e0, up, limit, 0.0).0;
    TakeAtReadyIff(e0, up, limit, 0.0);
    TakeAtReady(e0, up, own, limit, 0.0);
    TakeAtKeeps(e0, up, limit, 0.0);
    TakeAllOne(e1, own, limit, 0.0);
    TakeAtReadyIff(e1, own, limit, 0.0);
    TakeAtReady(e1, own, own, limit, 0.0);
    TakeAtKeeps(e1, own, limit, 0.0);
  }

  /** Under another rate a request of another client makes the upstream's bucket anew, and leaves the first client's. */
  lemma OtherRateRemakes(e: Engine, glob: Glob)
    requires Consistent(e, 0.0) && e.config == Rated(2.0)
    ensures var f := Check(e, AskedBy("c1"), glob).0;
      && Consistent(f, 0.0)
      && Ready(f, UpKey("u"), OneToken(1.0), 0.0) == 1.0
      && Ready(f, OwnKey(AskedBy("c2")), OneToken(1.0), 0.0) == Ready(e, OwnKey(AskedBy("c2")), OneToken(1.0), 0.0)
  {
    var r := AskedBy("c1");
    RatedLimits(e, 2.0, "c1", glob);
    KeysAre(OneToken(2.0), r);
    hide Ready, Consistent, Check, TakeAll, Keys;
    TakeAllKeeps(e, Keys(OneToken(2.0), "u", r.client), OneToken(2.0), 0.0);
    RemadeAre(e, r, OneToken(2.0), OneToken(1.0), UpKey("u"));
    RemadeAre(e, r, OneToken(2.0), OneToken(1.0), OwnKey(AskedBy("c2")));
  }

  lemma ReloadReady(e: Engine, rate: real, key: Key, limit: Limit)
    requires Consistent(e, 0.0)
    ensures Consistent(Replace(e, Rated(rate)), 0.0) && Replace(e, Rated(rate)).config == Rated(rate)
    ensures Ready(Replace(e, Rated(rate)), key, limit, 0.0) == Ready(e, key, limit, 0.0)
  {
    hide Refill;
  }

  /** Two changes of rate, with a request of another client in between, make the upstream pay in vain as well. */
  lemma RateChangePaysInVain(glob: Glob)
    ensures var e1 := Check(Engine(Rated(1.0), map[], map[]), AskedBy("c2"), glob).0;
      var e2 := Check(Replace(e1, Rated(2.0)), AskedBy("c1"), glob).0;
      var e3 := Replace(e2, Rated(1.0));
      && Consistent(e3, 0.0) && ValidConfig(e3.config)
      && Check(e3, AskedBy("c2"), glob).1 == Deny(RateLimited(PerClient))
      && PaysInVain(e3, AskedBy("c2"), OneToken(1.0), glob)
      && !Untouched(e3, Check(e3, AskedBy("c2"), glob).0, "u", OneToken(1.0), 0.0)
  {
    var r, own, limit := AskedBy("c2"), OwnKey(AskedBy("c2")), OneToken(1.0);
    var e1 := Check(Engine(Rated(1.0), map[], map[]), r, glob).0;
    hide Check, Replace, Ready, Consistent, Untouched, PaysInVain, ValidConfig, Resolve, Reaches, OwnKey, UpKey;
    FirstEmpties("c2", glob);
    ReloadReady(e1, 2.0, own, limit);
    var e2 := Check(Replace(e1, Rated(2.0)), AskedBy("c1"), glob).0;
    OtherRateRemakes(Replace(e1, Rated(2.0)), glob);
    ReloadReady(e2, 1.0, own, limit);
    ReloadReady(e2, 1.0, UpKey("u"), limit);
    var e3 := Replace(e2, Rated(1.0));
    RatedLimits(e3, 1.0, "c2", glob);
    PaysIf(e3, glob);
    DeniedForClientIff(e3, r, limit, glob);
    DeniedRequestUntouchedIff(e3, r, limit, glob);
  }

  lemma PaysIf(e: Engine, glob: Glob)
    requires e.config == Rated(1.0)
    requires Ready(e, UpKey("u"), OneToken(1.0), 0.0) == 1.0 && Ready(e, OwnKey(AskedBy("c2")), OneToken(1.0), 0.0) == 0.0
    ensures PaysInVain(e, AskedBy("c2"), OneToken(1.0), glob)
  {
    hide Ready;
  }
}
