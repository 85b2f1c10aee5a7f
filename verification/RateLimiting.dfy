/** What the rate limiter promises over whole runs of requests, reloads and evictions. */
module RateLimiting {
  import opened Prelude
  import opened TokenBuckets
  import opened PolicyEngines

  datatype Event = Ask(request: Request) | Reload(config: Config, at: real) | EvictIdle(now: real, idle: real)

  function Time(ev: Event): real {
    match ev
    case Ask(r) => r.now
    case Reload(_, at) => at
    case EvictIdle(now, _) => now
  }

  function Step(e: Engine, ev: Event, glob: Glob): (r: Engine)
  {
    match ev
    case Ask(r) => Check(e, r, glob).0
    case Reload(config, _) => Replace(e, config)
    case EvictIdle(now, idle) => Evict(e, now, idle)
  }

  /** The decisions of a run, one for each request. */
  function Outcomes(e: Engine, run: seq<Event>, glob: Glob): (ds: seq<Decision>)
    decreases |run|
  {
    if run == [] then []
    else (if run[0].Ask? then [Check(e, run[0].request, glob).1] else [])
         + Outcomes(Step(e, run[0], glob), run[1..], glob)
  }

  /** The engine after the first `k` events. */
  function After(e: Engine, run: seq<Event>, k: nat, glob: Glob): (r: Engine)
    requires k <= |run|
  {
    if k == 0 then e else Step(After(e, run, k - 1, glob), run[k - 1], glob)
  }

  /** How many of the first `k` events are requests. */
  function Asks(run: seq<Event>, k: nat): (n: nat)
    requires k <= |run|
    ensures n <= k
  {
    if k == 0 then 0 else Asks(run, k - 1) + (if run[k - 1].Ask? then 1 else 0)
  }

  lemma {:induction false} AfterFirst(e: Engine, run: seq<Event>, k: nat, glob: Glob)
    requires 0 < k <= |run|
    ensures After(e, run, k, glob) == After(Step(e, run[0], glob), run[1..], k - 1, glob)
    ensures Asks(run, k) == (if run[0].Ask? then 1 else 0) + Asks(run[1..], k - 1)
  {
    hide Step;
    if k > 1 { AfterFirst(e, run, k - 1, glob); }
  }

  /** The decisions of a run are those of its requests, in order, each by the engine as it is by then. */
  lemma {:induction false} OutcomesAre(e: Engine, run: seq<Event>, k: nat, glob: Glob)
    requires k <= |run|
    ensures |Outcomes(e, run, glob)| == Asks(run, |run|)
    ensures k < |run| && run[k].Ask? ==>
      Asks(run, k) < |Outcomes(e, run, glob)|
      && Outcomes(e, run, glob)[Asks(run, k)] == Check(After(e, run, k, glob), run[k].request, glob).1
    decreases |run|
  {
    hide Step, Check;
    if run != [] {
      AfterFirst(e, run, |run|, glob);
      OutcomesAre(Step(e, run[0], glob), run[1..], if k > 0 then k - 1 else 0, glob);
      if k > 0 { AfterFirst(e, run, k, glob); }
    }
  }

  /** The clock does not run backwards. */
  ghost predicate InOrder(run: seq<Event>, from: real)
    decreases |run|
  {
    run == [] || (from <= Time(run[0]) && InOrder(run[1..], Time(run[0])))
  }

  /** Buckets and last accesses have the same keys, and tell the same time. */
  ghost predicate Consistent(e: Engine, now: real) {
    && e.buckets.Keys == e.lastAccess.Keys
    && forall k | k in e.buckets ::
      WellFormed(e.buckets[k]) && e.buckets[k].last == Some(e.lastAccess[k]) && e.lastAccess[k] <= now
  }

  ghost predicate ValidConfig(c: Config) {
    forall u :: Resolve(c, u).limit.Some? ==> Resolve(c, u).limit.value.rate > 0.0 && Resolve(c, u).limit.value.burst > 0
  }

  ghost predicate ValidRun(e: Engine, run: seq<Event>) {
    ValidConfig(e.config) && forall k | 0 <= k < |run| && run[k].Reload? :: ValidConfig(run[k].config)
  }

  lemma BucketForKeeps(e: Engine, key: Key, limit: Limit, now: real)
    requires Consistent(e, now) && limit.rate > 0.0 && limit.burst > 0
    ensures WellFormed(BucketFor(e, key, limit)) && NotAfter(BucketFor(e, key, limit), now)
    ensures BucketFor(e, key, limit).rate == limit.rate && BucketFor(e, key, limit).capacity == limit.burst
  {
  }

  lemma TakeAtKeeps(e: Engine, key: Key, limit: Limit, now: real)
    requires Consistent(e, now) && limit.rate > 0.0 && limit.burst > 0
    ensures Consistent(TakeAt(e, key, limit, now).0, now)
  {
    hide Take;
    BucketForKeeps(e, key, limit, now);
    TakeKeeps(BucketFor(e, key, limit), now);
  }

  lemma {:induction false} TakeAllKeeps(e: Engine, keys: seq<Key>, limit: Limit, now: real)
    requires Consistent(e, now) && limit.rate > 0.0 && limit.burst > 0
    ensures Consistent(TakeAll(e, keys, limit, now).0, now) && TakeAll(e, keys, limit, now).0.config == e.config
    decreases |keys|
  {
    hide Consistent;
    if keys != [] {
      TakeAtKeeps(e, keys[0], limit, now);
      TakeAllKeeps(TakeAt(e, keys[0], limit, now).0, keys[1..], limit, now);
    }
  }

  /** Every step keeps the two maps consistent. */
  lemma StepKeeps(e: Engine, ev: Event, from: real, glob: Glob)
    requires Consistent(e, from) && from <= Time(ev) && ValidRun(e, [ev])
    ensures Consistent(Step(e, ev, glob), Time(ev)) && ValidConfig(Step(e, ev, glob).config)
  {
    if ev.Ask? {
      var p := Resolve(e.config, ev.request.upstream);
      if p.limit.Some? {
        TakeAllKeeps(e, Keys(p.limit.value, ev.request.upstream, ev.request.client), p.limit.value, ev.request.now);
      }
    } else if ev.Reload? {
      assert ValidConfig([ev][0].config);
    }
  }

  lemma ValidSplit(e: Engine, run: seq<Event>, glob: Glob)
    requires run != [] && ValidRun(e, run)
    ensures ValidRun(e, [run[0]])
    ensures ValidConfig(Step(e, run[0], glob).config) ==> ValidRun(Step(e, run[0], glob), run[1..])
  {
    hide Step, ValidConfig;
    assert forall k | 0 <= k < |run| - 1 :: run[1..][k] == run[k + 1];
  }

  // ---- The window bound ----

  /** Whether an allowed request counts against the bucket at `key`. */
  predicate Charges(r: Request, key: Key) {
    r.upstream == key.upstream
    && (key.client == if key.scope == PerUpstream then "-" else ClientName(r.client))
  }

  /** Requests allowed in a run that count against `key`. */
  function Charged(e: Engine, run: seq<Event>, key: Key, glob: Glob): (n: nat)
    decreases |run|
  {
    if run == [] then 0
    else
      var ev := run[0];
      (if ev.Ask? && Check(e, ev.request, glob).1 == Allow && Charges(ev.request, key) then 1 else 0)
      + Charged(Step(e, ev, glob), run[1..], key, glob)
  }

  /** The limit is the one in force for the key's upstream now and after every reload. */
  ghost predicate InForce(e: Engine, run: seq<Event>, key: Key, limit: Limit) {
    && Resolve(e.config, key.upstream).limit == Some(limit)
    && (forall k | 0 <= k < |run| && run[k].Reload? :: Resolve(run[k].config, key.upstream).limit == Some(limit))
  }

  ghost predicate Covers(limit: Limit, scope: Scope) {
    limit.scope != if scope == PerUpstream then ClientOnly else UpstreamOnly
  }

  /** The tokens an ideal bucket at `key` would hold at `now`. */
  function Ready(e: Engine, key: Key, limit: Limit, now: real): real {
    Refill(BucketFor(e, key, limit), now).tokens
  }

  lemma TakeAtReady(e: Engine, at: Key, key: Key, limit: Limit, now: real)
    requires Consistent(e, now) && limit.rate > 0.0 && limit.burst > 0
    ensures var (e', ok) := TakeAt(e, at, limit, now);
      Ready(e', key, limit, now) == Ready(e, key, limit, now) - (if ok && at == key then 1.0 else 0.0)
  {
    hide Refill;
    BucketForKeeps(e, at, limit, now);
    var b := Take(BucketFor(e, at, limit), now).0;
    TakeKeeps(BucketFor(e, at, limit), now);
    RefillSame(b, now);
  }

  /** A request takes one token from every bucket it is charged to, or it is not allowed. */
  lemma {:induction false} TakeAllReady(e: Engine, keys: seq<Key>, key: Key, limit: Limit, now: real)
    requires Consistent(e, now) && limit.rate > 0.0 && limit.burst > 0
    ensures var (e', d) := TakeAll(e, keys, limit, now);
      Ready(e', key, limit, now) <= Ready(e, key, limit, now) - (if d == Allow && key in keys then 1.0 else 0.0)
    decreases |keys|
  {
    hide Ready, Consistent, TakeAt;
    if keys != [] {
      var (e', ok) := TakeAt(e, keys[0], limit, now);
      TakeAtReady(e, keys[0], key, limit, now);
      TakeAtKeeps(e, keys[0], limit, now);
      TakeAllReady(e', keys[1..], key, limit, now);
      assert key in keys ==> key == keys[0] || key in keys[1..];
    }
  }

  lemma {:induction false} TakeAllApart(e: Engine, keys: seq<Key>, key: Key, limit: Limit, now: real)
    requires key !in keys
    ensures var e' := TakeAll(e, keys, limit, now).0;
      e'.config == e.config && (key in e'.buckets <==> key in e.buckets)
      && (key in e.buckets ==> e'.buckets[key] == e.buckets[key])
    decreases |keys|
  {
    hide Take;
    if keys != [] {
      TakeAllApart(TakeAt(e, keys[0], limit, now).0, keys[1..], key, limit, now);
    }
  }

  lemma ReadyGrows(e: Engine, key: Key, limit: Limit, from: real, to: real)
    requires Consistent(e, from) && limit.rate > 0.0 && limit.burst > 0 && from <= to
    ensures 0.0 <= Ready(e, key, limit, from) <= limit.burst as real
    ensures Ready(e, key, limit, to) <= Ready(e, key, limit, from) + Accrued(to - from, limit.rate)
  {
    hide Refill, Accrued;
    BucketForKeeps(e, key, limit, from);
    RefillKeeps(BucketFor(e, key, limit), from);
    RefillBound(BucketFor(e, key, limit), from, to);
  }

  /** No step creates tokens, and an allowed request that is charged to `key` costs one. */
  lemma StepReady(e: Engine, ev: Event, key: Key, limit: Limit, glob: Glob)
    requires Consistent(e, Time(ev)) && ValidRun(e, [ev]) && !ev.EvictIdle?
    requires InForce(e, [ev], key, limit) && Covers(limit, key.scope)
    ensures var cost := if ev.Ask? && Check(e, ev.request, glob).1 == Allow && Charges(ev.request, key) then 1.0 else 0.0;
      Ready(Step(e, ev, glob), key, limit, Time(ev)) <= Ready(e, key, limit, Time(ev)) - cost
  {
    hide Refill, TakeAll;
    if ev.Ask? {
      var r := ev.request;
      var p := Resolve(e.config, r.upstream);
      if p.limit.Some? {
        var keys := Keys(p.limit.value, r.upstream, r.client);
        if r.upstream == key.upstream {
          TakeAllReady(e, keys, key, limit, r.now);
        } else {
          TakeAllApart(e, keys, key, p.limit.value, r.now);
        }
      }
    } else {
      assert Resolve([ev][0].config, key.upstream).limit == Some(limit);
    }
  }

  /**
   In any window of any run without evictions, and across reloads that leave the limit of
   an upstream as it is, the requests allowed against one bucket number at most
   burst + rate * length. With a key of an upstream that bounds the whole upstream, with
   the key of a client that client.
   */
  lemma {:induction false} RequestsBounded(
      e: Engine, run: seq<Event>, key: Key, limit: Limit, from: real, to: real, glob: Glob)
    requires Consistent(e, from) && ValidRun(e, run) && InOrder(run, from) && from <= to
    requires forall k | 0 <= k < |run| :: !run[k].EvictIdle? && Time(run[k]) <= to
    requires InForce(e, run, key, limit) && Covers(limit, key.scope)
    ensures Charged(e, run, key, glob) as real <= Ready(e, key, limit, from) + Accrued(to - from, limit.rate)
    ensures Charged(e, run, key, glob) as real <= limit.burst as real + (to - from) * limit.rate
    decreases |run|
  {
    AccruedIs(to - from, limit.rate);
    hide Ready, Accrued, Consistent, Step, Check;
    assert limit.rate > 0.0 && limit.burst > 0;
    ReadyGrows(e, key, limit, from, to);
    Grows(to - from, limit.rate);
    if run != [] {
      var ev := run[0];
      var t := Time(ev);
      var next := Step(e, ev, glob);
      Later(e, from, t);
      ValidSplit(e, run, glob);
      StepKeeps(e, ev, from, glob);
      StepReady(e, ev, key, limit, glob);
      InForceStep(e, run, key, limit, glob);
      RequestsBounded(next, run[1..], key, limit, t, to, glob);
      ReadyGrows(e, key, limit, from, t);
      Distribute(t - from, to - t, limit.rate);
    }
  }

  lemma Later(e: Engine, from: real, to: real)
    requires Consistent(e, from) && from <= to
    ensures Consistent(e, to)
  {
  }

  lemma InForceStep(e: Engine, run: seq<Event>, key: Key, limit: Limit, glob: Glob)
    requires run != [] && InForce(e, run, key, limit)
    ensures InForce(e, [run[0]], key, limit) && InForce(Step(e, run[0], glob), run[1..], key, limit)
  {
    hide Resolve;
    if run[0].Ask? { CheckKeepsConfig(e, run[0].request, glob); }
  }

  lemma CheckKeepsConfig(e: Engine, r: Request, glob: Glob)
    ensures Check(e, r, glob).0.config == e.config
  {
    var p := Resolve(e.config, r.upstream);
    if p.limit.Some? {
      TakeAllKeepsConfig(e, Keys(p.limit.value, r.upstream, r.client), p.limit.value, r.now);
    }
  }

  lemma {:induction false} TakeAllKeepsConfig(e: Engine, keys: seq<Key>, limit: Limit, now: real)
    ensures TakeAll(e, keys, limit, now).0.config == e.config
    decreases |keys|
  {
    if keys != [] {
      TakeAllKeepsConfig(TakeAt(e, keys[0], limit, now).0, keys[1..], limit, now);
    }
  }

  // ---- Eviction is not observable ----

  /** Idling for `idle` seconds fills every bucket this config can ask for. */
  ghost predicate FillsUp(c: Config, idle: real) {
    forall u | Resolve(c, u).limit.Some? ::
      idle * Resolve(c, u).limit.value.rate >= Resolve(c, u).limit.value.burst as real
  }

  ghost predicate BucketsFillUp(e: Engine, idle: real) {
    forall k | k in e.buckets :: idle * e.buckets[k].rate >= e.buckets[k].capacity as real
  }

  ghost predicate RunFillsUp(run: seq<Event>, idle: real) {
    && (forall k | 0 <= k < |run| && run[k].Reload? :: FillsUp(run[k].config, idle))
    && (forall k | 0 <= k < |run| && run[k].EvictIdle? :: run[k].idle >= idle)
  }

  function WithoutEvictions(run: seq<Event>): (r: seq<Event>)
  {
    if run == [] then []
    else (if run[0].EvictIdle? then [] else [run[0]]) + WithoutEvictions(run[1..])
  }

  /** `e` is `f` with some topped-up buckets forgotten. */
  ghost predicate Forgets(e: Engine, f: Engine, now: real) {
    && e.config == f.config && e.buckets.Keys <= f.buckets.Keys
    && (forall k | k in e.buckets :: e.buckets[k] == f.buckets[k])
    && (forall k | k in f.buckets && k !in e.buckets :: ToppedUp(f.buckets[k], now))
  }

  ghost predicate Related(e: Engine, f: Engine, now: real, idle: real) {
    && Consistent(e, now) && Consistent(f, now) && Forgets(e, f, now)
    && ValidConfig(f.config) && FillsUp(f.config, idle) && BucketsFillUp(f, idle)
  }

  lemma RelatedLater(e: Engine, f: Engine, from: real, to: real, idle: real)
    requires Related(e, f, from, idle) && from <= to
    ensures Related(e, f, to, idle)
  {
    hide Refill;
    forall k | k in f.buckets && k !in e.buckets ensures ToppedUp(f.buckets[k], to) {
      StaysToppedUp(f.buckets[k], from, to);
    }
  }

  /** A forgotten bucket decides like a new one, and is the same bucket from then on. */
  lemma TakesAlike(e: Engine, f: Engine, key: Key, limit: Limit, now: real)
    requires Consistent(e, now) && Consistent(f, now) && Forgets(e, f, now)
    ensures Take(BucketFor(e, key, limit), now) == Take(BucketFor(f, key, limit), now)
  {
    hide Take, Refill;
    if key in f.buckets && key !in e.buckets {
      StaysToppedUp(f.buckets[key], now, now);
    }
  }

  lemma TakeAtRelated(e: Engine, f: Engine, key: Key, limit: Limit, now: real, idle: real)
    requires Related(e, f, now, idle) && limit.rate > 0.0 && limit.burst > 0
    requires idle * limit.rate >= limit.burst as real
    ensures TakeAt(e, key, limit, now).1 == TakeAt(f, key, limit, now).1
    ensures Related(TakeAt(e, key, limit, now).0, TakeAt(f, key, limit, now).0, now, idle)
  {
    hide Take, ToppedUp, FillsUp, ValidConfig, Accrued, WellFormed;
    TakesAlike(e, f, key, limit, now);
    TakeAtKeeps(e, key, limit, now);
    TakeAtKeeps(f, key, limit, now);
    BucketForKeeps(f, key, limit, now);
    TakeKeeps(BucketFor(f, key, limit), now);
  }

  lemma {:induction false} TakeAllRelated(e: Engine, f: Engine, keys: seq<Key>, limit: Limit, now: real, idle: real)
    requires Related(e, f, now, idle) && limit.rate > 0.0 && limit.burst > 0
    requires idle * limit.rate >= limit.burst as real
    ensures TakeAll(e, keys, limit, now).1 == TakeAll(f, keys, limit, now).1
    ensures Related(TakeAll(e, keys, limit, now).0, TakeAll(f, keys, limit, now).0, now, idle)
    decreases |keys|
  {
    hide Related, TakeAt;
    if keys != [] {
      TakeAtRelated(e, f, keys[0], limit, now, idle);
      TakeAllRelated(TakeAt(e, keys[0], limit, now).0, TakeAt(f, keys[0], limit, now).0, keys[1..], limit, now, idle);
    }
  }

  lemma CheckRelated(e: Engine, f: Engine, r: Request, idle: real, glob: Glob)
    requires Related(e, f, r.now, idle)
    ensures Check(e, r, glob).1 == Check(f, r, glob).1
    ensures Related(Check(e, r, glob).0, Check(f, r, glob).0, r.now, idle)
  {
    hide TakeAll;
    var p := Resolve(f.config, r.upstream);
    if p.limit.Some? {
      TakeAllRelated(e, f, Keys(p.limit.value, r.upstream, r.client), p.limit.value, r.now, idle);
    }
  }

  lemma ReplaceRelated(e: Engine, f: Engine, c: Config, now: real, idle: real)
    requires Related(e, f, now, idle) && ValidConfig(c) && FillsUp(c, idle)
    ensures Related(Replace(e, c), Replace(f, c), now, idle)
  {
    hide Refill, Resolve;
  }

  lemma EvictRelated(e: Engine, f: Engine, now: real, idle: real, threshold: real)
    requires Related(e, f, now, idle) && threshold >= idle >= 0.0
    ensures Related(Evict(e, now, threshold), f, now, idle)
  {
    hide FillsUp, ValidConfig, ToppedUp, BucketsFillUp, WellFormed;
    forall k | k in f.buckets && k !in Evict(e, now, threshold).buckets ensures ToppedUp(f.buckets[k], now) {
      if k in e.buckets { IdleFull(f, k, now, idle); }
    }
  }

  lemma IdleFull(f: Engine, k: Key, now: real, idle: real)
    requires Consistent(f, now) && BucketsFillUp(f, idle) && k in f.buckets && now - f.lastAccess[k] > idle >= 0.0
    ensures ToppedUp(f.buckets[k], now)
  {
    hide ToppedUp, Accrued;
    AccruedIs(idle, f.buckets[k].rate);
    IdleToppedUp(f.buckets[k], now, idle);
  }

  /**
   Evicting idle buckets changes no decision of any run, when the idle threshold is long
   enough for every limit that is ever in force: rate * idle >= burst.
   */
  lemma {:induction false} EvictionsUnseen(
      e: Engine, f: Engine, run: seq<Event>, from: real, idle: real, glob: Glob)
    requires Related(e, f, from, idle) && idle >= 0.0
    requires InOrder(run, from) && ValidRun(f, run) && RunFillsUp(run, idle)
    ensures Outcomes(e, run, glob) == Outcomes(f, WithoutEvictions(run), glob)
    decreases |run|
  {
    hide Related, Check, Replace, Evict, FillsUp;
    if run != [] {
      var ev := run[0];
      var t := Time(ev);
      RelatedLater(e, f, from, t, idle);
      var rest := WithoutEvictions(run[1..]);
      assert forall k | 0 <= k < |run| - 1 :: run[1..][k] == run[k + 1];
      match ev {
        case Ask(r) =>
          CheckRelated(e, f, r, idle, glob);
          CheckKeepsConfig(f, r, glob);
          EvictionsUnseen(Step(e, ev, glob), Step(f, ev, glob), run[1..], t, idle, glob);
          assert WithoutEvictions(run)[1..] == rest;
        case Reload(c, _) =>
          ReplaceRelated(e, f, c, t, idle);
          assert Replace(f, c).config == c by { ReplaceConfigs(f, c); }
          EvictionsUnseen(Step(e, ev, glob), Step(f, ev, glob), run[1..], t, idle, glob);
          assert WithoutEvictions(run)[1..] == rest;
        case EvictIdle(now, threshold) =>
          EvictRelated(e, f, now, idle, threshold);
          EvictionsUnseen(Step(e, ev, glob), f, run[1..], t, idle, glob);
          assert [] + rest == rest;
      }
    }
  }

  lemma ReplaceConfigs(e: Engine, c: Config)
    ensures Replace(e, c).config == c
  {
  }

  /** The theorem for one engine: a run with its evictions and without them decides alike. */
  lemma EvictionsChangeNoDecision(e: Engine, run: seq<Event>, from: real, idle: real, glob: Glob)
    requires Consistent(e, from) && ValidRun(e, run) && InOrder(run, from) && idle >= 0.0
    requires FillsUp(e.config, idle) && BucketsFillUp(e, idle) && RunFillsUp(run, idle)
    ensures Outcomes(e, run, glob) == Outcomes(e, WithoutEvictions(run), glob)
  {
    hide Outcomes;
    EvictionsUnseen(e, e, run, from, idle, glob);
  }
}
