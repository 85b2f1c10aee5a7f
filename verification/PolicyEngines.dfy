/** Per-request policies and their rate-limit state: src/mcpxy_proxy/policy/engine.py. */
module PolicyEngines {
  import opened Prelude
  import opened TokenBuckets

  datatype Scope = PerUpstream | PerClient

  /** The scope a limit is configured with. */
  datatype LimitScope = UpstreamOnly | ClientOnly | Both

  datatype Limit = Limit(rate: real, burst: int, scope: LimitScope)

  datatype Methods = Methods(deny: seq<string>, allow: seq<string>)

  datatype Policies = Policies(methods: Option<Methods>, limit: Option<Limit>, size: Option<int>)

  datatype Config = Config(all: Option<Policies>, per: map<string, Policies>)

  /** What a bucket is kept for: an upstream, or one client of an upstream. */
  datatype Key = Key(upstream: string, scope: Scope, client: string)

  datatype Request = Request(upstream: string, called: Option<string>, bytes: int, client: Option<string>, now: real)

  datatype Reason = SizeExceeded | MethodDenied | RateLimited(scope: Scope)

  datatype Decision = Allow | Deny(reason: Reason)

  /** `fnmatch`. */
  type Glob = (string, string) -> bool

  datatype Engine = Engine(config: Config, buckets: map<Key, Bucket>, lastAccess: map<Key, real>)

  function Or<T>(a: Option<T>, b: Option<T>): (r: Option<T>) {
    if a.Some? then a else b
  }

  const NOTHING := Policies(None, None, None)

  /** Per-upstream policies win over the global ones, field by field. */
  function Resolve(c: Config, upstream: string): (r: Policies)
  {
    var all := if c.all.Some? then c.all.value else NOTHING;
    var per := if upstream in c.per then c.per[upstream] else NOTHING;
    Policies(Or(per.methods, all.methods), Or(per.limit, all.limit), Or(per.size, all.size))
  }

  predicate MethodAllowed(m: Methods, called: Option<string>, glob: Glob) {
    var name := if called.Some? then called.value else "";
    && !(exists k | 0 <= k < |m.deny| :: glob(name, m.deny[k]))
    && (m.allow != [] ==> exists k | 0 <= k < |m.allow| :: glob(name, m.allow[k]))
  }

  /** Field by field: what an upstream sets for itself is in force, and what it leaves open is the global setting. */
  lemma OwnPoliciesWin(c: Config, upstream: string)
    ensures var r := Resolve(c, upstream);
      && (upstream in c.per && c.per[upstream].methods.Some? ==> r.methods == c.per[upstream].methods)
      && (upstream in c.per && c.per[upstream].limit.Some? ==> r.limit == c.per[upstream].limit)
      && (upstream in c.per && c.per[upstream].size.Some? ==> r.size == c.per[upstream].size)
      && (c.all.Some? && (upstream in c.per ==> c.per[upstream].methods.None?) ==> r.methods == c.all.value.methods)
      && (c.all.Some? && (upstream in c.per ==> c.per[upstream].limit.None?) ==> r.limit == c.all.value.limit)
      && (c.all.Some? && (upstream in c.per ==> c.per[upstream].size.None?) ==> r.size == c.all.value.size)
      && (c.all.None? && (upstream in c.per ==> c.per[upstream] == Policies(None, None, None)) ==> r == Policies(None, None, None))
      && (c.all.None? && upstream in c.per ==> r == c.per[upstream])
  {
  }

  /** One pattern that matches a denied name is enough; and with an allow list one must match that. */
  ghost predicate Refuses(m: Methods, name: string, glob: Glob) {
    || (exists k :: 0 <= k < |m.deny| && glob(name, m.deny[k]))
    || (|m.allow| > 0 && forall k :: 0 <= k < |m.allow| ==> !glob(name, m.allow[k]))
  }

  /** Denying goes before allowing, more denials never let more through, and no rules let everything through. */
  lemma DenyGoesFirst(m: Methods, more: seq<string>, name: string, glob: Glob)
    ensures MethodAllowed(m, Some(name), glob) <==> !Refuses(m, name, glob)
    ensures MethodAllowed(m, None, glob) <==> !Refuses(m, "", glob)
    ensures Refuses(m, name, glob) ==> Refuses(m.(deny := m.deny + more), name, glob)
    ensures !Refuses(m, name, glob) && m.allow != [] ==> !Refuses(m.(allow := m.allow + more), name, glob)
    ensures !Refuses(Methods([], []), name, glob)
  {
    assert forall k | 0 <= k < |m.deny| :: glob(name, (m.deny + more)[k]) == glob(name, m.deny[k]);
    assert forall k | 0 <= k < |m.allow| :: glob(name, (m.allow + more)[k]) == glob(name, m.allow[k]);
  }

  function ClientName(client: Option<string>): string {
    if client.Some? && client.value != "" then client.value else "unknown"
  }

  /** The buckets a limited request must take from, in order. */
  function Keys(limit: Limit, upstream: string, client: Option<string>): (ks: seq<Key>)
  {
    (if limit.scope != ClientOnly then [Key(upstream, PerUpstream, "-")] else []) +
    (if limit.scope != UpstreamOnly then [Key(upstream, PerClient, ClientName(client))] else [])
  }

  /** The bucket a take at `key` uses: the stored one, unless the limit has changed since. */
  function BucketFor(e: Engine, key: Key, limit: Limit): (b: Bucket)
  {
    if key in e.buckets && e.buckets[key].rate == limit.rate && e.buckets[key].capacity == limit.burst then
      e.buckets[key]
    else Full(limit.rate, limit.burst)
  }

  function TakeAt(e: Engine, key: Key, limit: Limit, now: real): (r: (Engine, bool))
  {
    var (b, ok) := Take(BucketFor(e, key, limit), now);
    (e.(buckets := e.buckets[key := b], lastAccess := e.lastAccess[key := now]), ok)
  }

  function TakeAll(e: Engine, keys: seq<Key>, limit: Limit, now: real): (r: (Engine, Decision))
    ensures r.1.Deny? ==> r.1.reason.RateLimited?
    decreases |keys|
  {
    if keys == [] then (e, Allow)
    else
      var (e', ok) := TakeAt(e, keys[0], limit, now);
      if ok then TakeAll(e', keys[1..], limit, now) else (e', Deny(RateLimited(keys[0].scope)))
  }

  function Check(e: Engine, r: Request, glob: Glob): (d: (Engine, Decision))
  {
    var p := Resolve(e.config, r.upstream);
    if p.size.Some? && r.bytes > p.size.value then (e, Deny(SizeExceeded))
    else if p.methods.Some? && !MethodAllowed(p.methods.value, r.called, glob) then (e, Deny(MethodDenied))
    else if p.limit.Some? then TakeAll(e, Keys(p.limit.value, r.upstream, r.client), p.limit.value, r.now)
    else (e, Allow)
  }

  predicate NoPolicy(config: Config) {
    config.per == map[] && config.all.None?
  }

  /** A reload keeps every bucket, unless no policy is left at all. */
  function Replace(e: Engine, config: Config): (r: Engine)
  {
    if NoPolicy(config) then Engine(config, map[], map[]) else e.(config := config)
  }

  function Idle(lastAccess: map<Key, real>, now: real, idle: real): (ks: set<Key>)
  {
    set k | k in lastAccess && k.scope == PerClient && now - lastAccess[k] > idle
  }

  function Evict(e: Engine, now: real, idle: real): (r: Engine)
  {
    var idling := Idle(e.lastAccess, now, idle);
    e.(buckets := e.buckets - idling, lastAccess := e.lastAccess - idling)
  }

  /** What forgetting the idle keys leaves: all upstreams, and the clients seen lately. */
  lemma IdleForgotten<T>(lastAccess: map<Key, real>, buckets: map<Key, T>, now: real, idle: real)
    ensures var kept, left := lastAccess - Idle(lastAccess, now, idle), buckets - Idle(lastAccess, now, idle);
      && (forall k :: k in kept <==> k in lastAccess && (k.scope == PerClient ==> now - lastAccess[k] <= idle))
      && (forall k :: k in left <==> k in buckets && (k in lastAccess ==> k in kept))
      && |Idle(lastAccess, now, idle)| == |lastAccess| - |kept|
  {
    var idling := Idle(lastAccess, now, idle);
    assert (lastAccess - idling).Keys == lastAccess.Keys - idling;
    assert |lastAccess.Keys - idling| == |lastAccess.Keys| - |idling|;
  }

  // ---- The engine as an object ----

  class PolicyEngine {
    const glob: Glob
    var config: Config
    var buckets: map<Key, TokenBucket>
    var lastAccess: map<Key, real>

    /** No two keys share a bucket. */
    ghost predicate Valid()
      reads this
    {
      forall a, b | a in buckets && b in buckets && a != b :: buckets[a] != buckets[b]
    }

    ghost function State(): (e: Engine)
      reads this, buckets.Values
    {
      Engine(config, map k | k in buckets :: buckets[k].State(), lastAccess)
    }

    constructor (config: Config, glob: Glob)
      ensures Valid() && State() == Engine(config, map[], map[]) && this.glob == glob
    {
      this.config, this.glob := config, glob;
      buckets, lastAccess := map[], map[];
    }

    method ReplaceConfig(next: Config)
      requires Valid()
      modifies this
      ensures Valid() && State() == Replace(old(State()), next)
      ensures config == next && buckets == if next.per == map[] && next.all == None then map[] else old(buckets)
      ensures lastAccess == if next.per == map[] && next.all == None then map[] else old(lastAccess)
    {
      config := next;
      if NoPolicy(config) {
        buckets := map[];
        lastAccess := map[];
      }
    }

    method EvictIdleBuckets(now: real, idle: real) returns (removed: nat)
      requires Valid()
      modifies this
      ensures Valid() && State() == Evict(old(State()), now, idle)
      ensures forall k :: k in lastAccess <==> k in old(lastAccess) && (k.scope == PerClient ==> now - old(lastAccess)[k] <= idle)
      ensures forall k :: k in buckets <==> k in old(buckets) && (k in old(lastAccess) ==> k in lastAccess)
      ensures forall k | k in buckets :: buckets[k] == old(buckets)[k]
      ensures forall k | k in lastAccess :: lastAccess[k] == old(lastAccess)[k]
      ensures removed == |old(lastAccess)| - |lastAccess|
      ensures buckets.Values <= old(buckets.Values)
    {
      hide Idle;
      IdleForgotten(lastAccess, buckets, now, idle);
      removed := ForgetIdle(now, idle);
      assert State().buckets == old(State()).buckets - Idle(old(lastAccess), now, idle);
    }

    method ForgetIdle(now: real, idle: real) returns (removed: nat)
      modifies this`buckets, this`lastAccess
      ensures buckets == old(buckets) - Idle(old(lastAccess), now, idle)
      ensures lastAccess == old(lastAccess) - Idle(old(lastAccess), now, idle)
      ensures removed == |Idle(old(lastAccess), now, idle)|
    {
      removed := 0;
      ghost var idling := Idle(lastAccess, now, idle);
      ghost var gone: set<Key> := {};
      var rest := lastAccess.Keys;
      while rest != {}
        invariant forall k :: k in gone <==> k in idling && k !in rest
        invariant removed == |gone| && rest <= old(lastAccess).Keys
        invariant buckets == old(buckets) - gone && lastAccess == old(lastAccess) - gone
        decreases |rest|
      {
        var key :| key in rest;
        rest := rest - {key};
        if key.scope == PerClient && now - lastAccess[key] > idle {
          buckets := buckets - {key};
          lastAccess := lastAccess - {key};
          removed := removed + 1;
          gone := gone + {key};
        }
      }
      assert gone == idling;
    }

    method RateCheck(upstream: string, limit: Limit, client: Option<string>, now: real) returns (d: Decision)
      requires Valid()
      modifies this, buckets.Values
      ensures Valid() && fresh(buckets.Values - old(buckets.Values))
      ensures (State(), d) == TakeAll(old(State()), Keys(limit, upstream, client), limit, now)
    {
      var keys := Keys(limit, upstream, client);
      for k := 0 to |keys|
        invariant Valid() && fresh(buckets.Values - old(buckets.Values))
        invariant TakeAll(State(), keys[k..], limit, now) == TakeAll(old(State()), keys, limit, now)
      {
        var ok := TakeFrom(keys[k], limit, now);
        assert keys[k..][1..] == keys[k + 1..];
        if !ok {
          return Deny(RateLimited(keys[k].scope));
        }
      }
      return Allow;
    }

    /** Makes the bucket anew if there is none or its limit has changed. */
    method EnsureBucket(key: Key, limit: Limit)
      requires Valid()
      modifies this`buckets
      ensures Valid() && key in buckets && fresh(buckets.Values - old(buckets.Values))
      ensures State() == old(State()).(buckets := old(State().buckets)[key := BucketFor(old(State()), key, limit)])
    {
      hide Full;
      if key !in buckets || buckets[key].rate != limit.rate || buckets[key].capacity != limit.burst {
        var bucket := new TokenBucket(limit.rate, limit.burst);
        buckets := buckets[key := bucket];
      }
      assert State().buckets == old(State().buckets)[key := BucketFor(old(State()), key, limit)];
    }

    /** Takes from a bucket that is there, and notes the access. */
    method TakeOneAt(key: Key, now: real) returns (ok: bool)
      requires Valid() && key in buckets
      modifies this`lastAccess, buckets[key]
      ensures Valid() && lastAccess == old(lastAccess)[key := now]
      ensures ok == Take(old(buckets[key].State()), now).1
      ensures State().buckets == old(State().buckets)[key := Take(old(buckets[key].State()), now).0]
    {
      hide Take;
      lastAccess := lastAccess[key := now];
      ok := buckets[key].TakeOne(now);
    }

    method TakeFrom(key: Key, limit: Limit, now: real) returns (ok: bool)
      requires Valid()
      modifies this, buckets.Values
      ensures Valid() && fresh(buckets.Values - old(buckets.Values))
      ensures (State(), ok) == TakeAt(old(State()), key, limit, now)
    {
      hide Take, BucketFor;
      EnsureBucket(key, limit);
      ghost var b := BucketFor(old(State()), key, limit);
      assert buckets[key].State() == b by { assert key in State().buckets; }
      ok := TakeOneAt(key, now);
      assert old(State().buckets)[key := b][key := Take(b, now).0] == old(State().buckets)[key := Take(b, now).0];
    }

    /** The two loops of `_method_allowed`. */
    method IsMethodAllowed(m: Methods, called: Option<string>) returns (allowed: bool)
      ensures allowed <==> !Refuses(m, if called.Some? then called.value else "", glob)
    {
      var name := if called.Some? then called.value else "";
      for i := 0 to |m.deny|
        invariant forall k | 0 <= k < i :: !glob(name, m.deny[k])
      {
        if glob(name, m.deny[i]) {
          return false;
        }
      }
      if |m.allow| > 0 {
        for i := 0 to |m.allow|
          invariant forall k | 0 <= k < i :: !glob(name, m.allow[k])
        {
          if glob(name, m.allow[i]) {
            return true;
          }
        }
        return false;
      }
      return true;
    }

    /** Size, methods, rate limit, in this order. */
    method CheckRequest(r: Request) returns (d: Decision)
      requires Valid()
      modifies this, buckets.Values
      ensures Valid() && fresh(buckets.Values - old(buckets.Values))
      ensures (State(), d) == Check(old(State()), r, glob)
      ensures var p := Resolve(old(config), r.upstream); var name := if r.called.Some? then r.called.value else "";
        && (d == Deny(SizeExceeded) <==> p.size.Some? && r.bytes > p.size.value)
        && (d == Deny(MethodDenied) <==>
              (p.size.Some? ==> r.bytes <= p.size.value) && p.methods.Some? && Refuses(p.methods.value, name, glob))
    {
      hide Resolve, Refuses, MethodAllowed, Keys, TakeAll;
      var p := Resolve(config, r.upstream);
      if p.size.Some? && r.bytes > p.size.value {
        return Deny(SizeExceeded);
      }
      if p.methods.Some? {
        DenyGoesFirst(p.methods.value, [], if r.called.Some? then r.called.value else "", glob);
        var allowed := IsMethodAllowed(p.methods.value, r.called);
        if !allowed {
          return Deny(MethodDenied);
        }
      }
      if p.limit.Some? {
        d := RateCheck(r.upstream, p.limit.value, r.client, r.now);
        return;
      }
      return Allow;
    }
  }
}
