/** When a request is denied, and what it then costs: src/mcpxy_proxy/policy/engine.py. */
module DeniedRequests {
  import opened Prelude
  import opened TokenBuckets
  import opened PolicyEngines
  import opened RateLimiting

  // ---- Denied requests ----

  /** Every bucket of the upstream that its limit can ask for holds what it held. */
  ghost predicate Untouched(e: Engine, f: Engine, upstream: string, limit: Limit, now: real) {
    forall k: Key | k.upstream == upstream ::
      Refill(BucketFor(e, k, limit), now) == Refill(BucketFor(f, k, limit), now)
  }

  lemma TakeAtTouches(e: Engine, key: Key, limit: Limit, now: real)
    requires Consistent(e, now) && limit.rate > 0.0 && limit.burst > 0
    ensures var (f, ok) := TakeAt(e, key, limit, now);
      && (forall k | k != key :: BucketFor(f, k, limit) == BucketFor(e, k, limit))
      && (Refill(BucketFor(f, key, limit), now) == Refill(BucketFor(e, key, limit), now) <==> !ok)
  {
    hide Refill;
    var b := BucketFor(e, key, limit);
    BucketForKeeps(e, key, limit, now);
    TakeKeeps(b, now);
    RefillKeeps(b, now);
    RefillSame(Take(b, now).0, now);
  }

  /** A denied request leaves its buckets alone, unless it was denied for its client after its upstream had paid. */
  lemma DeniedTouchesIff(e: Engine, r: Request, limit: Limit, glob: Glob)
    requires Consistent(e, r.now) && ValidConfig(e.config)
    requires Resolve(e.config, r.upstream).limit == Some(limit)
    requires Check(e, r, glob).1.Deny?
    ensures Untouched(e, Check(e, r, glob).0, r.upstream, limit, r.now) <==>
      !(limit.scope == Both && Check(e, r, glob).1 == Deny(RateLimited(PerClient)))
  {
    hide Take, Refill, Consistent, BucketFor, TakeAll, TakeAt;
    var keys := Keys(limit, r.upstream, r.client);
    if Check(e, r, glob).1.reason.RateLimited? {
      var (e1, ok1) := TakeAt(e, keys[0], limit, r.now);
      TakeAllDenied(e, keys, limit, r.now);
      TakeAtTouches(e, keys[0], limit, r.now);
      TakeAtKeeps(e, keys[0], limit, r.now);
      var f := Check(e, r, glob).0;
      assert keys[0].upstream == r.upstream;
      if ok1 {
        assert keys[0].scope == PerUpstream && keys[1].scope == PerClient;
        TakeAtTouches(e1, keys[1], limit, r.now);
        assert Refill(BucketFor(e, keys[0], limit), r.now) != Refill(BucketFor(f, keys[0], limit), r.now);
      } else {
        assert f == e1;
        forall k: Key | k.upstream == r.upstream
          ensures Refill(BucketFor(e, k, limit), r.now) == Refill(BucketFor(f, k, limit), r.now)
        {
          if k != keys[0] { assert BucketFor(f, k, limit) == BucketFor(e, k, limit); }
        }
      }
    }
  }

  lemma TakeAllOne(e: Engine, key: Key, limit: Limit, now: real)
    ensures var (f, ok) := TakeAt(e, key, limit, now);
      TakeAll(e, [key], limit, now) == (f, if ok then Allow else Deny(RateLimited(key.scope)))
  {
    hide TakeAt;
    var none: seq<Key> := [];
    assert [key][1..] == none;
  }

  lemma TakeAllDenied(e: Engine, keys: seq<Key>, limit: Limit, now: real)
    requires 1 <= |keys| <= 2 && TakeAll(e, keys, limit, now).1.Deny?
    ensures var (f, ok) := TakeAt(e, keys[0], limit, now);
      if ok then |keys| == 2 && !TakeAt(f, keys[1], limit, now).1
      else TakeAll(e, keys, limit, now) == (f, Deny(RateLimited(keys[0].scope)))
    ensures var (f, ok) := TakeAt(e, keys[0], limit, now);
      ok ==> TakeAll(e, keys, limit, now) == (TakeAt(f, keys[1], limit, now).0, Deny(RateLimited(keys[1].scope)))
  {
    hide TakeAt;
    TakeAllOne(e, keys[0], limit, now);
    if |keys| == 1 {
      assert keys == [keys[0]];
    } else {
      assert keys[1..] == [keys[1]];
      TakeAllOne(TakeAt(e, keys[0], limit, now).0, keys[1], limit, now);
    }
  }

  // ---- When a request is let through ----

  lemma TakeAtReadyIff(e: Engine, key: Key, limit: Limit, now: real)
    ensures TakeAt(e, key, limit, now).1 <==> Ready(e, key, limit, now) >= 1.0
  {
    hide Refill, BucketFor;
  }

  lemma TakeAllAllowsIff(e: Engine, keys: seq<Key>, limit: Limit, now: real)
    requires Consistent(e, now) && limit.rate > 0.0 && limit.burst > 0
    requires 1 <= |keys| <= 2 && (|keys| == 2 ==> keys[0] != keys[1])
    ensures TakeAll(e, keys, limit, now).1 == Allow <==> forall k | 0 <= k < |keys| :: Ready(e, keys[k], limit, now) >= 1.0
  {
    hide Ready, TakeAt, Consistent;
    TakeAtReadyIff(e, keys[0], limit, now);
    TakeAllOne(e, keys[0], limit, now);
    var e1 := TakeAt(e, keys[0], limit, now).0;
    if |keys| == 1 {
      assert keys == [keys[0]];
    } else {
      assert keys[1..] == [keys[1]];
      TakeAllOne(e1, keys[1], limit, now);
      TakeAtReadyIff(e1, keys[1], limit, now);
      TakeAtReady(e, keys[0], keys[1], limit, now);
    }
  }

  /**
   A request is let through if and only if it is small enough, no pattern refuses its method, and
   each bucket its limit names holds a whole token, refilled ideally up to now. Requests without
   a client address share the bucket of "unknown".
   */
  lemma AllowedIff(e: Engine, r: Request, glob: Glob)
    requires Consistent(e, r.now) && ValidConfig(e.config)
    ensures var p := Resolve(e.config, r.upstream);
      var name := if r.called.Some? then r.called.value else "";
      var client := if r.client == None || r.client == Some("") then "unknown" else r.client.value;
      Check(e, r, glob).1 == Allow <==>
        && (p.size.Some? ==> r.bytes <= p.size.value)
        && (p.methods.Some? ==>
              && (forall k :: 0 <= k < |p.methods.value.deny| ==> !glob(name, p.methods.value.deny[k]))
              && (p.methods.value.allow == [] ||
                    exists k :: 0 <= k < |p.methods.value.allow| && glob(name, p.methods.value.allow[k])))
        && (p.limit.Some? && (p.limit.value.scope == Both || p.limit.value.scope == UpstreamOnly) ==>
              Ready(e, Key(r.upstream, PerUpstream, "-"), p.limit.value, r.now) >= 1.0)
        && (p.limit.Some? && (p.limit.value.scope == Both || p.limit.value.scope == ClientOnly) ==>
              Ready(e, Key(r.upstream, PerClient, client), p.limit.value, r.now) >= 1.0)
  {
    hide Ready, TakeAll, Consistent, MethodAllowed, Resolve;
    var p := Resolve(e.config, r.upstream);
    if p.methods.Some? { DenyGoesFirst(p.methods.value, [], if r.called.Some? then r.called.value else "", glob); }
    if p.limit.Some? {
      assert p.limit.value.rate > 0.0 && p.limit.value.burst > 0;
      var keys := Keys(p.limit.value, r.upstream, r.client);
      TakeAllAllowsIff(e, keys, p.limit.value, r.now);
      assert p.limit.value.scope != ClientOnly ==> keys[0] == Key(r.upstream, PerUpstream, "-");
      assert p.limit.value.scope != UpstreamOnly ==> keys[|keys| - 1] == Key(r.upstream, PerClient, ClientName(r.client));
    }
  }

  // ---- When an upstream pays for a request that is denied ----

  /**
   Both scopes are limited, nothing but the client's bucket stands against the request, and
   that one is empty. All of this can be asked before the request is checked.
   */
  ghost predicate PaysInVain(e: Engine, r: Request, limit: Limit, glob: Glob) {
    var p := Resolve(e.config, r.upstream);
    && limit.scope == Both
    && (p.size.Some? ==> r.bytes <= p.size.value)
    && (p.methods.Some? ==> MethodAllowed(p.methods.value, r.called, glob))
    && Ready(e, Key(r.upstream, PerUpstream, "-"), limit, r.now) >= 1.0
    && Ready(e, Key(r.upstream, PerClient, ClientName(r.client)), limit, r.now) < 1.0
  }

  lemma BothKeys(limit: Limit, upstream: string, client: Option<string>)
    requires limit.scope == Both
    ensures Keys(limit, upstream, client) == [Key(upstream, PerUpstream, "-"), Key(upstream, PerClient, ClientName(client))]
  {
  }

  /** With both scopes limited, what two takes decide. */
  lemma BothTakes(e: Engine, up: Key, own: Key, limit: Limit, now: real)
    requires Consistent(e, now) && limit.rate > 0.0 && limit.burst > 0 && up.scope == PerUpstream && own.scope == PerClient
    ensures TakeAll(e, [up, own], limit, now).1 ==
      if Ready(e, up, limit, now) < 1.0 then Deny(RateLimited(PerUpstream))
      else if Ready(e, own, limit, now) < 1.0 then Deny(RateLimited(PerClient))
      else Allow
  {
    hide Ready, TakeAt, Consistent;
    var e1 := TakeAt(e, up, limit, now).0;
    TakeAtReadyIff(e, up, limit, now);
    TakeAtReadyIff(e1, own, limit, now);
    TakeAtReady(e, up, own, limit, now);
    TakeAllOne(e1, own, limit, now);
    assert [up, own][1..] == [own];
  }

  lemma DeniedForClientIff(e: Engine, r: Request, limit: Limit, glob: Glob)
    requires Consistent(e, r.now) && ValidConfig(e.config)
    requires Resolve(e.config, r.upstream).limit == Some(limit)
    ensures limit.scope == Both && Check(e, r, glob).1 == Deny(RateLimited(PerClient)) <==> PaysInVain(e, r, limit, glob)
  {
    hide Ready, TakeAll, MethodAllowed, Consistent;
    if limit.scope == Both {
      BothKeys(limit, r.upstream, r.client);
      hide Keys;
      BothTakes(e, Key(r.upstream, PerUpstream, "-"), Key(r.upstream, PerClient, ClientName(r.client)), limit, r.now);
    }
  }

  /**
   A denied request leaves every bucket as it was if and only if it is not one of those for
   which its upstream pays in vain.
   */
  lemma DeniedRequestUntouchedIff(e: Engine, r: Request, limit: Limit, glob: Glob)
    requires Consistent(e, r.now) && ValidConfig(e.config)
    requires Resolve(e.config, r.upstream).limit == Some(limit)
    requires Check(e, r, glob).1.Deny?
    ensures Untouched(e, Check(e, r, glob).0, r.upstream, limit, r.now) <==> !PaysInVain(e, r, limit, glob)
  {
    hide Untouched, PaysInVain, Check, Consistent;
    DeniedTouchesIff(e, r, limit, glob);
    DeniedForClientIff(e, r, limit, glob);
  }
}
