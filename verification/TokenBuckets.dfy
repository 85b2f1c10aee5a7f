/** The lazy token bucket of src/mcpxy_proxy/policy/engine.py, over the reals. */
module TokenBuckets {
  import opened Prelude

  /** A bucket; `last` is unset until the first take. */
  datatype Bucket = Bucket(rate: real, capacity: int, tokens: real, last: Option<real>)

  ghost predicate WellFormed(b: Bucket) {
    && b.rate > 0.0 && b.capacity > 0
    && 0.0 <= b.tokens <= b.capacity as real
    && (b.last.None? ==> b.tokens == b.capacity as real)
  }

  /** The clock has not run backwards since the bucket was last touched. */
  ghost predicate NotAfter(b: Bucket, now: real) {
    b.last.Some? ==> b.last.value <= now
  }

  function Full(rate: real, capacity: int): (b: Bucket)
    ensures rate > 0.0 && capacity > 0 ==> WellFormed(b)
  {
    Bucket(rate, capacity, capacity as real, None)
  }

  function Min(a: real, b: real): (m: real)
    ensures m <= a && m <= b && (m == a || m == b)
  {
    if a <= b then a else b
  }

  /** What a rate adds up to over some seconds. */
  function Accrued(seconds: real, rate: real): real {
    seconds * rate
  }

  function Refill(b: Bucket, now: real): (r: Bucket)
  {
    if b.last.None? then b.(last := Some(now))
    else if now > b.last.value then
      b.(tokens := Min(b.capacity as real, b.tokens + Accrued(now - b.last.value, b.rate)), last := Some(now))
    else b
  }

  function Take(b: Bucket, now: real): (r: (Bucket, bool))
  {
    var f := Refill(b, now);
    if f.tokens >= 1.0 then (f.(tokens := f.tokens - 1.0), true) else (f, false)
  }

  class TokenBucket {
    const rate: real
    const capacity: int
    var tokens: real
    var last: Option<real>

    function State(): (b: Bucket)
      reads this
    {
      Bucket(rate, capacity, tokens, last)
    }

    constructor (rate: real, capacity: int)
      ensures State() == Full(rate, capacity)
    {
      this.rate, this.capacity := rate, capacity;
      tokens, last := capacity as real, None;
    }

    method TakeOne(now: real) returns (allowed: bool)
      modifies this
      ensures (State(), allowed) == Take(old(State()), now)
    {
      if last.None? {
        last := Some(now);
      }
      var elapsed := now - last.value;
      if elapsed > 0.0 {
        tokens := Min(capacity as real, tokens + Accrued(elapsed, rate));
        last := Some(now);
      }
      if tokens >= 1.0 {
        tokens := tokens - 1.0;
        return true;
      }
      return false;
    }
  }

  // ---- Lazy refill is one ideal refill ----

  lemma Distribute(a: real, b: real, rate: real)
    ensures Accrued(a + b, rate) == Accrued(a, rate) + Accrued(b, rate)
  {
  }

  lemma AccruedIs(seconds: real, rate: real)
    ensures Accrued(seconds, rate) == seconds * rate
  {
  }

  lemma Grows(a: real, rate: real)
    requires a >= 0.0 && rate > 0.0
    ensures Accrued(a, rate) >= 0.0
  {
  }

  lemma RefillKeeps(b: Bucket, now: real)
    requires WellFormed(b) && NotAfter(b, now)
    ensures WellFormed(Refill(b, now)) && Refill(b, now).last == Some(now)
    ensures Refill(b, now).rate == b.rate && Refill(b, now).capacity == b.capacity
    ensures Refill(b, now).tokens >= b.tokens
  {
    if b.last.Some? { Grows(now - b.last.value, b.rate); }
  }

  lemma TakeKeeps(b: Bucket, now: real)
    requires WellFormed(b) && NotAfter(b, now)
    ensures WellFormed(Take(b, now).0) && Take(b, now).0.last == Some(now)
    ensures Take(b, now).0.rate == b.rate && Take(b, now).0.capacity == b.capacity
  {
    hide Refill;
    RefillKeeps(b, now);
  }

  /** Refilling in two steps is refilling once over the whole gap. */
  lemma RefillComposes(b: Bucket, t1: real, t2: real)
    requires WellFormed(b) && NotAfter(b, t1) && t1 <= t2
    ensures Refill(Refill(b, t1), t2) == Refill(b, t2)
  {
    if b.last.Some? {
      Grows(t1 - b.last.value, b.rate);
      Grows(t2 - t1, b.rate);
      Distribute(t1 - b.last.value, t2 - t1, b.rate);
    } else {
      Grows(t2 - t1, b.rate);
    }
  }

  /** Tokens grow at most at the configured rate. */
  lemma RefillBound(b: Bucket, t1: real, t2: real)
    requires WellFormed(b) && NotAfter(b, t1) && t1 <= t2
    ensures Refill(b, t2).tokens <= Refill(b, t1).tokens + Accrued(t2 - t1, b.rate)
  {
    RefillComposes(b, t1, t2);
    RefillKeeps(b, t1);
    Grows(t2 - t1, b.rate);
  }

  /** Whoever waits for the time of one token is let through, whatever happened before. */
  lemma WaitAllows(b: Bucket, now: real)
    requires WellFormed(b) && NotAfter(b, now)
    requires b.last.Some? ==> (now - b.last.value) * b.rate >= 1.0
    ensures Take(b, now).1
  {
    if b.last.Some? { AccruedIs(now - b.last.value, b.rate); }
    hide Accrued;
  }

  // ---- Runs of one bucket ----

  predicate Ordered(ts: seq<real>, from: real) {
    ts == [] || (from <= ts[0] && Ordered(ts[1..], ts[0]))
  }

  function After(b: Bucket, ts: seq<real>): (r: Bucket)
    decreases |ts|
  {
    if ts == [] then b else After(Take(b, ts[0]).0, ts[1..])
  }

  function Decisions(b: Bucket, ts: seq<real>): (ds: seq<bool>)
    ensures |ds| == |ts|
    decreases |ts|
  {
    if ts == [] then [] else [Take(b, ts[0]).1] + Decisions(Take(b, ts[0]).0, ts[1..])
  }

  /** The times of the takes that were allowed. */
  function Allowed(b: Bucket, ts: seq<real>): (kept: seq<real>)
    ensures |kept| <= |ts|
    decreases |ts|
  {
    if ts == [] then []
    else (if Take(b, ts[0]).1 then [ts[0]] else []) + Allowed(Take(b, ts[0]).0, ts[1..])
  }

  lemma {:induction false} OrderedFrom(ts: seq<real>, from: real, earlier: real)
    requires Ordered(ts, from) && earlier <= from
    ensures Ordered(ts, earlier)
  {
  }

  lemma TakeAfterRefill(b: Bucket, t1: real, t2: real)
    requires WellFormed(b) && NotAfter(b, t1) && t1 <= t2
    ensures Take(Refill(b, t1), t2) == Take(b, t2)
  {
    hide Refill;
    RefillComposes(b, t1, t2);
  }

  /** Looking at a bucket early changes nothing that is decided later. */
  lemma RefillUnseen(b: Bucket, now: real, ts: seq<real>)
    requires WellFormed(b) && NotAfter(b, now) && Ordered(ts, now)
    ensures Decisions(Refill(b, now), ts) == Decisions(b, ts)
    ensures Allowed(Refill(b, now), ts) == Allowed(b, ts)
  {
    hide Take;
    if ts != [] {
      TakeAfterRefill(b, now, ts[0]);
    }
  }

  /**
   Denied takes leave no trace: deleting every one of them leaves all other takes allowed,
   and the bucket that any later take sees is the same.
   */
  lemma {:induction false} DeniedTakesLeaveNoTrace(b: Bucket, ts: seq<real>, from: real)
    requires WellFormed(b) && NotAfter(b, from) && Ordered(ts, from)
    ensures Allowed(b, Allowed(b, ts)) == Allowed(b, ts)
    ensures Ordered(Allowed(b, ts), from)
    decreases |ts|
  {
    hide Refill;
    if ts != [] {
      var t := ts[0];
      var (next, allowed) := Take(b, t);
      TakeKeeps(b, t);
      DeniedTakesLeaveNoTrace(next, ts[1..], t);
      var kept := Allowed(next, ts[1..]);
      if allowed {
        assert ([t] + kept)[1..] == kept;
      } else {
        assert next == Refill(b, t) && [] + kept == kept;
        RefillUnseen(b, t, kept);
        OrderedFrom(kept, t, from);
      }
    }
  }

  lemma {:induction false} WindowPays(b: Bucket, ts: seq<real>, from: real, to: real)
    requires WellFormed(b) && NotAfter(b, from) && Ordered(ts, from) && from <= to
    requires forall k | 0 <= k < |ts| :: ts[k] <= to
    ensures |Allowed(b, ts)| as real <= Refill(b, from).tokens + Accrued(to - from, b.rate)
    decreases |ts|
  {
    hide Refill, Accrued;
    RefillKeeps(b, from);
    Grows(to - from, b.rate);
    if ts != [] {
      var t := ts[0];
      var next := Take(b, t).0;
      TakeKeeps(b, t);
      WindowPays(next, ts[1..], t, to);
      RefillSame(next, t);
      RefillBound(b, from, t);
      Distribute(t - from, to - t, b.rate);
    }
  }

  /** Within any window, at most burst + rate * length takes are allowed. */
  lemma WindowBound(b: Bucket, ts: seq<real>, from: real, to: real)
    requires WellFormed(b) && NotAfter(b, from) && Ordered(ts, from) && from <= to
    requires forall k | 0 <= k < |ts| :: ts[k] <= to
    ensures |Allowed(b, ts)| as real <= b.capacity as real + (to - from) * b.rate
  {
    hide Refill, Accrued, Allowed, Ordered;
    WindowPays(b, ts, from, to);
    RefillKeeps(b, from);
    AccruedIs(to - from, b.rate);
  }

  lemma RefillSame(b: Bucket, now: real)
    requires b.last == Some(now)
    ensures Refill(b, now) == b
  {
  }

  // ---- When forgetting an idle bucket is not noticed ----

  /** Idle for so long that an ideal refill would have topped it up. */
  ghost predicate ToppedUp(b: Bucket, now: real) {
    Refill(b, now).tokens == b.capacity as real
  }

  lemma IdleToppedUp(b: Bucket, now: real, idle: real)
    requires WellFormed(b) && b.last.Some? && now - b.last.value > idle >= 0.0
    requires Accrued(idle, b.rate) >= b.capacity as real
    ensures ToppedUp(b, now)
  {
    Grows(now - b.last.value - idle, b.rate);
    Distribute(idle, now - b.last.value - idle, b.rate);
  }

  lemma StaysToppedUp(b: Bucket, now: real, later: real)
    requires WellFormed(b) && NotAfter(b, now) && now <= later && ToppedUp(b, now)
    ensures ToppedUp(b, later)
    ensures Take(b, later) == Take(Full(b.rate, b.capacity), later)
  {
    RefillComposes(b, now, later);
    RefillKeeps(b, now);
    RefillKeeps(Refill(b, now), later);
  }

  /** `times` takes at one instant. */
  function Repeat(t: real, times: nat): (ts: seq<real>)
    ensures |ts| == times
  {
    if times == 0 then [] else [t] + Repeat(t, times - 1)
  }

  lemma {:induction false} OrderedRepeat(t: real, times: nat, from: real)
    requires from <= t
    ensures Ordered(Repeat(t, times), from)
  {
    if times > 0 { OrderedRepeat(t, times - 1, t); }
  }

  predicate All(ds: seq<bool>) {
    ds == [] || (ds[0] && All(ds[1..]))
  }

  /** At one instant a bucket allows as many takes as it has whole tokens. */
  lemma {:induction false} Burst(b: Bucket, t: real, times: nat)
    requires WellFormed(b) && b.last == Some(t)
    ensures All(Decisions(b, Repeat(t, times))) <==> b.tokens >= times as real
    ensures b.tokens >= times as real ==>
      After(b, Repeat(t, times)) == b.(tokens := b.tokens - times as real)
    decreases times
  {
    if times > 0 {
      var next := Take(b, t).0;
      TakeKeeps(b, t);
      Burst(next, t, times - 1);
      assert Repeat(t, times)[1..] == Repeat(t, times - 1);
      assert Decisions(b, Repeat(t, times))[1..] == Decisions(next, Repeat(t, times - 1));
    }
  }

  /**
   Forgetting a bucket after `idle` seconds is never noticed: whatever was taken before and
   whatever is asked after, the forgotten bucket and a new one decide alike.
   */
  ghost predicate EvictionUnseen(rate: real, capacity: int, idle: real) {
    forall before: seq<real>, now: real, after: seq<real> ::
      Forgotten(rate, capacity, idle, before, now) && Ordered(after, now) ==>
        Decisions(After(Full(rate, capacity), before), after) == Decisions(Full(rate, capacity), after)
  }

  ghost predicate Forgotten(rate: real, capacity: int, idle: real, before: seq<real>, now: real) {
    before != [] && Ordered(before, before[0]) && now - before[|before| - 1] > idle
  }

  lemma {:induction false} AfterKeeps(b: Bucket, ts: seq<real>, from: real)
    requires WellFormed(b) && NotAfter(b, from) && Ordered(ts, from)
    ensures WellFormed(After(b, ts)) && After(b, ts).rate == b.rate && After(b, ts).capacity == b.capacity
    ensures ts != [] ==> After(b, ts).last == Some(ts[|ts| - 1])
    decreases |ts|
  {
    hide Take;
    if ts != [] {
      TakeKeeps(b, ts[0]);
      AfterKeeps(Take(b, ts[0]).0, ts[1..], ts[0]);
    }
  }

  lemma EvictionSafe(rate: real, capacity: int, idle: real, before: seq<real>, now: real, after: seq<real>)
    requires rate > 0.0 && capacity > 0 && idle >= 0.0 && Accrued(idle, rate) >= capacity as real
    requires Forgotten(rate, capacity, idle, before, now) && Ordered(after, now)
    ensures Decisions(After(Full(rate, capacity), before), after) == Decisions(Full(rate, capacity), after)
  {
    var b := After(Full(rate, capacity), before);
    AfterKeeps(Full(rate, capacity), before, before[0]);
    if after != [] {
      IdleToppedUp(b, now, idle);
      StaysToppedUp(b, now, after[0]);
    }
  }

  /** A first take sets the clock of a full bucket and nothing else. */
  lemma FirstTakes(rate: real, capacity: int, t: real, times: nat)
    requires times > 0
    ensures var full := Full(rate, capacity); var ts := Repeat(t, times);
      Decisions(full, ts) == Decisions(full.(last := Some(t)), ts) && After(full, ts) == After(full.(last := Some(t)), ts)
  {
    assert Take(Full(rate, capacity), t) == Take(Full(rate, capacity).(last := Some(t)), t);
  }

  lemma EmptiedByBurst(rate: real, capacity: int, t: real)
    requires rate > 0.0 && capacity > 0
    ensures After(Full(rate, capacity), Repeat(t, capacity)) == Bucket(rate, capacity, 0.0, Some(t))
  {
    FirstTakes(rate, capacity, t, capacity);
    Burst(Full(rate, capacity).(last := Some(t)), t, capacity);
  }

  lemma SecondBurstDiffers(rate: real, capacity: int, now: real)
    requires rate > 0.0 && capacity > 0 && now >= 0.0 && Accrued(now, rate) < capacity as real
    ensures var ts := Repeat(now, capacity);
      Decisions(Bucket(rate, capacity, 0.0, Some(0.0)), ts) != Decisions(Full(rate, capacity), ts)
  {
    hide Accrued;
    var empty := Bucket(rate, capacity, 0.0, Some(0.0));
    RefillKeeps(empty, now);
    TakeAfterRefill(empty, now, now);
    Burst(Refill(empty, now), now, capacity);
    FirstTakes(rate, capacity, now, capacity);
    Burst(Full(rate, capacity).(last := Some(now)), now, capacity);
  }

  /** Forget too early, and a client that emptied its bucket gets a second burst. */
  lemma EvictionSeen(rate: real, capacity: int, idle: real)
    requires rate > 0.0 && capacity > 0 && idle >= 0.0 && Accrued(idle, rate) < capacity as real
    ensures !EvictionUnseen(rate, capacity, idle)
  {
    hide Decisions, After, Accrued;
    var slack := (capacity as real - Accrued(idle, rate)) / (2.0 * rate);
    var now := idle + slack;
    Halves(capacity as real - Accrued(idle, rate), rate, slack);
    Distribute(idle, slack, rate);
    var before, after := Repeat(0.0, capacity), Repeat(now, capacity);
    OrderedRepeat(0.0, capacity, 0.0);
    OrderedRepeat(now, capacity, now);
    LastOfRepeat(0.0, capacity);
    EmptiedByBurst(rate, capacity, 0.0);
    SecondBurstDiffers(rate, capacity, now);
    assert Forgotten(rate, capacity, idle, before, now);
  }

  lemma Halves(gap: real, rate: real, slack: real)
    requires gap > 0.0 && rate > 0.0 && slack == gap / (2.0 * rate)
    ensures slack > 0.0 && Accrued(slack, rate) == gap / 2.0
  {
  }

  lemma {:induction false} LastOfRepeat(t: real, times: nat)
    requires times > 0
    ensures Repeat(t, times)[0] == t && Repeat(t, times)[times - 1] == t
  {
    if times > 1 { LastOfRepeat(t, times - 1); }
  }

  /** Eviction is unobservable exactly when an idle bucket has had time to fill up again. */
  lemma EvictionUnseenIff(rate: real, capacity: int, idle: real)
    requires rate > 0.0 && capacity > 0 && idle >= 0.0
    ensures EvictionUnseen(rate, capacity, idle) <==> idle * rate >= capacity as real
  {
    AccruedIs(idle, rate);
    hide Decisions, After, Full;
    if Accrued(idle, rate) >= capacity as real {
      forall before: seq<real>, now: real, after: seq<real>
        | Forgotten(rate, capacity, idle, before, now) && Ordered(after, now)
        ensures Decisions(After(Full(rate, capacity), before), after) == Decisions(Full(rate, capacity), after)
      {
        EvictionSafe(rate, capacity, idle, before, now, after);
      }
    } else {
      EvictionSeen(rate, capacity, idle);
    }
  }
}
