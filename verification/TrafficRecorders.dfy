/**
 The traffic ring buffer of src/mcpxy_proxy/observability/traffic.py: its fan-out to
 subscribers, and the aggregates that `metrics` computes over a window of it.
 */
module TrafficRecorders {
  import opened Prelude

  /** The metadata of a request that fan-out and metrics look at. */
  datatype Record = Record(timestamp: real, upstream: string, status: string, latency: real)

  /** A subscriber's queue; `since`, `got` and `dropped` record what was meant for it, put and not put. */
  datatype Subscriber = Subscriber(
    open: bool, queue: seq<Record>, since: seq<Record>, got: seq<Record>, dropped: nat)

  type Subscribers = map<nat, Subscriber>

  datatype Recorder = Recorder(
    maxlen: nat, queueMax: int, buffer: seq<Record>, subscribers: Subscribers, dropped: nat)

  predicate Full(s: Subscriber, queueMax: int) {
    0 < queueMax <= |s.queue|
  }

  /** Appending to a bounded deque pushes the oldest record out. */
  function Push(buffer: seq<Record>, maxlen: nat, rec: Record): (r: seq<Record>)
    requires |buffer| <= maxlen
    ensures |r| <= maxlen
  {
    if maxlen == 0 then [] else (if |buffer| < maxlen then buffer else buffer[1..]) + [rec]
  }

  function Put(s: Subscriber, queueMax: int, rec: Record): (r: Subscriber) {
    if Full(s, queueMax) then s.(since := s.since + [rec], dropped := s.dropped + 1)
    else s.(since := s.since + [rec], queue := s.queue + [rec], got := s.got + [rec])
  }

  function Open(subs: Subscribers): (ids: set<nat>) {
    set id | id in subs && subs[id].open
  }

  function PutIn(subs: Subscribers, ids: set<nat>, queueMax: int, rec: Record): (r: Subscribers) {
    map id | id in subs :: if id in ids then Put(subs[id], queueMax, rec) else subs[id]
  }

  function FullIn(subs: Subscribers, ids: set<nat>, queueMax: int): (full: set<nat>)
    ensures full <= ids
  {
    set id | id in ids && id in subs && Full(subs[id], queueMax)
  }

  function Recorded(r: Recorder, rec: Record): (s: Recorder)
    requires |r.buffer| <= r.maxlen
  {
    var open := Open(r.subscribers);
    r.(buffer := Push(r.buffer, r.maxlen, rec),
       subscribers := PutIn(r.subscribers, open, r.queueMax, rec),
       dropped := r.dropped + |FullIn(r.subscribers, open, r.queueMax)|)
  }

  class TrafficRecorder {
    const maxlen: nat
    const queueMax: int
    var buffer: seq<Record>
    var subscribers: Subscribers
    var droppedForSubscribers: nat

    function State(): (r: Recorder)
      reads this
    {
      Recorder(maxlen, queueMax, buffer, subscribers, droppedForSubscribers)
    }

    constructor (maxlen: nat, queueMax: int)
      ensures State() == Recorder(maxlen, queueMax, [], map[], 0)
    {
      this.maxlen, this.queueMax := maxlen, queueMax;
      buffer, subscribers, droppedForSubscribers := [], map[], 0;
    }

    method RecordTraffic(rec: Record)
      requires |buffer| <= maxlen
      modifies this
      ensures State() == Recorded(old(State()), rec)
    {
      if maxlen > 0 {
        if |buffer| >= maxlen {
          buffer := buffer[1..];
        }
        buffer := buffer + [rec];
      }
      FanOut(rec);
    }

    /** In the arbitrary order of a set. */
    method FanOut(rec: Record)
      modifies this`subscribers, this`droppedForSubscribers
      ensures subscribers == PutIn(old(subscribers), Open(old(subscribers)), queueMax, rec)
      ensures droppedForSubscribers ==
        old(droppedForSubscribers) + |FullIn(old(subscribers), Open(old(subscribers)), queueMax)|
    {
      var todo := Open(subscribers);
      ghost var open := todo;
      ghost var before := subscribers;
      PutNone(before, queueMax, rec);
      hide PutIn, FullIn, Open;
      while todo != {}
        invariant todo <= open
        invariant subscribers == PutIn(before, open - todo, queueMax, rec)
        invariant droppedForSubscribers == old(droppedForSubscribers) + |FullIn(before, open - todo, queueMax)|
        decreases |todo|
      {
        var id :| id in todo;
        NextPut(before, open, todo, id, queueMax, rec);
        var q := subscribers[id];
        if 0 < queueMax <= |q.queue| {
          droppedForSubscribers := droppedForSubscribers + 1;
          subscribers := subscribers[id := q.(since := q.since + [rec], dropped := q.dropped + 1)];
        } else {
          subscribers := subscribers[id := q.(since := q.since + [rec], queue := q.queue + [rec], got := q.got + [rec])];
        }
        todo := todo - {id};
      }
      assert open - todo == open;
    }

    method Subscribe(id: nat)
      requires id !in subscribers
      modifies this`subscribers
      ensures subscribers == old(subscribers)[id := Subscriber(true, [], [], [], 0)]
    {
      subscribers := subscribers[id := Subscriber(true, [], [], [], 0)];
    }

    /** A subscriber takes the head of its queue. */
    method GetNext(id: nat) returns (rec: Record)
      requires id in subscribers && subscribers[id].queue != []
      modifies this`subscribers
      ensures rec == old(subscribers)[id].queue[0]
      ensures subscribers == old(subscribers)[id := old(subscribers)[id].(queue := old(subscribers)[id].queue[1..])]
    {
      rec := subscribers[id].queue[0];
      subscribers := subscribers[id := subscribers[id].(queue := subscribers[id].queue[1..])];
    }

    method CloseSubscription(id: nat)
      requires id in subscribers
      modifies this`subscribers
      ensures subscribers == old(subscribers)[id := old(subscribers)[id].(open := false)]
    {
      subscribers := subscribers[id := subscribers[id].(open := false)];
    }

    method ClearBuffer()
      modifies this`buffer
      ensures buffer == []
    {
      buffer := [];
    }
  }

  lemma PutNone(subs: Subscribers, queueMax: int, rec: Record)
    ensures Open(subs) - Open(subs) == {}
    ensures PutIn(subs, {}, queueMax, rec) == subs && FullIn(subs, {}, queueMax) == {}
  {
  }

  lemma NotYetPut(subs: Subscribers, ids: set<nat>, id: nat, queueMax: int, rec: Record)
    requires id in subs && id !in ids
    ensures id in PutIn(subs, ids, queueMax, rec) && PutIn(subs, ids, queueMax, rec)[id] == subs[id]
  {
  }

  lemma PutOne(subs: Subscribers, ids: set<nat>, id: nat, queueMax: int, rec: Record)
    requires id in subs && id !in ids
    ensures PutIn(subs, ids + {id}, queueMax, rec) == PutIn(subs, ids, queueMax, rec)[id := Put(subs[id], queueMax, rec)]
    ensures FullIn(subs, ids + {id}, queueMax) == FullIn(subs, ids, queueMax) + (if Full(subs[id], queueMax) then {id} else {})
    ensures |FullIn(subs, ids + {id}, queueMax)| == |FullIn(subs, ids, queueMax)| + (if Full(subs[id], queueMax) then 1 else 0)
  {
    hide Put, Full;
    assert PutIn(subs, ids + {id}, queueMax, rec) == PutIn(subs, ids, queueMax, rec)[id := Put(subs[id], queueMax, rec)];
    assert FullIn(subs, ids + {id}, queueMax) == FullIn(subs, ids, queueMax) + (if Full(subs[id], queueMax) then {id} else {});
  }

  /** One turn of the fan-out. */
  lemma NextPut(subs: Subscribers, open: set<nat>, todo: set<nat>, id: nat, queueMax: int, rec: Record)
    requires open == Open(subs) && todo <= open && id in todo
    ensures id in subs && id in PutIn(subs, open - todo, queueMax, rec)
    ensures PutIn(subs, open - todo, queueMax, rec)[id] == subs[id]
    ensures PutIn(subs, open - (todo - {id}), queueMax, rec)
      == PutIn(subs, open - todo, queueMax, rec)[id := Put(subs[id], queueMax, rec)]
    ensures |FullIn(subs, open - (todo - {id}), queueMax)|
      == |FullIn(subs, open - todo, queueMax)| + (if Full(subs[id], queueMax) then 1 else 0)
  {
    hide Put, Full;
    NotYetPut(subs, open - todo, id, queueMax, rec);
    PutOne(subs, open - todo, id, queueMax, rec);
    assert open - (todo - {id}) == open - todo + {id};
  }

  // ---- What each subscriber gets ----

  /** `a` is `b` with some elements left out. */
  ghost predicate Subsequence<T>(a: seq<T>, b: seq<T>)
    decreases |b|
  {
    if a == [] then true
    else if b == [] then false
    else
      var n, m := |a| - 1, |b| - 1;
      (a[n] == b[m] && Subsequence(a[..n], b[..m])) || Subsequence(a, b[..m])
  }

  lemma SubsequenceAppend<T>(a: seq<T>, b: seq<T>, x: T)
    requires Subsequence(a, b)
    ensures Subsequence(a + [x], b + [x]) && Subsequence(a, b + [x])
  {
    assert (a + [x])[..|a|] == a && (b + [x])[..|b|] == b;
  }

  ghost predicate EndsWith<T>(all: seq<T>, end: seq<T>) {
    var skipped := |all| - |end|;
    skipped >= 0 && forall i | 0 <= i < |end| :: end[i] == all[skipped + i]
  }

  lemma EndAppend<T>(all: seq<T>, end: seq<T>, x: T)
    requires EndsWith(all, end)
    ensures EndsWith(all + [x], end + [x])
  {
  }

  lemma EndDrop<T>(all: seq<T>, end: seq<T>)
    requires EndsWith(all, end) && end != []
    ensures EndsWith(all, end[1..])
  {
  }

  /** What a subscriber got is what was recorded since it subscribed, in order, less what was dropped. */
  ghost predicate SubscriberOk(s: Subscriber, queueMax: int) {
    && |s.got| + s.dropped == |s.since|
    && Subsequence(s.got, s.since)
    && EndsWith(s.got, s.queue)
    && (queueMax > 0 ==> |s.queue| <= queueMax)
  }

  function Drops(subs: Subscribers): (counts: map<nat, nat>) {
    map id | id in subs :: subs[id].dropped
  }

  ghost predicate Inv(r: Recorder) {
    && |r.buffer| <= r.maxlen
    && (forall id | id in r.subscribers :: SubscriberOk(r.subscribers[id], r.queueMax))
    && r.dropped == MapSum(Drops(r.subscribers))
  }

  datatype Action =
    | Observe(rec: Record)
    | Subscribe(id: nat)
    | Get(id: nat)              // a subscriber takes the head of its queue
    | Close(id: nat)
    | Clear

  predicate Enabled(r: Recorder, a: Action) {
    match a
    case Observe(_) => |r.buffer| <= r.maxlen
    case Subscribe(id) => id !in r.subscribers
    case Get(id) => id in r.subscribers && r.subscribers[id].queue != []
    case Close(id) => id in r.subscribers
    case Clear => true
  }

  function Step(r: Recorder, a: Action): (s: Recorder)
    requires Enabled(r, a)
  {
    match a
    case Observe(rec) => Recorded(r, rec)
    case Subscribe(id) => r.(subscribers := r.subscribers[id := Subscriber(true, [], [], [], 0)])
    case Get(id) => r.(subscribers := r.subscribers[id := r.subscribers[id].(queue := r.subscribers[id].queue[1..])])
    case Close(id) => r.(subscribers := r.subscribers[id := r.subscribers[id].(open := false)])
    case Clear => r.(buffer := [])
  }

  lemma PutKeeps(s: Subscriber, queueMax: int, rec: Record)
    requires SubscriberOk(s, queueMax)
    ensures SubscriberOk(Put(s, queueMax, rec), queueMax)
  {
    hide Subsequence, EndsWith;
    SubsequenceAppend(s.got, s.since, rec);
    EndAppend(s.got, s.queue, rec);
  }

  /** The global drop counter rises by the subscribers that were full. */
  lemma {:induction false} DropsPutIn(subs: Subscribers, ids: set<nat>, queueMax: int, rec: Record)
    requires ids <= subs.Keys
    ensures MapSum(Drops(PutIn(subs, ids, queueMax, rec))) == MapSum(Drops(subs)) + |FullIn(subs, ids, queueMax)|
    decreases |ids|
  {
    if ids == {} {
      assert PutIn(subs, ids, queueMax, rec) == subs;
      assert FullIn(subs, ids, queueMax) == {};
    } else {
      var id :| id in ids;
      DropsPutIn(subs, ids - {id}, queueMax, rec);
      DropsPutOne(subs, ids - {id}, id, queueMax, rec);
      assert ids - {id} + {id} == ids;
    }
  }

  lemma DropsPutOne(subs: Subscribers, ids: set<nat>, id: nat, queueMax: int, rec: Record)
    requires id in subs && id !in ids
    ensures MapSum(Drops(PutIn(subs, ids + {id}, queueMax, rec)))
      == MapSum(Drops(PutIn(subs, ids, queueMax, rec))) + (if Full(subs[id], queueMax) then 1 else 0)
    ensures |FullIn(subs, ids + {id}, queueMax)| == |FullIn(subs, ids, queueMax)| + (if Full(subs[id], queueMax) then 1 else 0)
  {
    hide Put, Full, PutIn, FullIn;
    PutOne(subs, ids, id, queueMax, rec);
    PutDrops(subs[id], queueMax, rec);
    NotYetPut(subs, ids, id, queueMax, rec);
    var before := PutIn(subs, ids, queueMax, rec);
    assert Drops(before[id := Put(subs[id], queueMax, rec)]) == Drops(before)[id := Put(subs[id], queueMax, rec).dropped];
    SumUpdate(Drops(before), id, Put(subs[id], queueMax, rec).dropped);
  }

  lemma PutDrops(s: Subscriber, queueMax: int, rec: Record)
    ensures Put(s, queueMax, rec).dropped == s.dropped + (if Full(s, queueMax) then 1 else 0)
  {
  }

  lemma RecordKeeps(r: Recorder, rec: Record)
    requires Inv(r)
    ensures Inv(Recorded(r, rec))
  {
    hide SubscriberOk, Put, Drops;
    var open := Open(r.subscribers);
    DropsPutIn(r.subscribers, open, r.queueMax, rec);
    forall id | id in open ensures SubscriberOk(Put(r.subscribers[id], r.queueMax, rec), r.queueMax) {
      PutKeeps(r.subscribers[id], r.queueMax, rec);
    }
  }

  lemma OneChanges(r: Recorder, id: nat, s: Subscriber)
    requires Inv(r) && SubscriberOk(s, r.queueMax)
    requires s.dropped == if id in r.subscribers then r.subscribers[id].dropped else 0
    ensures Inv(r.(subscribers := r.subscribers[id := s]))
  {
    hide SubscriberOk;
    SumUpdate(Drops(r.subscribers), id, s.dropped);
    assert Drops(r.subscribers[id := s]) == Drops(r.subscribers)[id := s.dropped];
  }

  lemma SubscribeKeeps(r: Recorder, id: nat)
    requires Inv(r) && id !in r.subscribers
    ensures Inv(Step(r, Subscribe(id)))
  {
    OneChanges(r, id, Subscriber(true, [], [], [], 0));
  }

  lemma GetKeeps(r: Recorder, id: nat)
    requires Inv(r) && Enabled(r, Get(id))
    ensures Inv(Step(r, Get(id)))
  {
    hide Subsequence, EndsWith, Drops;
    var s := r.subscribers[id];
    assert SubscriberOk(s, r.queueMax);
    EndDrop(s.got, s.queue);
    OneChanges(r, id, s.(queue := s.queue[1..]));
  }

  lemma CloseKeeps(r: Recorder, id: nat)
    requires Inv(r) && id in r.subscribers
    ensures Inv(Step(r, Close(id)))
  {
    hide Subsequence, EndsWith, Drops;
    assert SubscriberOk(r.subscribers[id], r.queueMax);
    OneChanges(r, id, r.subscribers[id].(open := false));
  }

  lemma StepInv(r: Recorder, a: Action)
    requires Inv(r) && Enabled(r, a)
    ensures Inv(Step(r, a))
  {
    match a {
      case Observe(rec) =>
        hide Inv, Recorded;
        RecordKeeps(r, rec);
      case Subscribe(id) => SubscribeKeeps(r, id);
      case Get(id) => GetKeeps(r, id);
      case Close(id) => CloseKeeps(r, id);
      case Clear =>
    }
  }

  ghost predicate IsRun(states: seq<Recorder>, actions: seq<Action>) {
    && |states| == |actions| + 1
    && states[0].buffer == [] && states[0].subscribers == map[] && states[0].dropped == 0
    && forall k | 0 <= k < |actions| :: Enabled(states[k], actions[k]) && states[k + 1] == Step(states[k], actions[k])
  }

  lemma InitialInv(r: Recorder)
    requires r.buffer == [] && r.subscribers == map[] && r.dropped == 0
    ensures Inv(r)
  {
    assert Drops(r.subscribers) == map[];
  }

  /**
   Over every run: what a subscriber got and what it missed are what was recorded since it
   subscribed, in order; what it took and what it has queued are what it got; and the global
   counter is the sum of what each subscriber, closed ones included, has missed.
   */
  lemma RecordsAddUp(states: seq<Recorder>, actions: seq<Action>, k: nat, id: nat)
    requires IsRun(states, actions) && k <= |actions| && id in states[k].subscribers
    ensures var s := states[k].subscribers[id];
      && |s.got| + s.dropped == |s.since| && Subsequence(s.got, s.since)
      && (s.dropped == 0 ==> s.got == s.since)
      && EndsWith(s.got, s.queue)
      && (states[k].queueMax > 0 ==> |s.queue| <= states[k].queueMax)
    ensures states[k].dropped == MapSum(Drops(states[k].subscribers)) && |states[k].buffer| <= states[k].maxlen
  {
    RunInv(states, actions, k);
    var s := states[k].subscribers[id];
    assert SubscriberOk(s, states[k].queueMax);
    if s.dropped == 0 { WholeSubsequence(s.got, s.since); }
  }

  lemma {:induction false} SubsequenceShorter<T>(a: seq<T>, b: seq<T>)
    requires Subsequence(a, b)
    ensures |a| <= |b|
    decreases |b|
  {
    if a != [] {
      var n, m := |a| - 1, |b| - 1;
      if a[n] == b[m] && Subsequence(a[..n], b[..m]) {
        SubsequenceShorter(a[..n], b[..m]);
      } else {
        SubsequenceShorter(a, b[..m]);
      }
    }
  }

  /** Nothing was left out of a subsequence of the same length. */
  lemma {:induction false} WholeSubsequence<T>(a: seq<T>, b: seq<T>)
    requires Subsequence(a, b) && |a| == |b|
    ensures a == b
    decreases |b|
  {
    if a != [] {
      var n, m := |a| - 1, |b| - 1;
      if Subsequence(a, b[..m]) { SubsequenceShorter(a, b[..m]); }
      WholeSubsequence(a[..n], b[..m]);
      assert a == a[..n] + [a[n]] && b == b[..m] + [b[m]];
    }
  }

  lemma {:induction false} RunInv(states: seq<Recorder>, actions: seq<Action>, k: nat)
    requires IsRun(states, actions) && k <= |actions|
    ensures Inv(states[k])
  {
    hide Inv, Step, Enabled;
    if k == 0 {
      InitialInv(states[0]);
    } else {
      RunInv(states, actions, k - 1);
      StepInv(states[k - 1], actions[k - 1]);
    }
  }

  /** The records made by actions `j` to `k - 1` of a run. */
  function RecordsMade(actions: seq<Action>, j: nat, k: nat): (recs: seq<Record>)
    requires j <= k <= |actions|
    decreases k
  {
    if j == k then [] else RecordsMade(actions, j, k - 1) + (if actions[k - 1].Observe? then [actions[k - 1].rec] else [])
  }

  /** `since` is exactly what was recorded between subscribing and now, while the subscription is open. */
  lemma {:induction false} SinceSubscribed(states: seq<Recorder>, actions: seq<Action>, id: nat, j: nat, k: nat)
    requires IsRun(states, actions) && j < k <= |actions| && actions[j] == Subscribe(id)
    requires forall i | j < i < k :: actions[i] != Close(id)
    ensures id in states[k].subscribers && states[k].subscribers[id].open
    ensures states[k].subscribers[id].since == RecordsMade(actions, j + 1, k)
    decreases k
  {
    hide Inv, Put, Recorded;
    if k > j + 1 {
      hide Step;
      SinceSubscribed(states, actions, id, j, k - 1);
      StepSince(states[k - 1], actions[k - 1], id);
    }
  }

  lemma StepSince(r: Recorder, a: Action, id: nat)
    requires Enabled(r, a) && id in r.subscribers && r.subscribers[id].open && a != Close(id)
    ensures var s := Step(r, a);
      && id in s.subscribers && s.subscribers[id].open
      && s.subscribers[id].since == r.subscribers[id].since + (if a.Observe? then [a.rec] else [])
  {
    hide Full;
    if a.Observe? { assert id in Open(r.subscribers); }
  }

  /**
   What one record does to a subscription: a closed one is left alone; an open one misses it
   exactly when its queue is limited and at its limit, and else has it queued last.
   */
  lemma RecordReaches(r: Recorder, rec: Record, id: nat)
    requires Inv(r) && id in r.subscribers
    ensures var s := Step(r, Observe(rec)); var q := r.subscribers[id]; var full := r.queueMax > 0 && |q.queue| == r.queueMax;
      && id in s.subscribers && s.subscribers[id].open == q.open
      && (!q.open ==> s.subscribers[id] == q)
      && (q.open ==> s.subscribers[id].since == q.since + [rec])
      && (q.open && full ==> s.subscribers[id].dropped == q.dropped + 1 && s.subscribers[id].queue == q.queue && s.subscribers[id].got == q.got)
      && (q.open && !full ==> s.subscribers[id].dropped == q.dropped && s.subscribers[id].queue == q.queue + [rec] && s.subscribers[id].got == q.got + [rec])
  {
    hide Push, FullIn, Subsequence, EndsWith;
    assert SubscriberOk(r.subscribers[id], r.queueMax);
    assert id in Open(r.subscribers) <==> r.subscribers[id].open;
  }

  /** What a subscriber took out of its queue in steps `j` to `k - 1`. */
  ghost function TakenBy(states: seq<Recorder>, actions: seq<Action>, id: nat, j: nat, k: nat): (recs: seq<Record>)
    requires j <= k <= |actions| && IsRun(states, actions)
    decreases k
  {
    if j == k then []
    else
      TakenBy(states, actions, id, j, k - 1) +
      (if actions[k - 1] == Get(id) then GetEnabled(states, actions, id, k - 1); [states[k - 1].subscribers[id].queue[0]] else [])
  }

  lemma GetEnabled(states: seq<Recorder>, actions: seq<Action>, id: nat, k: nat)
    requires IsRun(states, actions) && k < |actions| && actions[k] == Get(id)
    ensures id in states[k].subscribers && states[k].subscribers[id].queue != []
  {
    assert Enabled(states[k], actions[k]);
  }

  /** What a subscriber got is what it took, in order, and then what is queued for it. */
  lemma {:induction false} TakenThenQueued(states: seq<Recorder>, actions: seq<Action>, id: nat, j: nat, k: nat)
    requires IsRun(states, actions) && j < k <= |actions| && actions[j] == Subscribe(id)
    ensures id in states[k].subscribers
    ensures states[k].subscribers[id].got == TakenBy(states, actions, id, j + 1, k) + states[k].subscribers[id].queue
    decreases k
  {
    hide Push, Put, Recorded;
    assert Enabled(states[k - 1], actions[k - 1]) && states[k] == Step(states[k - 1], actions[k - 1]);
    if k > j + 1 {
      TakenThenQueued(states, actions, id, j, k - 1);
      if actions[k - 1] == Get(id) { GetEnabled(states, actions, id, k - 1); }
      hide Step, Enabled;
      StepGot(states[k - 1], actions[k - 1], id);
      var before, after := states[k - 1].subscribers[id], states[k].subscribers[id];
      var taken := TakenBy(states, actions, id, j + 1, k - 1);
      if actions[k - 1] == Get(id) {
        assert before.queue == [before.queue[0]] + after.queue;
      } else {
        var more :| after.got == before.got + more && after.queue == before.queue + more;
        assert TakenBy(states, actions, id, j + 1, k) == taken;
        assert before.got + more == taken + (before.queue + more);
      }
    }
  }

  lemma StepGot(r: Recorder, a: Action, id: nat)
    requires Enabled(r, a) && id in r.subscribers
    ensures var s := Step(r, a);
      && id in s.subscribers
      && if a == Get(id) then s.subscribers[id].got == r.subscribers[id].got && s.subscribers[id].queue == r.subscribers[id].queue[1..]
         else exists more ::
           s.subscribers[id].got == r.subscribers[id].got + more && s.subscribers[id].queue == r.subscribers[id].queue + more
  {
    hide Full, Push, FullIn;
    var s, q := Step(r, a), r.subscribers[id];
    if a.Observe? && id in Open(r.subscribers) && !Full(q, r.queueMax) {
      assert s.subscribers[id].got == q.got + [a.rec] && s.subscribers[id].queue == q.queue + [a.rec];
    } else if a != Get(id) {
      assert s.subscribers[id].got == q.got + [] && s.subscribers[id].queue == q.queue + [];
    }
  }

  /** Nothing is meant for a subscription any more once it is closed. */
  lemma {:induction false} ClosedGetsNothing(states: seq<Recorder>, actions: seq<Action>, id: nat, j: nat, k: nat)
    requires IsRun(states, actions) && j < k <= |actions| && actions[j] == Close(id)
    ensures id in states[k].subscribers && !states[k].subscribers[id].open
    ensures var s, q := states[k].subscribers[id], states[j].subscribers[id];
      s.since == q.since && s.got == q.got && s.dropped == q.dropped
    decreases k
  {
    hide Push, Put, FullIn;
    if k > j + 1 {
      ClosedGetsNothing(states, actions, id, j, k - 1);
      assert Enabled(states[k - 1], actions[k - 1]) && states[k] == Step(states[k - 1], actions[k - 1]);
      if actions[k - 1].Observe? { assert id !in Open(states[k - 1].subscribers); }
    }
  }

  function Last(recs: seq<Record>, n: nat): (tail: seq<Record>)
    ensures |tail| <= n
  {
    if |recs| <= n then recs else recs[|recs| - n..]
  }

  lemma PushLast(recs: seq<Record>, n: nat, rec: Record)
    ensures Push(Last(recs, n), n, rec) == Last(recs + [rec], n)
  {
  }

  lemma NoneYet(actions: seq<Action>, j: nat, n: nat)
    requires j <= |actions|
    ensures Last(RecordsMade(actions, j, j), n) == []
  {
  }

  lemma StepBuffer(r: Recorder, a: Action)
    requires Enabled(r, a)
    ensures Step(r, a).maxlen == r.maxlen
    ensures !a.Clear? ==> Step(r, a).buffer == if a.Observe? then Push(r.buffer, r.maxlen, a.rec) else r.buffer
  {
    hide Push, PutIn, FullIn, Open;
  }

  /** The ring holds the last `maxlen` records made since it was last cleared. */
  lemma {:induction false} BufferIsLatest(states: seq<Recorder>, actions: seq<Action>, j: nat, k: nat)
    requires IsRun(states, actions) && j <= k <= |actions| && (j == 0 || actions[j - 1].Clear?)
    requires forall i | j <= i < k :: !actions[i].Clear?
    ensures states[k].maxlen == states[j].maxlen
    ensures states[k].buffer == Last(RecordsMade(actions, j, k), states[k].maxlen)
    decreases k
  {
    hide Push, Recorded, Last;
    if j == k {
      if j > 0 { assert Enabled(states[j - 1], actions[j - 1]) && states[j] == Step(states[j - 1], actions[j - 1]); }
      NoneYet(actions, j, states[k].maxlen);
    } else {
      StepBuffer(states[k - 1], actions[k - 1]);
      hide Step, Enabled;
      BufferIsLatest(states, actions, j, k - 1);
      if actions[k - 1].Observe? {
        PushLast(RecordsMade(actions, j, k - 1), states[k].maxlen, actions[k - 1].rec);
      } else {
        assert RecordsMade(actions, j, k) == RecordsMade(actions, j, k - 1);
      }
    }
  }
}
