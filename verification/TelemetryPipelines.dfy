/**
 The telemetry queue of src/mcpxy_proxy/telemetry/pipeline.py. An event stands for its
 number in the order of the offers; `lost` and `gone` record what became of the others.
 */
module TelemetryPipelines {
  import opened Prelude

  /** Where the background task is: waiting for a first event, delivering, or over. */
  datatype Phase = Collecting | Delivering | Over

  datatype Pipe = Pipe(
    queueMax: int, dropOldest: bool, batchSize: int,
    offered: nat, queue: seq<nat>, batch: seq<nat>, delivered: seq<nat>,
    dropped: nat, byReason: map<string, nat>, byPolicy: map<string, nat>,
    lost: set<nat>,  // dropped by `emit_nowait`
    gone: set<nat>,  // in the hands of the task when the sink failed or the task was cancelled
    phase: Phase)

  predicate Full(p: Pipe) {
    0 < p.queueMax <= |p.queue|
  }

  function DropEvent(p: Pipe, event: nat, policy: string): (r: Pipe) {
    p.(dropped := p.dropped + 1, byReason := Bump(p.byReason, "queue_full"), byPolicy := Bump(p.byPolicy, policy),
       lost := p.lost + {event})
  }

  /** Offers the next event. */
  function Emit(p: Pipe): (r: (Pipe, bool)) {
    var e := p.offered;
    var p1 := p.(offered := e + 1);
    if !Full(p) then (p1.(queue := p.queue + [e]), true)
    else if p.dropOldest then
      (DropEvent(p1, p.queue[0], "drop_oldest").(queue := p.queue[1..] + [e]), true)
    else (DropEvent(p1, e, "drop_newest"), false)
  }

  function Max(a: int, b: int): (m: int)
    ensures m >= a && m >= b && (m == a || m == b)
  {
    if a >= b then a else b
  }

  /** How many events one round takes: at least the one it waited for, if it came in time. */
  function Taken(p: Pipe, first: bool): (n: nat)
    ensures n <= |p.queue|
  {
    var want := Max(if first then 1 else 0, p.batchSize);
    if want < |p.queue| then want else |p.queue|
  }

  function Collect(p: Pipe, first: bool): (r: Pipe)
  {
    var n := Taken(p, first);
    p.(batch := p.queue[..n], queue := p.queue[n..], phase := if n == 0 then Collecting else Delivering)
  }

  /** The sink has taken the first `n` events of the batch. */
  function Deliver(p: Pipe, n: nat): (r: Pipe)
    requires n <= |p.batch|
  {
    p.(delivered := p.delivered + p.batch[..n], batch := p.batch[n..],
       phase := if n == |p.batch| then Collecting else Delivering)
  }

  /** The sink raised, or the task was cancelled: the task ends with what it held. */
  function Abandon(p: Pipe): (r: Pipe) {
    p.(gone := p.gone + (set e | e in p.batch), batch := [], phase := Over)
  }

  class TelemetryPipeline {
    const queueMax: int
    const dropOldest: bool
    const batchSize: int
    var queue: seq<nat>
    var batch: seq<nat>
    var droppedEvents: nat
    var droppedByReason: map<string, nat>
    var droppedByPolicy: map<string, nat>
    var phase: Phase
    ghost var offered: nat
    ghost var delivered: seq<nat>
    ghost var lost: set<nat>
    ghost var gone: set<nat>

    ghost function State(): Pipe
      reads this
    {
      Pipe(queueMax, dropOldest, batchSize, offered, queue, batch, delivered,
        droppedEvents, droppedByReason, droppedByPolicy, lost, gone, phase)
    }

    constructor (queueMax: int, dropOldest: bool, batchSize: int)
      ensures Initial(State())
      ensures State().queueMax == queueMax && State().dropOldest == dropOldest && State().batchSize == batchSize
    {
      this.queueMax, this.dropOldest, this.batchSize := queueMax, dropOldest, batchSize;
      queue, batch, droppedEvents, droppedByReason, droppedByPolicy := [], [], 0, map[], map[];
      offered, delivered, lost, gone, phase := 0, [], {}, {}, Collecting;
    }

    method RecordDrop(reason: string, policy: string)
      modifies this`droppedEvents, this`droppedByReason, this`droppedByPolicy
      ensures droppedEvents == old(droppedEvents) + 1
      ensures droppedByReason == Bump(old(droppedByReason), reason)
      ensures droppedByPolicy == Bump(old(droppedByPolicy), policy)
    {
      droppedEvents := droppedEvents + 1;
      droppedByReason := Bump(droppedByReason, reason);
      droppedByPolicy := Bump(droppedByPolicy, policy);
    }

    method EmitNowait(event: nat) returns (accepted: bool)
      requires event == offered
      modifies this
      ensures (State(), accepted) == Emit(old(State()))
    {
      offered := offered + 1;
      if !(0 < queueMax <= |queue|) {
        queue := queue + [event];
        return true;
      }
      if dropOldest {
        if queue != [] {
          lost := lost + {queue[0]};
          queue := queue[1..];
          RecordDrop("queue_full", "drop_oldest");
          queue := queue + [event];
          return true;
        }
      }
      lost := lost + {event};
      RecordDrop("queue_full", "drop_newest");
      return false;
    }

    /** One round of `_run`, from its first await to its second or to the next round. */
    method FillBatch(first: bool)
      requires phase.Collecting? && batch == [] && (first ==> queue != [])
      modifies this
      ensures State() == Collect(old(State()), first)
    {
      if first {
        batch := batch + [queue[0]];
        queue := queue[1..];
      }
      ghost var before := old(queue);
      while |batch| < batchSize && queue != []
        invariant |batch| <= |before| && batch == before[..|batch|] && queue == before[|batch|..]
        invariant |batch| <= Taken(old(State()), first) && (first ==> batch != [])
        modifies this`batch, this`queue
        decreases |queue|
      {
        assert before[..|batch|] + [queue[0]] == before[..|batch| + 1];
        batch := batch + [queue[0]];
        queue := queue[1..];
      }
      assert |batch| == Taken(old(State()), first);
      if batch != [] {
        phase := Delivering;
      }
    }

    /** The sink answered: `emit_batch` for the whole batch, `emit` for one event. */
    method SinkAnswered(whole: bool)
      requires phase.Delivering? && batch != []
      modifies this
      ensures State() == Deliver(old(State()), if whole then old(|batch|) else 1)
    {
      if whole {
        assert batch[..|batch|] == batch;
        delivered := delivered + batch;
        batch := [];
      } else {
        delivered := delivered + batch[..1];
        batch := batch[1..];
      }
      if batch == [] {
        phase := Collecting;
      }
    }

    /** The sink raised, or `stop` cancelled the worker: nothing takes its batch back. */
    method EndWorker()
      requires !phase.Over?
      modifies this
      ensures State() == Abandon(old(State()))
    {
      gone := gone + set e | e in batch;
      batch := [];
      phase := Over;
    }
  }

  // ---- Every run ----

  datatype Action =
    | Offer
    | Round(first: bool)        // the task wakes up: with a first event, or by its timeout
    | Answer(whole: bool)       // the sink answers
    | End                       // the sink raises, or `stop` cancels the task

  predicate Enabled(p: Pipe, a: Action) {
    match a
    case Offer => true
    case Round(first) => p.phase.Collecting? && p.batch == [] && (first ==> p.queue != [])
    case Answer(_) => p.phase.Delivering? && p.batch != []
    case End => !p.phase.Over?
  }

  function Step(p: Pipe, a: Action): (r: Pipe)
    requires Enabled(p, a)
  {
    match a
    case Offer => Emit(p).0
    case Round(first) => Collect(p, first)
    case Answer(whole) => Deliver(p, if whole then |p.batch| else 1)
    case End => Abandon(p)
  }

  predicate Initial(p: Pipe) {
    && p.offered == 0 && p.queue == [] && p.batch == [] && p.delivered == []
    && p.dropped == 0 && p.byReason == map[] && p.byPolicy == map[]
    && p.lost == {} && p.gone == {} && p.phase == Collecting
  }

  /** Everything that was accepted and has not been lost, in the order it goes through. */
  function Held(p: Pipe): (events: seq<nat>) {
    p.delivered + p.batch + p.queue
  }

  ghost predicate Increasing(s: seq<nat>) {
    forall i, j | 0 <= i < j < |s| :: s[i] < s[j]
  }

  /** Every offer is in exactly one place. */
  ghost predicate Conserved(p: Pipe) {
    && (forall e: nat :: e < p.offered <==> e in Held(p) || e in p.lost || e in p.gone)
    && (forall e: nat :: e in Held(p) ==> e !in p.lost && e !in p.gone)
    && p.lost !! p.gone
  }

  ghost predicate Counted(p: Pipe) {
    p.dropped == |p.lost| == MapSum(p.byReason) == MapSum(p.byPolicy)
  }

  /** With `drop_oldest` the queue is the last offers, without a gap. */
  ghost predicate Latest(p: Pipe) {
    |p.queue| <= p.offered && forall i | 0 <= i < |p.queue| :: p.queue[i] == p.offered - |p.queue| + i
  }

  ghost predicate Inv(p: Pipe) {
    && Increasing(Held(p)) && Conserved(p) && Counted(p)
    && (p.queueMax > 0 ==> |p.queue| <= p.queueMax)
    && (p.dropOldest ==> Latest(p))
    && (p.batch != [] <==> p.phase.Delivering?)
    && |p.batch| <= Max(1, p.batchSize)
  }

  // ---- Keeping it ----

  /** The middle part of the events goes elsewhere. */
  lemma Without(a: seq<nat>, b: seq<nat>, c: seq<nat>)
    requires Increasing(a + b + c)
    ensures Increasing(a + c)
    ensures forall e | e in b :: e !in a && e !in c
    ensures forall e :: e in a + b + c <==> e in a + c || e in b
  {
    var all := a + b + c;
    assert forall i | 0 <= i < |a| :: all[i] == a[i];
    assert forall i | 0 <= i < |b| :: all[|a| + i] == b[i];
    assert forall i | 0 <= i < |c| :: all[|a| + |b| + i] == c[i];
    assert forall i | 0 <= i < |a + c| :: (a + c)[i] == all[if i < |a| then i else i + |b|];
  }

  lemma Appended(s: seq<nat>, e: nat)
    requires Increasing(s) && forall x | x in s :: x < e
    ensures Increasing(s + [e])
  {
    assert forall i | 0 <= i < |s| :: s[i] in s;
  }

  lemma CountDrop(p: Pipe, event: nat, policy: string)
    requires Counted(p) && event !in p.lost
    ensures Counted(DropEvent(p, event, policy))
  {
    SumBump(p.byReason, "queue_full");
    SumBump(p.byPolicy, policy);
  }

  lemma HeldBounded(p: Pipe)
    requires Conserved(p)
    ensures forall e | e in Held(p) :: e < p.offered
    ensures p.offered !in Held(p) && p.offered !in p.lost && p.offered !in p.gone
  {
  }

  lemma AcceptKeeps(p: Pipe)
    requires Inv(p) && !Full(p)
    ensures Inv(Emit(p).0)
  {
    hide Counted, Increasing, Held;
    var r := Emit(p).0;
    HeldBounded(p);
    Appended(Held(p), p.offered);
    assert Held(r) == Held(p) + [p.offered] by { HeldAppend(p.delivered, p.batch, p.queue, p.offered); HeldIs(p); HeldIs(r); }
    assert Counted(r) by { SameCount(p, r); }
  }

  lemma HeldIs(p: Pipe)
    ensures Held(p) == p.delivered + p.batch + p.queue
  {
  }

  lemma HeldAppend(a: seq<nat>, b: seq<nat>, c: seq<nat>, e: nat)
    ensures a + b + (c + [e]) == a + b + c + [e]
  {
  }

  lemma SameCount(p: Pipe, r: Pipe)
    requires Counted(p) && r.dropped == p.dropped && r.lost == p.lost && r.byReason == p.byReason && r.byPolicy == p.byPolicy
    ensures Counted(r)
  {
  }

  lemma NewestKeeps(p: Pipe)
    requires Inv(p) && Full(p) && !p.dropOldest
    ensures Inv(Emit(p).0)
  {
    hide Counted, Increasing, Bump, Latest;
    var r := Emit(p).0;
    HeldBounded(p);
    assert Held(r) == Held(p);
    var p1 := p.(offered := p.offered + 1);
    SameCount(p, p1);
    CountDrop(p1, p.offered, "drop_newest");
  }

  lemma OldestKeeps(p: Pipe)
    requires Inv(p) && Full(p) && p.dropOldest
    ensures Inv(Emit(p).0)
  {
    hide Counted, Increasing, Bump, Held, Latest;
    var r := Emit(p).0;
    var head := p.delivered + p.batch;
    var oldest := p.queue[0];
    HeldBounded(p);
    assert Held(p) == head + [oldest] + p.queue[1..] by { HeldIs(p); assert p.queue == [oldest] + p.queue[1..]; }
    assert oldest in Held(p) by { assert (head + [oldest] + p.queue[1..])[|head|] == oldest; }
    Without(head, [oldest], p.queue[1..]);
    assert Held(r) == head + p.queue[1..] + [p.offered] by { HeldIs(r); }
    Appended(head + p.queue[1..], p.offered);
    var p1 := p.(offered := p.offered + 1);
    SameCount(p, p1);
    CountDrop(p1, oldest, "drop_oldest");
    SameCount(DropEvent(p1, oldest, "drop_oldest"), r);
    assert oldest in [oldest];
    OldestConserved(p, r, head, oldest);
    assert Latest(r) by { SlidesOn(p, r); }
  }

  lemma OldestConserved(p: Pipe, r: Pipe, head: seq<nat>, oldest: nat)
    requires Conserved(p) && oldest in Held(p) && oldest < p.offered && p.offered !in Held(p)
    requires p.offered !in p.lost && p.offered !in p.gone
    requires r.offered == p.offered + 1 && r.lost == p.lost + {oldest} && r.gone == p.gone
    requires p.queue != [] && Held(r) == head + p.queue[1..] + [p.offered]
    requires oldest !in head && oldest !in p.queue[1..]
    requires forall e :: e in Held(p) <==> e in head + p.queue[1..] || e in [oldest]
    ensures Conserved(r)
  {
    hide Held;
    assert forall e :: e in Held(r) <==> e in head + p.queue[1..] || e == p.offered;
    assert forall e :: e in Held(p) <==> e in head + p.queue[1..] || e == oldest;
  }

  lemma SlidesOn(p: Pipe, r: Pipe)
    requires Latest(p) && p.queue != [] && r.offered == p.offered + 1 && r.queue == p.queue[1..] + [p.offered]
    ensures Latest(r)
  {
  }

  lemma CollectKeeps(p: Pipe, first: bool)
    requires Inv(p) && Enabled(p, Round(first))
    ensures Inv(Collect(p, first))
  {
    assert Taken(p, first) <= Max(1, p.batchSize);
    hide Counted, Increasing, Taken, Conserved, Held;
    var r := Collect(p, first);
    assert Held(r) == Held(p) by {
      HeldIs(p);
      HeldIs(r);
      assert p.queue == r.batch + r.queue;
    }
    SameCount(p, r);
    SameConserved(p, r);
  }

  lemma SameConserved(p: Pipe, r: Pipe)
    requires Conserved(p) && Held(r) == Held(p) && r.offered == p.offered && r.lost == p.lost && r.gone == p.gone
    ensures Conserved(r)
  {
    hide Held;
  }

  lemma DeliverKeeps(p: Pipe, n: nat)
    requires Inv(p) && n <= |p.batch|
    ensures Inv(Deliver(p, n))
  {
    hide Counted, Increasing, Conserved, Held, Latest;
    var r := Deliver(p, n);
    assert Held(r) == Held(p) by {
      HeldIs(p);
      HeldIs(r);
      assert p.batch == p.batch[..n] + p.batch[n..];
    }
    SameCount(p, r);
    SameConserved(p, r);
    assert p.dropOldest ==> Latest(r) by { SameQueue(p, r); }
  }

  lemma SameQueue(p: Pipe, r: Pipe)
    requires r.queue == p.queue && r.offered == p.offered
    ensures Latest(p) ==> Latest(r)
  {
  }

  lemma AbandonKeeps(p: Pipe)
    requires Inv(p)
    ensures Inv(Abandon(p))
  {
    hide Counted, Increasing, Held;
    var r := Abandon(p);
    HeldIs(p);
    HeldIs(r);
    Without(p.delivered, p.batch, p.queue);
    assert Held(r) == p.delivered + p.queue;
    SameCount(p, r);
  }

  lemma StepInv(p: Pipe, a: Action)
    requires Inv(p) && Enabled(p, a)
    ensures Inv(Step(p, a))
  {
    hide Inv, Emit, Collect, Deliver, Abandon;
    match a {
      case Offer =>
        if !Full(p) { AcceptKeeps(p); } else if p.dropOldest { OldestKeeps(p); } else { NewestKeeps(p); }
      case Round(first) => CollectKeeps(p, first);
      case Answer(whole) => DeliverKeeps(p, if whole then |p.batch| else 1);
      case End => AbandonKeeps(p);
    }
  }

  ghost predicate IsRun(states: seq<Pipe>, actions: seq<Action>) {
    && |states| == |actions| + 1 && Initial(states[0])
    && forall k | 0 <= k < |actions| :: Enabled(states[k], actions[k]) && states[k + 1] == Step(states[k], actions[k])
  }

  lemma InitialInv(p: Pipe)
    requires Initial(p)
    ensures Inv(p)
  {
    var none: seq<nat> := [];
    assert Held(p) == none;
  }

  /**
   In every state of every run: each offered event is delivered, in the current batch,
   queued, dropped or gone with the task, and in one of them only; the first three hold
   their events in the order of the offers; the drop counters agree with each other and
   with what was dropped; and with `drop_oldest` the queue is the last offers.
   */
  lemma {:induction false} RunInv(states: seq<Pipe>, actions: seq<Action>, k: nat)
    requires IsRun(states, actions) && k <= |actions|
    ensures Inv(states[k])
  {
    hide Inv, Step, Enabled;
    if k == 0 {
      InitialInv(states[0]);
    } else {
      RunInv(states, actions, k - 1);
      StepInv(states[k - 1], actions[k - 1]);
    }
  }

  /** While the task has not ended, no event has vanished. */
  lemma {:induction false} NothingGone(states: seq<Pipe>, actions: seq<Action>, k: nat)
    requires IsRun(states, actions) && k <= |actions|
    ensures !states[k].phase.Over? ==> states[k].gone == {}
    ensures states[k].phase.Over? <==> exists j | 0 <= j < k :: actions[j].End?
  {
    if k > 0 {
      NothingGone(states, actions, k - 1);
      StepPhase(states[k - 1], actions[k - 1]);
    }
  }

  lemma StepPhase(p: Pipe, a: Action)
    requires Enabled(p, a)
    ensures Step(p, a).phase.Over? <==> p.phase.Over? || a.End?
    ensures !a.End? ==> Step(p, a).gone == p.gone
  {
  }

  lemma OverStep(p: Pipe, a: Action)
    requires Enabled(p, a) && p.phase.Over? && p.batch == []
    ensures var r := Step(p, a);
      && a.Offer? && r.phase.Over? && r.batch == [] && r.delivered == p.delivered && r.gone == p.gone && r.queue != []
  {
    hide Bump;
  }

  /** After the worker has ended only offers happen, and what they leave in the queue stays there. */
  lemma {:induction false} OverRun(states: seq<Pipe>, actions: seq<Action>, j: nat, k: nat)
    requires IsRun(states, actions) && j < k <= |actions| && actions[j].End?
    ensures var r := states[k];
      && r.phase.Over? && r.batch == [] && r.delivered == states[j].delivered && r.gone == states[j + 1].gone
    ensures states[k].queue == [] <==> states[j].queue == [] && forall i | j < i < k :: !actions[i].Offer?
    decreases k
  {
    hide Emit, Collect, Deliver;
    if k > j + 1 {
      OverRun(states, actions, j, k - 1);
      OverStep(states[k - 1], actions[k - 1]);
    }
  }

  /** Every event that was offered is delivered or counted as dropped. */
  ghost predicate AllAccounted(p: Pipe) {
    forall e: nat | e < p.offered :: e in p.delivered || e in p.lost
  }

  lemma AccountedIff(p: Pipe)
    requires Inv(p) && p.batch == []
    ensures AllAccounted(p) <==> p.queue == [] && p.gone == {}
  {
    hide Increasing, Counted, Latest;
    HeldIs(p);
    if p.queue != [] {
      var e := p.queue[0];
      assert e in Held(p) by { assert Held(p)[|p.delivered|] == e; }
      hide Held;
      Once(p, e);
    }
    if p.gone != {} {
      var e :| e in p.gone;
      assert e < p.offered && e !in Held(p) && e !in p.lost;
      assert e in p.delivered ==> e in Held(p);
    }
  }

  /** A queued event is not among the delivered ones. */
  lemma Once(p: Pipe, e: nat)
    requires Inv(p) && p.batch == [] && p.queue != [] && e == p.queue[0]
    ensures e !in p.delivered && e !in p.lost && e < p.offered
  {
    hide Counted, Latest;
    HeldIs(p);
    var all, n := Held(p), |p.delivered|;
    assert all[n] == e && e in all;
    forall i | 0 <= i < n ensures p.delivered[i] != e { assert all[i] == p.delivered[i] && all[i] < all[n]; }
  }

  /**
   Ending, by a sink that raises or by `stop`, ends delivery for good: what the worker held,
   what is queued and what is accepted from then on is neither delivered nor counted as
   dropped. So all events stay accounted for if and only if batch and queue were empty when
   it ended and nothing is offered afterwards.
   */
  lemma EndLoses(states: seq<Pipe>, actions: seq<Action>, j: nat, k: nat)
    requires IsRun(states, actions) && j < k <= |actions| && actions[j].End?
    ensures states[k].delivered == states[j].delivered
    ensures AllAccounted(states[k]) <==>
      states[j].batch == [] && states[j].queue == [] && forall i | j < i < k :: !actions[i].Offer?
  {
    hide AllAccounted, Inv, Emit, Collect, Deliver;
    OverRun(states, actions, j, k);
    RunInv(states, actions, k);
    AccountedIff(states[k]);
    NothingGone(states, actions, j);
    assert Enabled(states[j], actions[j]) && states[j + 1] == Abandon(states[j]);
    if states[j].batch != [] { assert states[j].batch[0] in states[j + 1].gone; }
  }

  /**
   What an offer leads to: an event is dropped exactly when the queue is limited and at its limit,
   the oldest of the queue or the one offered; and true is reported exactly when the event is
   now queued.
   */
  lemma EmitReports(p: Pipe)
    requires Inv(p)
    ensures var (r, ok) := Emit(p); var full := p.queueMax > 0 && |p.queue| == p.queueMax;
      && r.offered == p.offered + 1
      && (r.lost == p.lost <==> !full)
      && (full && p.dropOldest ==> ok && r.lost == p.lost + {p.queue[0]} && r.queue == p.queue[1..] + [p.offered])
      && (full && !p.dropOldest ==> !ok && r.lost == p.lost + {p.offered} && r.queue == p.queue)
      && (!full ==> ok && r.queue == p.queue + [p.offered])
      && (ok <==> p.offered in r.queue) && (ok <==> p.offered !in r.lost)
  {
    hide Increasing, Counted, Latest, Bump;
    HeldBounded(p);
    HeldIs(p);
    if p.queue != [] { assert p.queue[0] in Held(p) by { assert Held(p)[|p.delivered| + |p.batch|] == p.queue[0]; } }
    if Emit(p).1 { assert Emit(p).0.queue[|Emit(p).0.queue| - 1] == p.offered; }
  }

  /** One round takes from the front of the queue until the batch is full, by its size or by the one event waited for, or nothing is left. */
  lemma RoundTakes(p: Pipe, first: bool)
    requires Inv(p) && Enabled(p, Round(first))
    ensures var r := Step(p, Round(first));
      && r.batch + r.queue == p.queue
      && (r.queue != [] ==> |r.batch| >= p.batchSize && (first ==> |r.batch| >= 1))
      && (|r.batch| <= p.batchSize || (first && |r.batch| == 1) || r.batch == [])
      && (if r.batch == [] then r.phase.Collecting? else r.phase.Delivering?)
  {
    hide Inv;
  }

  /** Until it ends, the task can always go on with what it holds, and takes up what is queued. */
  lemma NeverStuck(states: seq<Pipe>, actions: seq<Action>, k: nat)
    requires IsRun(states, actions) && k <= |actions| && forall j | 0 <= j < k :: !actions[j].End?
    ensures var p := states[k];
      && (p.batch != [] ==> Enabled(p, Answer(true)) && Step(p, Answer(true)).batch == [])
      && (p.batch == [] && p.queue != [] ==> Enabled(p, Round(true)) && Step(p, Round(true)).batch != [])
  {
    RunInv(states, actions, k);
    NothingGone(states, actions, k);
    hide Inv, IsRun;
    Phases(states[k]);
  }

  lemma Phases(p: Pipe)
    requires Inv(p)
    ensures p.batch != [] <==> p.phase.Delivering?
  {
  }

  /** All drops under one label. */
  function Label(name: string, n: nat): (counts: map<string, nat>) {
    if n == 0 then map[] else map[name := n]
  }

  lemma LabelNext(name: string, n: nat)
    ensures Bump(Label(name, n), name) == Label(name, n + 1)
  {
  }

  /** In every state, every drop is counted for the full queue, and under the policy in force. */
  lemma {:induction false} DropsLabelled(states: seq<Pipe>, actions: seq<Action>, k: nat)
    requires IsRun(states, actions) && k <= |actions|
    ensures states[k].byReason == Label("queue_full", states[k].dropped)
    ensures states[k].byPolicy == Label(if states[0].dropOldest then "drop_oldest" else "drop_newest", states[k].dropped)
    ensures states[k].dropped == |states[k].lost|
  {
    hide Step, Enabled, Label;
    RunInv(states, actions, k);
    CountedLost(states[k]);
    if k == 0 {
      assert Label("queue_full", 0) == map[] && Label("drop_oldest", 0) == map[] && Label("drop_newest", 0) == map[] by { LabelNone(); }
    } else {
      DropsLabelled(states, actions, k - 1);
      SamePolicy(states, actions, k - 1);
      StepLabels(states[k - 1], actions[k - 1]);
    }
  }

  lemma LabelNone()
    ensures forall name :: Label(name, 0) == map[]
  {
  }

  lemma CountedLost(p: Pipe)
    requires Inv(p)
    ensures p.dropped == |p.lost|
  {
  }

  lemma StepLabels(p: Pipe, a: Action)
    requires Enabled(p, a)
    requires p.byReason == Label("queue_full", p.dropped)
    requires p.byPolicy == Label(if p.dropOldest then "drop_oldest" else "drop_newest", p.dropped)
    ensures var r := Step(p, a);
      && r.byReason == Label("queue_full", r.dropped)
      && r.byPolicy == Label(if p.dropOldest then "drop_oldest" else "drop_newest", r.dropped)
  {
    hide Bump, Label, Taken;
    LabelNext("queue_full", p.dropped);
    LabelNext("drop_oldest", p.dropped);
    LabelNext("drop_newest", p.dropped);
  }

  /** With `drop_newest` an accepted event is never dropped afterwards. */
  lemma {:induction false} AcceptedStays(states: seq<Pipe>, actions: seq<Action>, e: nat, j: nat, k: nat)
    requires IsRun(states, actions) && j <= k <= |actions|
    requires !states[0].dropOldest && e in Held(states[j])
    ensures e !in states[k].lost
    decreases k - j
  {
    hide Inv, Step, Enabled, Held;
    if j == k {
      RunInv(states, actions, j);
      NotLost(states[j], e);
    } else {
      AcceptedStays(states, actions, e, j, k - 1);
      RunInv(states, actions, j);
      OfferedBefore(states, actions, e, j, k - 1);
      SamePolicy(states, actions, k - 1);
      StepLoses(states[k - 1], actions[k - 1]);
    }
  }

  lemma NotLost(p: Pipe, e: nat)
    requires Inv(p) && e in Held(p)
    ensures e !in p.lost && e < p.offered
  {
    hide Held, Counted, Increasing;
  }

  lemma {:induction false} OfferedBefore(states: seq<Pipe>, actions: seq<Action>, e: nat, j: nat, k: nat)
    requires IsRun(states, actions) && j <= k <= |actions| && e in Held(states[j])
    ensures e < states[k].offered
    decreases k - j
  {
    hide Inv, Step, Enabled, Held;
    if j == k {
      RunInv(states, actions, j);
      NotLost(states[j], e);
    } else {
      OfferedBefore(states, actions, e, j, k - 1);
      StepLoses(states[k - 1], actions[k - 1]);
    }
  }

  lemma {:induction false} SamePolicy(states: seq<Pipe>, actions: seq<Action>, k: nat)
    requires IsRun(states, actions) && k <= |actions|
    ensures states[k].dropOldest == states[0].dropOldest
  {
    hide Step, Enabled;
    if k > 0 {
      SamePolicy(states, actions, k - 1);
      StepLoses(states[k - 1], actions[k - 1]);
    }
  }

  lemma StepLoses(p: Pipe, a: Action)
    requires Enabled(p, a)
    ensures Step(p, a).dropOldest == p.dropOldest && Step(p, a).offered >= p.offered
    ensures !p.dropOldest ==> forall e | e in Step(p, a).lost && e !in p.lost :: e == p.offered
  {
    hide Bump, Taken;
  }
}
