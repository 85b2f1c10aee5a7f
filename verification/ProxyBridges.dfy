/**
 Forwarding with backpressure and shutdown: src/mcpxy_proxy/proxy/bridge.py. Every method
 is the part of `forward` between two awaits; any number of calls interleave there.
 */
module ProxyBridges {
  import opened Prelude

  type CallId = nat

  /** How a call of `forward` ended. */
  datatype Outcome =
    | Answered(isError: bool)  // a response was returned
    | Notified                 // a notification was passed on
    | Denied | Overloaded | Unavailable | ShuttingDown
    | Raised                   // the transport or a redactor raised, or the call was cancelled

  /**
   Where a call awaits: the notification; the request or the shutdown; with the request
   done, the end of the shutdown waiter it cancelled; or the end of the request it cancelled.
   */
  datatype Call = Notifying | Requesting | Joining | Abandoning | Ended(outcome: Outcome)

  /** The status of a traffic record. */
  datatype Status = OkStatus | ErrorStatus | DeniedStatus

  /** `met` tells what each call met: a history, which takes no part in what the code does. */
  datatype Bridge = Bridge(
    queueSize: int, slots: nat, shutdown: bool, calls: map<CallId, Call>, records: map<CallId, seq<Status>>,
    met: map<CallId, Met>)

  /** The world and the bridge as the call found them, and what it has woken up to since. */
  datatype Met = Met(entry: Entry, shutdown: bool, slots: nat, woken: seq<Wake>)

  /** What the world answers to the part of a call up to its first await. */
  datatype Entry = Entry(allowed: bool, known: bool, redacts: bool, notification: bool)

  /** What an awaiting call wakes up to. */
  datatype Wake =
    | Sent                                            // the notification was passed on
    | RequestDone                                     // the request ended before the shutdown was seen
    | Reply(response: Option<bool>)                   // the waiter is gone, and what the request returned: None, or whether it is an error
    | Fails                                           // the transport raised
    | ShutdownSeen                                    // the shutdown event won the wait
    | RequestGone(clean: bool)                        // the wait for the cancelled request ended: not clean if it raised
    | Cancelled                                       // the call itself was cancelled; suppressed while joining or abandoning

  predicate Holds(c: Call) {
    c.Notifying? || c.Requesting? || c.Joining? || c.Abandoning?
  }

  function Recorded(b: Bridge, id: CallId, s: Status): (r: Bridge)
    requires id in b.records
  {
    b.(records := b.records[id := b.records[id] + [s]])
  }

  function EndIn(b: Bridge, id: CallId, o: Outcome): (r: Bridge) {
    b.(calls := b.calls[id := Ended(o)])
  }

  predicate Full(b: Bridge) {
    0 < b.queueSize <= b.slots
  }

  predicate CanEnter(b: Bridge, id: CallId) {
    id !in b.calls && id !in b.records && id !in b.met
  }

  /** A call from its start to its first await. */
  function Enter(b: Bridge, id: CallId, e: Entry): (r: Bridge)
    requires CanEnter(b, id)
  {
    var b0 := b.(records := b.records[id := []], met := b.met[id := Met(e, b.shutdown, b.slots, [])]);
    if b.shutdown then EndIn(Recorded(b0, id, ErrorStatus), id, ShuttingDown)
    else if !e.allowed then EndIn(Recorded(b0, id, DeniedStatus), id, Denied)
    else if Full(b) then EndIn(Recorded(b0, id, ErrorStatus), id, Overloaded)
    else if !e.known then EndIn(Recorded(b0, id, ErrorStatus), id, Unavailable)
    else if !e.redacts then EndIn(b0, id, Raised)
    else b0.(slots := b.slots + 1, calls := b.calls[id := if e.notification then Notifying else Requesting])
  }

  /** Whether the call can wake up to this. */
  predicate CanWake(b: Bridge, id: CallId, w: Wake) {
    && id in b.calls && id in b.records && id in b.met
    && match w
       case Sent => b.calls[id].Notifying?
       case RequestDone => b.calls[id].Requesting?
       case Reply(_) => b.calls[id].Joining?
       case Fails => b.calls[id].Notifying? || b.calls[id].Joining?
       case ShutdownSeen => b.calls[id].Requesting? && b.shutdown
       case RequestGone(_) => b.calls[id].Abandoning?
       case Cancelled => b.calls[id].Notifying? || b.calls[id].Requesting?
  }

  /** A call from an await to the next, or to its end, where it gives its slot back. */
  function WakeUp(b: Bridge, id: CallId, w: Wake): (r: Bridge)
    requires CanWake(b, id, w) && b.slots > 0
  {
    var on := b.(met := b.met[id := b.met[id].(woken := b.met[id].woken + [w])]);
    var left := on.(slots := b.slots - 1);
    match w
    case Sent => EndIn(Recorded(left, id, OkStatus), id, Notified)
    case RequestDone => on.(calls := b.calls[id := Joining])
    case Reply(None) => EndIn(Recorded(left, id, ErrorStatus), id, Unavailable)
    case Reply(Some(isError)) =>
      EndIn(Recorded(left, id, if isError then ErrorStatus else OkStatus), id, Answered(isError))
    case Fails => EndIn(left, id, Raised)
    case ShutdownSeen => on.(calls := b.calls[id := Abandoning])
    case RequestGone(clean) =>
      if clean then EndIn(Recorded(left, id, ErrorStatus), id, ShuttingDown) else EndIn(left, id, Raised)
    case Cancelled => EndIn(left, id, Raised)
  }

  // ---- The bridge as an object ----

  class ProxyBridge {
    const queueSize: int
    var queue: seq<int>
    var shutdownEvent: bool
    var calls: map<CallId, Call>
    var records: map<CallId, seq<Status>>
    ghost var met: map<CallId, Met>

    ghost function State(): Bridge
      reads this
    {
      Bridge(queueSize, |queue|, shutdownEvent, calls, records, met)
    }

    constructor (queueSize: int)
      ensures State() == Bridge(queueSize, 0, false, map[], map[], map[])
    {
      this.queueSize := queueSize;
      queue, shutdownEvent, calls, records, met := [], false, map[], map[], map[];
    }

    method StartShutdown()
      modifies this
      ensures State() == old(State()).(shutdown := true)
    {
      shutdownEvent := true;
    }

    method EmitRecord(id: CallId, s: Status)
      requires id in records
      modifies this`records
      ensures records == old(records)[id := old(records)[id] + [s]]
    {
      records := records[id := records[id] + [s]];
    }

    method Forward(id: CallId, e: Entry)
      requires CanEnter(State(), id)
      modifies this
      ensures State() == Enter(old(State()), id, e)
    {
      met := met[id := Met(e, shutdownEvent, |queue|, [])];
      records := records[id := []];
      if shutdownEvent {
        EmitRecord(id, ErrorStatus);
        calls := calls[id := Ended(ShuttingDown)];
        return;
      }
      if !e.allowed {
        EmitRecord(id, DeniedStatus);
        calls := calls[id := Ended(Denied)];
        return;
      }
      if 0 < queueSize <= |queue| {
        EmitRecord(id, ErrorStatus);
        calls := calls[id := Ended(Overloaded)];
        return;
      }
      queue := queue + [1];
      if !e.known {
        queue := queue[1..];
        EmitRecord(id, ErrorStatus);
        calls := calls[id := Ended(Unavailable)];
        return;
      }
      if !e.redacts {
        queue := queue[1..];
        calls := calls[id := Ended(Raised)];
        return;
      }
      // No await since the first test, so the event cannot have been set meanwhile.
      calls := calls[id := if e.notification then Notifying else Requesting];
    }

    method Resume(id: CallId, w: Wake)
      requires CanWake(State(), id, w) && queue != []
      modifies this
      ensures State() == WakeUp(old(State()), id, w)
    {
      met := met[id := met[id].(woken := met[id].woken + [w])];
      match w {
        case ShutdownSeen =>
          calls := calls[id := Abandoning];
          return;
        case RequestDone =>
          calls := calls[id := Joining];
          return;
        case Sent =>
          EmitRecord(id, OkStatus);
          calls := calls[id := Ended(Notified)];
        case Reply(response) =>
          if response.None? {
            EmitRecord(id, ErrorStatus);
            calls := calls[id := Ended(Unavailable)];
          } else {
            EmitRecord(id, if response.value then ErrorStatus else OkStatus);
            calls := calls[id := Ended(Answered(response.value))];
          }
        case Fails =>
          calls := calls[id := Ended(Raised)];
        case RequestGone(clean) =>
          if clean {
            EmitRecord(id, ErrorStatus);
            calls := calls[id := Ended(ShuttingDown)];
          } else {
            calls := calls[id := Ended(Raised)];
          }
        case Cancelled =>
          calls := calls[id := Ended(Raised)];
      }
      queue := queue[1..];
    }
  }

  // ---- Every interleaving ----

  datatype Action = Begin(id: CallId, entry: Entry) | Wakes(id: CallId, wake: Wake) | Shutdown

  predicate Enabled(b: Bridge, a: Action) {
    match a
    case Begin(id, _) => CanEnter(b, id)
    case Wakes(id, w) => CanWake(b, id, w)
    case Shutdown => true
  }

  /** The calls that hold a slot. */
  function Holding(b: Bridge): (ids: set<CallId>) {
    set id | id in b.calls && Holds(b.calls[id])
  }

  /** The records a call has made when it ends so: one, unless something raised. */
  predicate Accounted(c: Call, records: seq<Status>) {
    match c
    case Ended(Raised) => records == []
    case Ended(Denied) => records == [DeniedStatus]
    case Ended(Notified) => records == [OkStatus]
    case Ended(Answered(isError)) => records == [if isError then ErrorStatus else OkStatus]
    case Ended(_) => records == [ErrorStatus]
    case _ => records == []
  }

  ghost predicate Inv(b: Bridge) {
    && b.slots == |Holding(b)|
    && (b.queueSize > 0 ==> b.slots <= b.queueSize)
    && b.records.Keys == b.calls.Keys == b.met.Keys
    && forall id | id in b.calls :: Accounted(b.calls[id], b.records[id])
  }

  /** A call that can wake up to anything finds its own slot in the queue: it is never popped when empty. */
  lemma SlotThere(b: Bridge, id: CallId, w: Wake)
    requires Inv(b) && CanWake(b, id, w)
    ensures b.slots > 0
  {
    assert id in Holding(b);
  }

  function Step(b: Bridge, a: Action): (r: Bridge)
    requires Enabled(b, a) && (a.Wakes? ==> b.slots > 0)
  {
    match a
    case Begin(id, e) => Enter(b, id, e)
    case Wakes(id, w) => WakeUp(b, id, w)
    case Shutdown => b.(shutdown := true)
  }

  /** Only the entries of one call differ. */
  ghost predicate SameApart(b: Bridge, r: Bridge, id: CallId) {
    && b.queueSize == r.queueSize
    && (forall x | x != id ::
          (x in b.calls <==> x in r.calls) && (x in b.records <==> x in r.records) && (x in b.met <==> x in r.met))
    && (forall x | x != id && x in b.calls :: r.calls[x] == b.calls[x])
    && (forall x | x != id && x in b.records :: r.records[x] == b.records[x])
    && (forall x | x != id && x in b.met :: r.met[x] == b.met[x])
  }

  ghost predicate AccountedAt(b: Bridge, id: CallId) {
    id in b.calls && id in b.records && id in b.met && Accounted(b.calls[id], b.records[id])
  }

  /** Up to its first await a call takes a slot if and only if it goes on; never while shutting down or full. */
  lemma EnterEffect(b: Bridge, id: CallId, e: Entry)
    requires CanEnter(b, id)
    ensures var r := Enter(b, id, e);
      && SameApart(b, r, id) && AccountedAt(r, id) && r.shutdown == b.shutdown
      && r.slots == (if Holds(r.calls[id]) then b.slots + 1 else b.slots)
      && (Holds(r.calls[id]) ==> !b.shutdown && !Full(b))
  {
  }

  /** The call awaits something else next. */
  predicate GoesOn(w: Wake) {
    w.ShutdownSeen? || w.RequestDone?
  }

  /** A call that wakes up gives its slot back if and only if it ends. */
  lemma WakeEffect(b: Bridge, id: CallId, w: Wake)
    requires CanWake(b, id, w) && b.slots > 0 && AccountedAt(b, id)
    ensures var r := WakeUp(b, id, w);
      && SameApart(b, r, id) && AccountedAt(r, id) && r.shutdown == b.shutdown
      && r.slots == (if Holds(r.calls[id]) then b.slots else b.slots - 1)
      && (Holds(r.calls[id]) <==> GoesOn(w))
  {
  }

  lemma HoldingApart(b: Bridge, r: Bridge, id: CallId)
    requires SameApart(b, r, id) && id in r.calls
    ensures Holding(r) == (if Holds(r.calls[id]) then Holding(b) + {id} else Holding(b) - {id})
  {
    hide Holds;
  }

  lemma InvApart(b: Bridge, r: Bridge, id: CallId)
    requires Inv(b) && SameApart(b, r, id) && AccountedAt(r, id) && r.slots == |Holding(r)|
    requires r.slots > b.slots ==> !Full(b) && r.slots == b.slots + 1
    ensures Inv(r)
  {
    hide Holding, Accounted;
    assert r.records.Keys == r.calls.Keys == r.met.Keys;
    forall x | x in r.calls ensures Accounted(r.calls[x], r.records[x]) {
      if x != id { assert x in b.calls; }
    }
  }

  /** What a step does to the set of holders: at most the acting call comes or goes. */
  lemma StepHolding(b: Bridge, a: Action)
    requires Inv(b) && Enabled(b, a) && (a.Wakes? ==> b.slots > 0)
    ensures var r := Step(b, a);
      match a
      case Begin(id, _) => Holding(r) == if r.slots > b.slots then Holding(b) + {id} else Holding(b)
      case Wakes(id, w) => Holding(r) == if GoesOn(w) then Holding(b) else Holding(b) - {id}
      case Shutdown => Holding(r) == Holding(b)
  {
    hide Enter, WakeUp, SameApart, Accounted;
    match a {
      case Begin(id, e) =>
        EnterEffect(b, id, e);
        HoldingApart(b, Step(b, a), id);
      case Wakes(id, w) =>
        WakeEffect(b, id, w);
        HoldingApart(b, Step(b, a), id);
      case Shutdown =>
    }
  }

  lemma StepInv(b: Bridge, a: Action)
    requires Inv(b) && Enabled(b, a) && (a.Wakes? ==> b.slots > 0)
    ensures Inv(Step(b, a))
  {
    hide Enter, WakeUp, SameApart, Accounted;
    StepHolding(b, a);
    match a {
      case Begin(id, e) =>
        EnterEffect(b, id, e);
        assert id !in Holding(b);
        InvApart(b, Step(b, a), id);
      case Wakes(id, w) =>
        WakeEffect(b, id, w);
        assert id in Holding(b);
        InvApart(b, Step(b, a), id);
      case Shutdown =>
    }
  }

  /** Once shutting down, no step acquires a slot, and the event stays set. */
  lemma ShutdownOnlyDrains(b: Bridge, a: Action)
    requires Inv(b) && Enabled(b, a) && (a.Wakes? ==> b.slots > 0) && b.shutdown
    ensures Step(b, a).shutdown && Holding(Step(b, a)) <= Holding(b) && Step(b, a).slots <= b.slots
  {
    StepHolding(b, a);
  }

  ghost predicate IsRun(states: seq<Bridge>, actions: seq<Action>) {
    && |states| == |actions| + 1
    && states[0].slots == 0 && !states[0].shutdown && states[0].calls == map[] && states[0].records == map[]
    && states[0].met == map[]
    && forall k | 0 <= k < |actions| ::
      Enabled(states[k], actions[k]) && (actions[k].Wakes? ==> states[k].slots > 0)
      && states[k + 1] == Step(states[k], actions[k])
  }

  /**
   In every state of every interleaving the queue holds one slot for each call that is
   being forwarded, never more than its size, and each ended call has made exactly the
   record its outcome calls for.
   */
  lemma {:induction false} RunInv(states: seq<Bridge>, actions: seq<Action>, k: nat)
    requires IsRun(states, actions) && k <= |actions|
    ensures Inv(states[k])
  {
    hide Inv;
    if k == 0 {
      EmptyInv(states[0]);
    } else {
      RunInv(states, actions, k - 1);
      StepInv(states[k - 1], actions[k - 1]);
    }
  }

  lemma EmptyInv(b: Bridge)
    requires b.slots == 0 && b.calls == map[] && b.records == map[] && b.met == map[]
    ensures Inv(b)
  {
    assert Holding(b) == {};
  }

  // ---- What becomes of a call, by what it met ----

  /** Only such a call gets a slot and reaches its upstream. */
  predicate Admitted(m: Met, size: int) {
    !m.shutdown && m.entry.allowed && (size > 0 ==> m.slots < size) && m.entry.known && m.entry.redacts
  }

  /** Where an admitted call is after what it has woken up to. */
  predicate Follows(notification: bool, woken: seq<Wake>, c: Call) {
    match c
    case Notifying => notification && woken == []
    case Requesting => !notification && woken == []
    case Joining => !notification && woken == [RequestDone]
    case Abandoning => !notification && woken == [ShutdownSeen]
    case Ended(Notified) => notification && woken == [Sent]
    case Ended(Answered(isError)) => !notification && woken == [RequestDone, Reply(Some(isError))]
    case Ended(Unavailable) => !notification && woken == [RequestDone, Reply(None)]
    case Ended(ShuttingDown) => !notification && woken == [ShutdownSeen, RequestGone(true)]
    case Ended(Raised) =>
      || woken == [Cancelled]
      || (if notification then woken == [Fails] else woken == [RequestDone, Fails] || woken == [ShutdownSeen, RequestGone(false)])
    case Ended(_) => false
  }

  /** Why a call was turned away, tests in this order: nothing later can have been the reason. */
  predicate TurnedAway(m: Met, size: int, o: Outcome) {
    match o
    case ShuttingDown => m.shutdown
    case Denied => !m.shutdown && !m.entry.allowed
    case Overloaded => !m.shutdown && m.entry.allowed && size > 0 && m.slots >= size
    case Unavailable => !m.shutdown && m.entry.allowed && (size > 0 ==> m.slots < size) && !m.entry.known
    case Raised => !m.shutdown && m.entry.allowed && (size > 0 ==> m.slots < size) && m.entry.known && !m.entry.redacts
    case _ => false
  }

  predicate Fated(m: Met, size: int, c: Call, shutdown: bool) {
    && (if Admitted(m, size) then Follows(m.entry.notification, m.woken, c) else m.woken == [] && c.Ended? && TurnedAway(m, size, c.outcome))
    && (ShutdownSeen in m.woken ==> shutdown)
  }

  ghost predicate AllFated(b: Bridge) {
    forall id | id in b.calls :: id in b.met && Fated(b.met[id], b.queueSize, b.calls[id], b.shutdown)
  }

  lemma EnterFated(b: Bridge, id: CallId, e: Entry)
    requires CanEnter(b, id)
    ensures var r := Enter(b, id, e);
      && id in r.calls && id in r.met && r.met[id] == Met(e, b.shutdown, b.slots, [])
      && r.queueSize == b.queueSize && Fated(r.met[id], r.queueSize, r.calls[id], r.shutdown)
  {
  }

  lemma WakeFated(b: Bridge, id: CallId, w: Wake)
    requires CanWake(b, id, w) && b.slots > 0 && Fated(b.met[id], b.queueSize, b.calls[id], b.shutdown)
    ensures var r := WakeUp(b, id, w);
      && id in r.calls && id in r.met && r.met[id].woken == b.met[id].woken + [w]
      && r.met[id] == b.met[id].(woken := r.met[id].woken) && r.queueSize == b.queueSize && Fated(r.met[id], r.queueSize, r.calls[id], r.shutdown)
  {
  }

  lemma FatedApart(b: Bridge, r: Bridge, id: CallId)
    requires AllFated(b) && SameApart(b, r, id) && (b.shutdown ==> r.shutdown)
    requires id in r.calls ==> id in r.met && Fated(r.met[id], r.queueSize, r.calls[id], r.shutdown)
    ensures AllFated(r)
  {
    forall x | x in r.calls ensures x in r.met && Fated(r.met[x], r.queueSize, r.calls[x], r.shutdown) {
      if x != id { assert x in b.calls && Fated(b.met[x], b.queueSize, b.calls[x], b.shutdown); }
    }
  }

  lemma StepFated(b: Bridge, a: Action)
    requires Inv(b) && AllFated(b) && Enabled(b, a) && (a.Wakes? ==> b.slots > 0)
    ensures AllFated(Step(b, a))
  {
    hide Enter, WakeUp, SameApart, Fated, Accounted, Holding;
    match a {
      case Begin(id, e) =>
        EnterEffect(b, id, e);
        EnterFated(b, id, e);
        FatedApart(b, Step(b, a), id);
      case Wakes(id, w) =>
        WakeEffect(b, id, w);
        WakeFated(b, id, w);
        FatedApart(b, Step(b, a), id);
      case Shutdown => ShutdownFated(b);
    }
  }

  lemma ShutdownFated(b: Bridge)
    requires AllFated(b)
    ensures AllFated(b.(shutdown := true))
  {
    hide Admitted, Follows, TurnedAway;
  }

  /**
   In every state of every interleaving: a call got a slot, and reached its upstream, if and only if
   it came while the bridge was not shutting down and not full, the policies let it through, its
   upstream was known and its message was redacted; what became of it then follows from what it has
   woken up to. Any other call ended at once, for the first of these reasons that applies.
   */
  lemma {:induction false} RunFated(states: seq<Bridge>, actions: seq<Action>, k: nat)
    requires IsRun(states, actions) && k <= |actions|
    ensures AllFated(states[k])
  {
    hide Inv, AllFated, Step, Enabled;
    if k == 0 {
      assert AllFated(states[0]) by { NoneFated(states[0]); }
    } else {
      RunFated(states, actions, k - 1);
      RunInv(states, actions, k - 1);
      StepFated(states[k - 1], actions[k - 1]);
    }
  }

  lemma NoneFated(b: Bridge)
    requires b.calls == map[]
    ensures AllFated(b)
  {
  }

  /** So a call that the policies refuse, or whose upstream is unknown, never holds a slot and is never answered. */
  lemma NeverForwarded(states: seq<Bridge>, actions: seq<Action>, k: nat, id: CallId)
    requires IsRun(states, actions) && k <= |actions| && id in states[k].calls
    ensures id in states[k].met
    ensures var m, c := states[k].met[id], states[k].calls[id];
      && (Holds(c) || c == Ended(Notified) || (c.Ended? && c.outcome.Answered?) ==>
            m.entry.allowed && m.entry.known && m.entry.redacts && !m.shutdown
            && (states[k].queueSize > 0 ==> m.slots < states[k].queueSize))
      && (c == Ended(Denied) <==> !m.shutdown && !m.entry.allowed)
  {
    hide IsRun;
    RunFated(states, actions, k);
  }

  /** What a call has woken up to in steps `j` to `k - 1`. */
  function WokenIn(actions: seq<Action>, id: CallId, j: nat, k: nat): (ws: seq<Wake>)
    requires j <= k <= |actions|
    decreases k
  {
    if j == k then []
    else WokenIn(actions, id, j, k - 1) + (if actions[k - 1].Wakes? && actions[k - 1].id == id then [actions[k - 1].wake] else [])
  }

  /** What is noted of a call is what it met: how it began, the bridge at that time, and what it woke up to since. */
  lemma {:induction false} MetAsBegun(states: seq<Bridge>, actions: seq<Action>, id: CallId, k: nat) returns (j: nat)
    requires IsRun(states, actions) && k <= |actions| && id in states[k].calls
    ensures id in states[k].met && j < k && actions[j] == Begin(id, states[k].met[id].entry)
    ensures states[k].met[id].shutdown == states[j].shutdown && states[k].met[id].slots == states[j].slots
    ensures states[k].met[id].woken == WokenIn(actions, id, j + 1, k)
    decreases k
  {
    hide Inv, Enter, WakeUp;
    RunInv(states, actions, k - 1);
    var b, a := states[k - 1], actions[k - 1];
    assert Enabled(b, a) && states[k] == Step(b, a);
    StepMet(b, a, id);
    if a.Begin? && a.id == id {
      j := k - 1;
    } else {
      j := MetAsBegun(states, actions, id, k - 1);
      assert WokenIn(actions, id, j + 1, k) == states[k].met[id].woken;
    }
  }

  lemma StepMet(b: Bridge, a: Action, id: CallId)
    requires Inv(b) && Enabled(b, a) && (a.Wakes? ==> b.slots > 0) && id in Step(b, a).calls
    ensures var r := Step(b, a);
      && id in r.met
      && if a.Begin? && a.id == id then r.met[id] == Met(a.entry, b.shutdown, b.slots, [])
         else
           && id in b.calls && id in b.met
           && r.met[id] == b.met[id].(woken := b.met[id].woken + if a.Wakes? && a.id == id then [a.wake] else [])
  {
    hide Enter, WakeUp, Accounted;
    match a {
      case Begin(x, e) =>
        EnterEffect(b, x, e);
        EnterMet(b, x, e);
      case Wakes(x, w) =>
        WakeEffect(b, x, w);
        WakeMet(b, x, w);
      case Shutdown =>
    }
  }

  lemma EnterMet(b: Bridge, id: CallId, e: Entry)
    requires CanEnter(b, id)
    ensures id in Enter(b, id, e).met && Enter(b, id, e).met[id] == Met(e, b.shutdown, b.slots, [])
  {
  }

  lemma WakeMet(b: Bridge, id: CallId, w: Wake)
    requires CanWake(b, id, w) && b.slots > 0
    ensures id in WakeUp(b, id, w).met && WakeUp(b, id, w).met[id] == b.met[id].(woken := b.met[id].woken + [w])
  {
  }

  /** The event is set if and only if the shutdown has been asked for. */
  lemma {:induction false} ShutdownIff(states: seq<Bridge>, actions: seq<Action>, k: nat)
    requires IsRun(states, actions) && k <= |actions|
    ensures states[k].shutdown <==> exists j | 0 <= j < k :: actions[j].Shutdown?
  {
    hide Enter, WakeUp;
    if k > 0 {
      ShutdownIff(states, actions, k - 1);
      RunInv(states, actions, k - 1);
      hide Inv;
      StepShutdown(states[k - 1], actions[k - 1]);
    }
  }

  lemma StepShutdown(b: Bridge, a: Action)
    requires Inv(b) && Enabled(b, a) && (a.Wakes? ==> b.slots > 0)
    ensures Step(b, a).shutdown <==> b.shutdown || a.Shutdown?
  {
    hide Enter, WakeUp, Accounted, SameApart;
    match a {
      case Begin(id, e) => EnterEffect(b, id, e);
      case Wakes(id, w) => WakeEffect(b, id, w);
      case Shutdown =>
    }
  }

  /** After `start_shutdown` the calls that hold a slot only ever get fewer. */
  lemma {:induction false} DrainsAfterShutdown(states: seq<Bridge>, actions: seq<Action>, j: nat, k: nat)
    requires IsRun(states, actions) && j < k <= |actions| && actions[j].Shutdown?
    ensures states[k].shutdown && Holding(states[k]) <= Holding(states[j]) && states[k].slots <= states[j].slots
    decreases k
  {
    hide Inv, Holding, Enter, WakeUp;
    RunInv(states, actions, k - 1);
    if k > j + 1 {
      DrainsAfterShutdown(states, actions, j, k - 1);
      ShutdownOnlyDrains(states[k - 1], actions[k - 1]);
    } else {
      StepHolding(states[j], actions[j]);
      assert states[k] == Step(states[j], actions[j]);
    }
  }

  /** Nothing keeps a new call from coming in, nor one that has its slot from giving it back. */
  lemma NobodyStuck(states: seq<Bridge>, actions: seq<Action>, k: nat, id: CallId)
    requires IsRun(states, actions) && k <= |actions|
    ensures CanEnter(states[k], id) <==> id !in states[k].calls
    ensures id in states[k].calls && !states[k].calls[id].Ended? ==> states[k].slots > 0
    ensures id in states[k].calls && states[k].calls[id].Notifying? ==>
      CanWake(states[k], id, Sent) && CanWake(states[k], id, Fails) && CanWake(states[k], id, Cancelled)
    ensures id in states[k].calls && states[k].calls[id].Requesting? ==>
      && CanWake(states[k], id, RequestDone) && CanWake(states[k], id, Cancelled)
      && (CanWake(states[k], id, ShutdownSeen) <==> states[k].shutdown)
    ensures id in states[k].calls && states[k].calls[id].Joining? ==>
      CanWake(states[k], id, Fails) && forall response :: CanWake(states[k], id, Reply(response))
    ensures id in states[k].calls && states[k].calls[id].Abandoning? ==> forall clean :: CanWake(states[k], id, RequestGone(clean))
  {
    hide Enter, WakeUp, Accounted;
    RunInv(states, actions, k);
    if id in states[k].calls && !states[k].calls[id].Ended? { assert id in Holding(states[k]); }
  }

  /** A waiting request sees the shutdown and gives its slot back in two steps. */
  lemma ShutdownReachesRequests(b: Bridge, id: CallId)
    requires Inv(b) && b.shutdown && id in b.calls && b.calls[id].Requesting?
    ensures CanWake(b, id, ShutdownSeen) && b.slots > 0
    ensures var b1 := WakeUp(b, id, ShutdownSeen);
      && CanWake(b1, id, RequestGone(true)) && b1.slots > 0
      && WakeUp(b1, id, RequestGone(true)).calls[id] == Ended(ShuttingDown)
      && Holding(WakeUp(b1, id, RequestGone(true))) == Holding(b) - {id}
  {
    SlotThere(b, id, ShutdownSeen);
    var b1 := WakeUp(b, id, ShutdownSeen);
    StepHolding(b, Wakes(id, ShutdownSeen));
    StepInv(b, Wakes(id, ShutdownSeen));
    StepHolding(b1, Wakes(id, RequestGone(true)));
  }
}
