/**
 Any number of concurrent `apply` calls, cut where they await: while they wait for the
 lock, and while they hold it and telemetry or upstreams are being swapped. The steps are
 the ones that the methods of `RuntimeConfigManager` are proved equal to: `Precheck` decides
 `Passes`, and `Swap` leaves `Restored` or `Finished` copies.
 */
module ApplyInterleavings {
  import opened Prelude
  import opened ConfigTrees
  import opened RuntimeConfigs
  import Secrets = ConfigSecrets

  type CallId = nat

  datatype Call =
    | Waiting(candidate: Payload, next: AppConfig)
    | Swapping(candidate: Payload, next: AppConfig, backupRaw: Payload, backupConfig: AppConfig)
    | Replied(applied: bool)
    | Cancelled

  datatype State = State(copies: Copies, lock: Option<CallId>, calls: map<CallId, Call>, applied: seq<Payload>)

  datatype Action =
    /** Everything before the lock. */
    | Begin(id: CallId, candidate: Payload, dryRun: bool, w: World)
    | Acquire(id: CallId)
    /** The telemetry or upstream swap raised. */
    | Raise(id: CallId)
    /** Both swaps returned: from the reload's own commit on, the rest runs without awaiting. */
    | Finish(id: CallId, saves: bool)
    | Cancel(id: CallId)

  /** Whether the action can happen in this state. */
  predicate Enabled(s: State, a: Action) {
    match a
    case Begin(id, _, _, _) => id !in s.calls
    case Acquire(id) => id in s.calls && s.calls[id].Waiting? && s.lock.None?
    case Raise(id) => id in s.calls && s.calls[id].Swapping?
    case Finish(id, _) => id in s.calls && s.calls[id].Swapping?
    case Cancel(id) => id in s.calls && (s.calls[id].Waiting? || s.calls[id].Swapping?)
  }

  /** Without a store there is nothing to save, and an apply that gets so far succeeds. */
  predicate Persists(s: State, a: Action) {
    a.Finish? && (s.copies.stored.NoStore? || a.saves)
  }

  ghost function Step(s: State, a: Action): (r: State)
    requires Enabled(s, a)
  {
    match a
    case Begin(id, candidate, dryRun, w) =>
      var passes := Passes(s.copies.config, candidate, dryRun, w);
      s.(calls := s.calls[id := if passes then Waiting(candidate, Next(candidate, w).value) else Replied(false)])
    case Acquire(id) =>
      var call := s.calls[id];
      s.(lock := Some(id),
         calls := s.calls[id := Swapping(call.candidate, call.next, s.copies.raw, s.copies.config)])
    case Raise(id) =>
      var call := s.calls[id];
      s.(copies := Restored(s.copies, call.backupRaw, call.backupConfig), lock := None,
         calls := s.calls[id := Replied(false)])
    case Finish(id, saves) =>
      var call := s.calls[id];
      var copies := Finished(s.copies, call.candidate, call.next, call.backupRaw, call.backupConfig, saves);
      s.(copies := copies, lock := None, calls := s.calls[id := Replied(Persists(s, a))],
         applied := if Persists(s, a) then s.applied + [call.candidate] else s.applied)
    case Cancel(id) =>
      s.(lock := if s.calls[id].Swapping? then None else s.lock, calls := s.calls[id := Cancelled])
  }

  ghost predicate Start(s: State, tls: string) {
    && s.lock.None? && s.calls == map[] && s.applied == []
    && s.copies.config.tls == tls && PoliciesFollow(s.copies)
  }

  ghost predicate PoliciesFollow(c: Copies) {
    c.policies.Some? ==> c.policies.value == c.config.policies
  }

  /** The copies are those of the start, or of the last applied candidate. */
  ghost predicate LastApplied(s: State, start: State) {
    if s.applied == [] then s.copies.raw == start.copies.raw && s.copies.stored == start.copies.stored
    else
      var last := s.applied[|s.applied| - 1];
      && s.copies.raw == last
      && s.copies.stored == if start.copies.stored.NoStore? then NoStore else Holds(Some(last))
  }

  /** What holds in every state: the copies agree, nobody swaps without the lock, TLS never changes. */
  ghost predicate Inv(s: State, start: State, tls: string) {
    && s.copies.config.tls == tls && PoliciesFollow(s.copies)
    && s.copies.stored.NoStore? == start.copies.stored.NoStore?
    && (forall id | id in s.calls && (s.calls[id].Waiting? || s.calls[id].Swapping?) :: s.calls[id].next.tls == tls)
    && (forall id | id in s.calls && s.calls[id].Swapping? ::
      s.lock == Some(id) && s.calls[id].backupRaw == s.copies.raw && s.calls[id].backupConfig == s.copies.config)
    && (s.lock.Some? ==> s.lock.value in s.calls && s.calls[s.lock.value].Swapping?)
    && LastApplied(s, start)
  }

  lemma StartInv(s: State, tls: string)
    requires Start(s, tls)
    ensures Inv(s, s, tls)
  {
  }

  /** Backups are never stale, so putting them back changes nothing. */
  lemma RestoredSame(s: State, id: CallId, start: State, tls: string)
    requires Inv(s, start, tls) && id in s.calls && s.calls[id].Swapping?
    ensures Restored(s.copies, s.calls[id].backupRaw, s.calls[id].backupConfig) == s.copies
  {
  }

  lemma FinishInv(s: State, a: Action, start: State, tls: string)
    requires Inv(s, start, tls) && Enabled(s, a) && a.Finish?
    ensures Inv(Step(s, a), start, tls)
  {
    RestoredSame(s, a.id, start, tls);
    if Persists(s, a) {
      var applied := s.applied + [s.calls[a.id].candidate];
      assert applied[|applied| - 1] == s.calls[a.id].candidate;
    }
  }

  lemma StepInv(s: State, a: Action, start: State, tls: string)
    requires Inv(s, start, tls) && Enabled(s, a)
    ensures Inv(Step(s, a), start, tls)
  {
    if a.Finish? {
      hide Step, Inv;
      FinishInv(s, a, start, tls);
    } else if a.Raise? {
      RestoredSame(s, a.id, start, tls);
    } else {
      hide PoliciesFollow, LastApplied, Next, Passes;
      if a.Begin? { PassesMeans(s.copies.config, a.candidate, a.dryRun, a.w); }
      SameLast(s, Step(s, a), start);
    }
  }

  lemma PassesMeans(config: AppConfig, candidate: Payload, dryRun: bool, w: World)
    ensures Passes(config, candidate, dryRun, w) ==>
      Next(candidate, w).Some? && Next(candidate, w).value.tls == config.tls && !dryRun
  {
  }

  lemma SameLast(s: State, r: State, start: State)
    requires LastApplied(s, start) && r.copies == s.copies && r.applied == s.applied
    ensures LastApplied(r, start)
  {
  }

  /** A call replies `applied: False` without having changed raw config, config, policies or store; `True` only by setting all. */
  lemma ReplyTells(s: State, a: Action, start: State, tls: string)
    requires Inv(s, start, tls) && Enabled(s, a)
    ensures var r := Step(s, a); var c := r.calls[a.id];
      && (c != Replied(true) ==> r.copies == s.copies.(upstreams := r.copies.upstreams) && r.applied == s.applied)
      && (!a.Finish? ==> r.copies == s.copies && c != Replied(true))
      && (c == Replied(true) ==>
            && Persists(s, a) && r.applied == s.applied + [s.calls[a.id].candidate]
            && r.copies == Copies(s.calls[a.id].candidate, s.calls[a.id].next,
              if s.copies.policies.Some? then Some(s.calls[a.id].next.policies) else None,
              if s.copies.stored.NoStore? then NoStore else Holds(Some(s.calls[a.id].candidate)),
              s.calls[a.id].next.upstreams))
      && (a.Finish? ==> r.copies.upstreams == s.calls[a.id].next.upstreams)
  {
    if a.Raise? || a.Finish? { RestoredSame(s, a.id, start, tls); }
    hide Passes, Next, LastApplied;
  }

  /** The states of a run: each action in turn, as long as it is enabled. */
  ghost predicate IsRun(states: seq<State>, actions: seq<Action>) {
    && |states| == |actions| + 1
    && forall k | 0 <= k < |actions| :: Enabled(states[k], actions[k]) && states[k + 1] == Step(states[k], actions[k])
  }

  lemma {:induction false} RunInv(states: seq<State>, actions: seq<Action>, k: nat, tls: string)
    requires IsRun(states, actions) && Start(states[0], tls) && k <= |actions|
    ensures Inv(states[k], states[0], tls)
  {
    hide Inv, Step, Enabled;
    if k == 0 {
      StartInv(states[0], tls);
    } else {
      RunInv(states, actions, k - 1, tls);
      StepInv(states[k - 1], actions[k - 1], states[0], tls);
    }
  }

  /**
   In every state of every interleaving the raw config is what the store would restore, if
   it was at the start, the policies are the config's, and the TLS block is the one the
   process started with, although each call compares it before it has the lock.
   */
  lemma RawIsStored(states: seq<State>, actions: seq<Action>, k: nat, tls: string)
    requires IsRun(states, actions) && Start(states[0], tls) && k <= |actions|
    ensures states[0].copies.stored == Holds(Some(states[0].copies.raw)) ==>
      states[k].copies.stored == Holds(Some(states[k].copies.raw))
    ensures states[k].copies.config.tls == tls && PoliciesFollow(states[k].copies)
  {
    hide Step, Enabled;
    RunInv(states, actions, k, tls);
  }

  /** Applies are serialised: all copies but the live upstreams change only when a call replies that it applied. */
  lemma {:induction false} CopiesFollowReplies(states: seq<State>, actions: seq<Action>, j: nat, k: nat, tls: string)
    requires IsRun(states, actions) && Start(states[0], tls) && j <= k <= |actions|
    ensures IsPrefix(states[j].applied, states[k].applied)
    ensures states[j].applied == states[k].applied ==>
      states[k].copies == states[j].copies.(upstreams := states[k].copies.upstreams)
    decreases k - j
  {
    hide Inv, Step, Enabled, Persists;
    if j < k {
      CopiesFollowReplies(states, actions, j, k - 1, tls);
      RunInv(states, actions, k - 1, tls);
      ReplyTells(states[k - 1], actions[k - 1], states[0], tls);
    }
  }

  /** At most one call holds the lock. */
  lemma OneSwapper(states: seq<State>, actions: seq<Action>, k: nat, tls: string, a: CallId, b: CallId)
    requires IsRun(states, actions) && Start(states[0], tls) && k <= |actions|
    requires a in states[k].calls && b in states[k].calls
    requires states[k].calls[a].Swapping? && states[k].calls[b].Swapping?
    ensures a == b
  {
    hide Step, Enabled;
    RunInv(states, actions, k, tls);
  }

  // ---- What becomes of a call ----

  /**
   A call goes on to the lock if and only if it is no dry run, every secret its candidate names
   exists, and the candidate stands for a valid config with the TLS block in force.
   */
  lemma BeginWaitsIff(s: State, id: CallId, candidate: Payload, dryRun: bool, w: World)
    requires Enabled(s, Begin(id, candidate, dryRun, w))
    ensures var r := Step(s, Begin(id, candidate, dryRun, w)); var next := Next(candidate, w);
      && r.copies == s.copies && r.lock == s.lock && r.applied == s.applied && id in r.calls
      && (r.calls[id] == Replied(false) || (next.Some? && r.calls[id] == Waiting(candidate, next.value)))
      && (r.calls[id] != Replied(false) <==>
            && !dryRun && next.Some? && next.value.tls == s.copies.config.tls
            && (w.secrets.Some? ==> forall n | n in Secrets.Names(Dict(candidate), Secrets.Kind.Secret) :: w.secrets.value(n).Some?))
  {
    hide Next, Secrets.Names;
  }

  predicate InHand(c: Call) {
    c.Waiting? || c.Swapping?
  }

  /** A call that waits or swaps has the candidate it began with, and what that stands for. */
  lemma {:induction false} HandedSince(states: seq<State>, actions: seq<Action>, id: CallId, k: nat) returns (j: nat, w: World)
    requires IsRun(states, actions) && states[0].calls == map[] && k <= |actions|
    requires id in states[k].calls && InHand(states[k].calls[id])
    ensures j < k && actions[j] == Begin(id, states[k].calls[id].candidate, false, w)
    ensures Next(states[k].calls[id].candidate, w) == Some(states[k].calls[id].next)
    decreases k
  {
    hide Next, Passes, Restored, Finished;
    var s, a := states[k - 1], actions[k - 1];
    assert Enabled(s, a) && states[k] == Step(s, a);
    if a.Begin? && a.id == id {
      hide Step;
      BeginWaitsIff(s, id, a.candidate, a.dryRun, a.w);
      j, w := k - 1, a.w;
    } else {
      StepHands(s, a, id);
      hide Step, Enabled;
      j, w := HandedSince(states, actions, id, k - 1);
    }
  }

  lemma StepHands(s: State, a: Action, id: CallId)
    requires Enabled(s, a) && !(a.Begin? && a.id == id)
    requires id in Step(s, a).calls && InHand(Step(s, a).calls[id])
    ensures id in s.calls && InHand(s.calls[id])
    ensures s.calls[id].candidate == Step(s, a).calls[id].candidate && s.calls[id].next == Step(s, a).calls[id].next
  {
    hide Next, Passes, Restored, Finished;
  }

  /** What a call that replies `applied: True` has put in place is what the candidate it began with stands for. */
  lemma AppliedAsBegun(states: seq<State>, actions: seq<Action>, k: nat, tls: string) returns (j: nat, w: World)
    requires IsRun(states, actions) && Start(states[0], tls) && k < |actions|
    requires actions[k].id in states[k + 1].calls && states[k + 1].calls[actions[k].id] == Replied(true)
    ensures j < k && actions[j].Begin? && actions[j].id == actions[k].id && !actions[j].dryRun && actions[j].w == w
    ensures var c := states[k + 1].copies;
      && c.raw == actions[j].candidate && Next(actions[j].candidate, w) == Some(c.config) && c.upstreams == c.config.upstreams
      && (c.policies.Some? ==> c.policies.value == c.config.policies)
      && (c.stored.Holds? ==> c.stored.payload == Some(actions[j].candidate))
      && (c.stored.NoStore? <==> states[0].copies.stored.NoStore?)
  {
    hide Next, Passes;
    RunInv(states, actions, k, tls);
    RunInv(states, actions, k + 1, tls);
    assert Enabled(states[k], actions[k]) && states[k + 1] == Step(states[k], actions[k]);
    ReplyTells(states[k], actions[k], states[0], tls);
    hide Step;
    assert states[k].calls[actions[k].id].Swapping?;
    j, w := HandedSince(states, actions, actions[k].id, k);
  }

  /** A call replies `applied: True` if and only if it gets to the end of its swaps, and there is no store or saving succeeds. */
  lemma {:induction false} AppliedIff(states: seq<State>, actions: seq<Action>, id: CallId, k: nat)
    requires IsRun(states, actions) && states[0].calls == map[] && k <= |actions|
    ensures states[k].copies.stored.NoStore? <==> states[0].copies.stored.NoStore?
    ensures id in states[k].calls && states[k].calls[id] == Replied(true) <==>
      exists j | 0 <= j < k :: actions[j] == Finish(id, true) || (actions[j] == Finish(id, false) && states[0].copies.stored.NoStore?)
    decreases k
  {
    hide Next, Passes;
    if k > 0 {
      AppliedIff(states, actions, id, k - 1);
      assert Enabled(states[k - 1], actions[k - 1]) && states[k] == Step(states[k - 1], actions[k - 1]);
    }
  }

  // ---- The live upstreams ----

  predicate UpstreamsFollow(c: Copies) {
    c.upstreams == c.config.upstreams
  }

  lemma {:induction false} NoFinishKeeps(states: seq<State>, actions: seq<Action>, j: nat, k: nat, tls: string)
    requires IsRun(states, actions) && Start(states[0], tls) && j <= k <= |actions|
    requires forall i | j <= i < k :: !actions[i].Finish?
    ensures states[k].copies == states[j].copies
    decreases k - j
  {
    hide Inv, Step, Enabled, Persists;
    if j < k {
      NoFinishKeeps(states, actions, j, k - 1, tls);
      RunInv(states, actions, k - 1, tls);
      ReplyTells(states[k - 1], actions[k - 1], states[0], tls);
    }
  }

  /**
   In every state of every interleaving the live upstreams are those of the last call that
   got through its reload. They follow the config if and only if that call could save what
   it applied, or had nothing to change in them.
   */
  lemma UpstreamsFollowIff(states: seq<State>, actions: seq<Action>, j: nat, k: nat, tls: string)
    requires IsRun(states, actions) && Start(states[0], tls) && j < k <= |actions|
    requires actions[j].Finish? && forall i | j < i < k :: !actions[i].Finish?
    ensures var next := states[j].calls[actions[j].id].next;
      && states[k].copies.upstreams == next.upstreams
      && (UpstreamsFollow(states[k].copies) <==>
            Persists(states[j], actions[j]) || next.upstreams == states[j].copies.config.upstreams)
  {
    hide Inv, Enabled;
    NoFinishKeeps(states, actions, j + 1, k, tls);
    RunInv(states, actions, j, tls);
    ReplyTells(states[j], actions[j], states[0], tls);
    assert states[j + 1] == Step(states[j], actions[j]);
  }

  /** And before any call has got through its reload, if they did at the start. */
  lemma UpstreamsFollowAtFirst(states: seq<State>, actions: seq<Action>, k: nat, tls: string)
    requires IsRun(states, actions) && Start(states[0], tls) && k <= |actions|
    requires forall i | 0 <= i < k :: !actions[i].Finish?
    ensures UpstreamsFollow(states[k].copies) <==> UpstreamsFollow(states[0].copies)
  {
    hide Step, Enabled;
    NoFinishKeeps(states, actions, 0, k, tls);
  }
}
