/**
 Requests that outlive what would settle them: after a reader has crashed, after the output has
 ended, and around a stop. See src/mcpxy_proxy/proxy/stdio.py, lines 73 to 157.
 */
module StdioStops {
  import opened Prelude
  import opened StdioTransports

  // ---- When no task is left that reads ----

  /** Every reader task has ended. */
  predicate Silent(t: Transport) {
    forall task | task in t.readers :: t.readers[task].Crashed?
  }

  /** The step settles `f`: its caller gives up waiting, or `stop` gets to its flush. */
  predicate Settles(t: Transport, a: Action, f: FutureId) {
    a.StopFlushes? || (a == CancelCaller(f) && f in t.callers && t.callers[f].Waiting?)
  }

  lemma SilentSame(t: Transport, r: Transport)
    requires Silent(t) && SameWork(t, r)
    ensures Silent(r)
  {
  }

  lemma SilentStays(t: Transport, a: Action)
    requires Enabled(t, a) && Silent(t) && !a.Start?
    ensures Silent(Step(t, a)) && !a.ReadLine? && !a.Respawn?
  {
    if a.StopBegins? || a.ReaderJoined? {
      hide Step, SameWork, Silent;
      StopIdle(t, a);
      SilentSame(t, Step(t, a));
    } else if a.StopFlushes? {
      hide Flush;
      FlushFields(t);
    }
  }

  lemma SilentSettles(t: Transport, a: Action, f: FutureId)
    requires Enabled(t, a) && Silent(t) && !a.Start? && Reachable(t) && IsOpen(t, f)
    ensures IsOpen(Step(t, a), f) <==> !Settles(t, a, f)
  {
    SilentStays(t, a);
    if a.StopFlushes? {
      FlushOne(t, f);
      hide Step, Flush;
      FlushStep(t, a);
    } else if Idle(a) {
      hide Step;
      IdleKeeps(t, a);
    }
  }

  lemma FlushOne(t: Transport, f: FutureId)
    requires Reachable(t) && f in t.futures
    ensures f in Flush(t).futures && !Flush(t).futures[f].Open?
  {
    if t.futures[f].Open? { assert t.pending[t.ids[f]] in t.pending.Values; }
  }

  /**
   From a state in which no task reads, and until the transport is started again, an open
   future stays open if and only if its caller does not give up and no stop gets to its flush.
   */
  lemma {:induction false} SilentSettlesIff(states: seq<Transport>, actions: seq<Action>, f: FutureId, j: nat, k: nat)
    requires IsRun(states, actions) && j <= k <= |actions|
    requires forall i | 0 <= i < k :: Distinct(states[i], actions[i])
    requires Silent(states[j]) && IsOpen(states[j], f)
    requires forall i | j <= i < k :: !actions[i].Start?
    ensures Silent(states[k])
    ensures IsOpen(states[k], f) <==> forall i | j <= i < k :: !Settles(states[i], actions[i], f)
    decreases k - j
  {
    hide Step, Enabled, Initial, Distinct, Silent, Reachable, Settles;
    if j < k {
      SilentSettlesIff(states, actions, f, j, k - 1);
      var t, a := states[k - 1], actions[k - 1];
      assert states[k] == Step(t, a);
      SilentStays(t, a);
      if IsOpen(t, f) {
        RunReachable(states, actions, k - 1);
        SilentSettles(t, a, f);
      } else {
        FutureStays(states, actions, f, j, k - 1);
        StepSettles(t, a, f);
      }
    }
  }

  lemma FutureStays(states: seq<Transport>, actions: seq<Action>, f: FutureId, j: nat, k: nat)
    requires IsRun(states, actions) && j <= k <= |actions| && IsOpen(states[j], f)
    ensures f in states[k].futures
  {
    ResolvedOnce(states, actions, f, j, k);
  }

  lemma CrashedStep(t: Transport, a: Action)
    requires Enabled(t, a) && Silent(t) && ReaderCrashed(t) && t.stopping.NotStopping? && !a.Start?
    ensures ReaderCrashed(Step(t, a)) && Step(t, a).stopping.NotStopping? && !a.StopFlushes?
  {
  }

  /**
   One line that is JSON without a usable id ends the reader by an exception. Until the
   transport is started again no stop gets to its flush, and a request that waits is
   settled only by its caller giving up.
   */
  lemma {:induction false} CrashStrands(states: seq<Transport>, actions: seq<Action>, f: FutureId, j: nat, k: nat)
    requires IsRun(states, actions) && j <= k <= |actions|
    requires forall i | 0 <= i < k :: Distinct(states[i], actions[i])
    requires Silent(states[j]) && ReaderCrashed(states[j]) && states[j].stopping.NotStopping? && IsOpen(states[j], f)
    requires forall i | j <= i < k :: !actions[i].Start?
    ensures ReaderCrashed(states[k]) && states[k].stopping.NotStopping?
    ensures forall i | j <= i < k :: !actions[i].StopFlushes?
    ensures IsOpen(states[k], f) <==> forall i | j <= i < k :: !Settles(states[i], actions[i], f)
    decreases k - j
  {
    hide Step, Enabled, Initial, Distinct, Silent, Settles, ReaderCrashed;
    SilentSettlesIff(states, actions, f, j, k);
    if j < k {
      CrashStrands(states, actions, f, j, k - 1);
      SilentAt(states, actions, j, k - 1);
      CrashedStep(states[k - 1], actions[k - 1]);
    }
  }

  lemma {:induction false} SilentAt(states: seq<Transport>, actions: seq<Action>, j: nat, k: nat)
    requires IsRun(states, actions) && j <= k <= |actions| && Silent(states[j])
    requires forall i | j <= i < k :: !actions[i].Start?
    ensures Silent(states[k])
    decreases k - j
  {
    hide Step, Enabled, Initial, Silent;
    if j < k {
      SilentAt(states, actions, j, k - 1);
      SilentStays(states[k - 1], actions[k - 1]);
    }
  }

  /** Starting the transport again after a crash brings back a reader, and the end of its output settles what waited. */
  lemma StartRecovers(t: Transport, task: TaskId, f: FutureId)
    requires Reachable(t) && IsOpen(t, f) && Enabled(t, Start(true, task))
    ensures var r := Step(t, Start(true, task));
      Enabled(r, ReadLine(task, Eof)) && !IsOpen(Step(r, ReadLine(task, Eof)), f)
  {
    hide Flush, IsOpen;
    var r := Step(t, Start(true, task));
    assert SameFutures(t, r) by { SpawnIdle(t, Start(true, task)); }
    assert f in r.futures by { OpenThere(t, f); }
    SameKeeps(t, r);
    FlushOne(r, f);
    FlushStep(r, ReadLine(task, Eof));
    NotOpen(Flush(r), Step(r, ReadLine(task, Eof)), f);
  }

  lemma OpenThere(t: Transport, f: FutureId)
    requires IsOpen(t, f)
    ensures f in t.futures
  {
  }

  lemma NotOpen(t: Transport, r: Transport, f: FutureId)
    requires SameFutures(t, r) && f in t.futures && !t.futures[f].Open?
    ensures !IsOpen(r, f)
  {
  }

  /** A started transport with one request that waits, and a line without a usable id. */
  const CRASHING := [Start(true, 0), Request(0, Some("1")), Write(0, true), ReadLine(0, Strange)]

  /** So the crash is reached, with a request that waits for a reply. */
  lemma CrashHappens() returns (states: seq<Transport>)
    ensures IsRun(states, CRASHING)
    ensures forall i | 0 <= i < 4 :: Distinct(states[i], CRASHING[i])
    ensures Silent(states[4]) && ReaderCrashed(states[4]) && states[4].stopping.NotStopping?
    ensures IsOpen(states[4], 0) && 0 in states[4].callers && states[4].callers[0].Waiting?
  {
    var s1 := Step(Initial(), Start(true, 0));
    var s2 := Step(s1, Request(0, Some("1")));
    var s3 := Step(s2, Write(0, true));
    var s4 := Step(s3, ReadLine(0, Strange));
    states := [Initial(), s1, s2, s3, s4];
  }

  // ---- After the end of the output ----

  /**
   When the output ends while the transport is running, its reader waits and respawns the
   process. From then on, until the transport is started again, no task reads any more if
   and only if the spawn fails: the failure is logged, and nothing tries again.
   */
  lemma RespawnDecides(
      states: seq<Transport>, actions: seq<Action>, task: TaskId, ok: bool, next: TaskId, j: nat, k: nat, m: nat)
    requires IsRun(states, actions) && j < k < m <= |actions|
    requires actions[j] == ReadLine(task, Eof) && states[j].running && OthersSilent(states[j], task)
    requires actions[k] == Respawn(task, ok, next)
    requires forall i | j < i < m :: !actions[i].Start?
    requires forall i | j < i < k :: !actions[i].Respawn?
    ensures (forall i | k < i <= m :: Silent(states[i])) <==> !ok
  {
    hide Initial, Silent, Step, Enabled, OthersSilent, AtMostWaits;
    assert states[j + 1] == Step(states[j], actions[j]) && states[k + 1] == Step(states[k], actions[k]);
    EofWaits(states[j], task);
    OthersStaySilent(states, actions, task, j + 1, k);
    RespawnReads(states[k], task, ok, next);
    if !ok {
      forall i | k < i <= m ensures Silent(states[i]) { SilentAt(states, actions, k + 1, i); }
    }
  }

  /** No other task than this one reads. */
  predicate OthersSilent(t: Transport, task: TaskId) {
    forall x | x in t.readers && x != task :: t.readers[x].Crashed?
  }

  predicate AtMostWaits(t: Transport, task: TaskId) {
    OthersSilent(t, task) && (task in t.readers ==> t.readers[task].Restarting?)
  }

  lemma EofWaits(t: Transport, task: TaskId)
    requires Enabled(t, ReadLine(task, Eof)) && t.running && OthersSilent(t, task)
    ensures AtMostWaits(Step(t, ReadLine(task, Eof)), task)
  {
    hide Flush;
    FlushFields(t);
  }

  lemma RespawnReads(t: Transport, task: TaskId, ok: bool, next: TaskId)
    requires Enabled(t, Respawn(task, ok, next)) && AtMostWaits(t, task)
    ensures Silent(Step(t, Respawn(task, ok, next))) <==> !ok
  {
    if ok { assert Step(t, Respawn(task, ok, next)).readers[next].Reading?; }
  }

  lemma {:induction false} OthersStaySilent(states: seq<Transport>, actions: seq<Action>, task: TaskId, j: nat, k: nat)
    requires IsRun(states, actions) && j <= k <= |actions| && AtMostWaits(states[j], task)
    requires forall i | j <= i < k :: !actions[i].Start? && !actions[i].Respawn?
    ensures AtMostWaits(states[k], task)
    decreases k - j
  {
    hide Initial, AtMostWaits, Step, Enabled;
    if j < k {
      OthersStaySilent(states, actions, task, j, k - 1);
      OthersStay(states[k - 1], actions[k - 1], task);
    }
  }

  lemma OthersStay(t: Transport, a: Action, task: TaskId)
    requires Enabled(t, a) && AtMostWaits(t, task) && !a.Start? && !a.Respawn?
    ensures AtMostWaits(Step(t, a), task)
  {
    if a.StopBegins? || a.ReaderJoined? {
      hide Step;
      StopIdle(t, a);
    } else if a.StopFlushes? {
      hide Flush;
      FlushFields(t);
    }
  }

  // ---- What a stop does to the requests that wait ----

  /** A reader of the standard error, or the reader, has ended by an exception, before the stop or while it joins. */
  function CrashedBy(states: seq<Transport>, actions: seq<Action>, j: nat, i: nat): (crashed: bool)
    requires j < i <= |actions| < |states|
    decreases i
  {
    if i == j + 1 then ReaderCrashed(states[j]) || states[j].stderr.Broken?
    else CrashedBy(states, actions, j, i - 1) || actions[i - 1].StderrCrash?
  }

  lemma {:induction false} CrashedByIff(states: seq<Transport>, actions: seq<Action>, j: nat, i: nat)
    requires j < i <= |actions| < |states|
    ensures CrashedBy(states, actions, j, i) <==>
      ReaderCrashed(states[j]) || states[j].stderr.Broken? || exists x | j < x < i :: actions[x].StderrCrash?
    decreases i
  {
    hide ReaderCrashed;
    if i > j + 1 { CrashedByIff(states, actions, j, i - 1); }
  }

  /** How far a stop has come, and what that means for a request that waited when it began. */
  predicate Reached(t: Transport, f: FutureId, crashed: bool) {
    match t.stopping
    case JoiningReader => IsOpen(t, f) && (t.stderr.Broken? <==> crashed)
    case JoiningStderr => IsOpen(t, f) && !crashed && t.stderr.Absent?
    case Closing => !IsOpen(t, f) && !crashed && t.stderr.Absent?
    case NotStopping => IsOpen(t, f) <==> crashed
  }

  lemma JoinReaches(t: Transport, f: FutureId)
    requires IsOpen(t, f)
    ensures Reached(JoinStderr(t), f, t.stderr.Broken?)
  {
  }

  lemma BeginReaches(t: Transport, f: FutureId)
    requires Enabled(t, StopBegins) && IsOpen(t, f)
    ensures Reached(Step(t, StopBegins), f, ReaderCrashed(t) || t.stderr.Broken?)
  {
    hide ReaderCrashed, JoinStderr;
    JoinReaches(t.(running := false), f);
  }

  lemma StopReaches(t: Transport, a: Action, f: FutureId, crashed: bool)
    requires Enabled(t, a) && Silent(t) && Reachable(t) && f in t.futures && !t.stopping.NotStopping?
    requires Reached(t, f, crashed) && !a.Start? && a != CancelCaller(f)
    ensures Reached(Step(t, a), f, crashed || a.StderrCrash?)
  {
    SilentStays(t, a);
    StepSettles(t, a, f);
    if IsOpen(t, f) { SilentSettles(t, a, f); }
    if a.StopFlushes? { FlushFields(t); }
    hide Flush, Silent, Reachable, IsOpen;
  }

  /**
   A stop, from its beginning to its end or to the exception it raises, settles a request
   that waited when it began if and only if neither the reader nor the stderr reader had
   ended by an exception, and the latter does not do so while the reader is joined.
   */
  lemma StopSettlesIff(states: seq<Transport>, actions: seq<Action>, f: FutureId, j: nat, m: nat)
    requires IsRun(states, actions) && j < m <= |actions|
    requires forall i | 0 <= i < m :: Distinct(states[i], actions[i])
    requires actions[j] == StopBegins && IsOpen(states[j], f) && Silent(states[j + 1])
    requires states[m].stopping.NotStopping? && forall i | j < i < m :: !states[i].stopping.NotStopping?
    requires forall i | j < i < m :: !actions[i].Start? && actions[i] != CancelCaller(f)
    ensures !IsOpen(states[m], f) <==>
      !ReaderCrashed(states[j]) && !states[j].stderr.Broken? && forall i | j < i < m :: !actions[i].StderrCrash?
  {
    hide Initial, Step, Enabled, Distinct, Silent, ReaderCrashed, IsOpen, Reached;
    StopRun(states, actions, f, j, m);
    CrashedByIff(states, actions, j, m);
    ReachedEnd(states[m], f, CrashedBy(states, actions, j, m));
  }

  lemma ReachedEnd(t: Transport, f: FutureId, crashed: bool)
    requires t.stopping.NotStopping? && Reached(t, f, crashed)
    ensures IsOpen(t, f) <==> crashed
  {
  }

  lemma {:induction false} StopRun(states: seq<Transport>, actions: seq<Action>, f: FutureId, j: nat, m: nat)
    requires IsRun(states, actions) && j < m <= |actions|
    requires forall i | 0 <= i < m :: Distinct(states[i], actions[i])
    requires actions[j] == StopBegins && IsOpen(states[j], f) && Silent(states[j + 1])
    requires forall i | j < i < m :: !states[i].stopping.NotStopping?
    requires forall i | j < i < m :: !actions[i].Start? && actions[i] != CancelCaller(f)
    ensures Reached(states[m], f, CrashedBy(states, actions, j, m))
    decreases m
  {
    hide Initial, Step, Enabled, Distinct, Silent, ReaderCrashed, Reached, Reachable;
    assert states[j + 1] == Step(states[j], actions[j]);
    FutureStays(states, actions, f, j, m - 1);
    if m == j + 1 {
      BeginReaches(states[j], f);
    } else {
      StopRun(states, actions, f, j, m - 1);
      RunReachable(states, actions, m - 1);
      SilentAt(states, actions, j + 1, m - 1);
      StopReaches(states[m - 1], actions[m - 1], f, CrashedBy(states, actions, j, m - 1));
    }
  }

  /** A caller that waits for `f` gives up. */
  predicate GivesUp(t: Transport, a: Action, f: FutureId) {
    a == CancelCaller(f) && f in t.callers && t.callers[f].Waiting?
  }

  predicate Joins(t: Transport, a: Action, f: FutureId) {
    Registers(t, a) && a.future == f
  }

  /** After step `i` and before step `k` the caller does not give up. */
  ghost predicate WaitsOn(states: seq<Transport>, actions: seq<Action>, f: FutureId, i: nat, k: nat)
    requires k <= |actions| < |states|
  {
    forall x | i < x < k :: !GivesUp(states[x], actions[x], f)
  }

  ghost predicate NoneOpen(t: Transport) {
    forall f :: !IsOpen(t, f)
  }

  /** While the process is waited for, requests can still join, and only they and their callers change anything. */
  lemma ClosingStep(t: Transport, a: Action, f: FutureId)
    requires Enabled(t, a) && Silent(t) && t.stopping.Closing? && !a.Start?
    ensures Silent(Step(t, a)) && (!a.StopEnds? ==> Step(t, a).stopping.Closing?)
    ensures Step(t, a).pending == map[] <==> t.pending == map[] && !Registers(t, a)
    ensures IsOpen(Step(t, a), f) <==> Joins(t, a, f) || (IsOpen(t, f) && !GivesUp(t, a, f))
  {
    SilentStays(t, a);
    if Registers(t, a) {
      assert a.id.value in Step(t, a).pending;
    } else if Idle(a) {
      IdleKeeps(t, a);
    }
  }

  /** What can be said of one future while the process is waited for. */
  lemma {:induction false} ClosingRun(states: seq<Transport>, actions: seq<Action>, f: FutureId, j: nat, k: nat)
    requires IsRun(states, actions) && j < k <= |actions|
    requires states[j + 1].stopping.Closing? && Silent(states[j + 1])
    requires states[j + 1].pending == map[] && !IsOpen(states[j + 1], f)
    requires forall i | j < i < k :: !actions[i].StopEnds? && !actions[i].Start?
    ensures Silent(states[k]) && states[k].stopping.Closing?
    ensures states[k].pending == map[] <==> forall i | j < i < k :: !Registers(states[i], actions[i])
    ensures IsOpen(states[k], f) <==>
      exists i | j < i < k :: Joins(states[i], actions[i], f) && WaitsOn(states, actions, f, i, k)
    decreases k
  {
    hide Initial, Step, Enabled, Silent, IsOpen, Registers, Joins, GivesUp;
    if k > j + 1 {
      ClosingRun(states, actions, f, j, k - 1);
      var t, a := states[k - 1], actions[k - 1];
      assert states[k] == Step(t, a);
      ClosingStep(t, a, f);
      forall i | j < i < k && WaitsOn(states, actions, f, i, k) ensures WaitsOn(states, actions, f, i, k - 1) {
      }
      if IsOpen(states[k], f) {
        if Joins(t, a, f) {
          assert WaitsOn(states, actions, f, k - 1, k);
        } else {
          var i :| j < i < k - 1 && Joins(states[i], actions[i], f) && WaitsOn(states, actions, f, i, k - 1);
          assert WaitsOn(states, actions, f, i, k);
        }
      }
    }
  }

  /** The flush and the end of one stop, with no reader left and nobody starting the transport in between. */
  ghost predicate Closes(states: seq<Transport>, actions: seq<Action>, j: nat, k: nat) {
    && IsRun(states, actions) && j < k < |actions| && actions[j].StopFlushes? && actions[k].StopEnds?
    && Silent(states[j]) && (forall i | 0 <= i < j :: Distinct(states[i], actions[i]))
    && (forall i | j < i < k :: !actions[i].StopEnds? && !actions[i].Start?)
  }

  lemma FlushedAt(states: seq<Transport>, actions: seq<Action>, j: nat, k: nat)
    requires Closes(states, actions, j, k)
    ensures states[j + 1].stopping.Closing? && Silent(states[j + 1])
    ensures states[j + 1].pending == map[] && NoneOpen(states[j + 1])
  {
    hide Initial, Flush, Distinct, Reachable;
    RunMatched(states, actions, j);
    RunReachable(states, actions, j);
    FlushKeeps(states[j]);
    FlushFields(states[j]);
    hide Matched;
  }

  lemma EndKeeps(t: Transport)
    requires t.stopping.Closing?
    ensures Step(t, StopEnds).pending == t.pending && Step(t, StopEnds).futures == t.futures
  {
  }

  /**
   When a stop has ended, a future is open if and only if its request came after the flush
   and its caller has not given up since.
   */
  lemma OpenAfterStopIff(states: seq<Transport>, actions: seq<Action>, f: FutureId, j: nat, k: nat)
    requires Closes(states, actions, j, k)
    ensures IsOpen(states[k + 1], f) <==>
      exists i | j < i < k :: Joins(states[i], actions[i], f) && WaitsOn(states, actions, f, i, k)
  {
    FlushedAt(states, actions, j, k);
    ClosingRun(states, actions, f, j, k);
    EndKeeps(states[k]);
  }

  /** A stop leaves the map empty and no future open if and only if no request came after its flush. */
  lemma StopEndsCleanIff(states: seq<Transport>, actions: seq<Action>, j: nat, k: nat)
    requires Closes(states, actions, j, k)
    ensures states[k + 1].pending == map[] && NoneOpen(states[k + 1]) <==>
      forall i | j < i < k :: !Registers(states[i], actions[i])
  {
    hide Joins, Registers;
    FlushedAt(states, actions, j, k);
    ClosingRun(states, actions, 0, j, k);
    EndKeeps(states[k]);
    if forall i | j < i < k :: !Registers(states[i], actions[i]) {
      var t := states[k + 1];
      forall f ensures !IsOpen(t, f) {
        OpenAfterStopIff(states, actions, f, j, k);
        NoneJoined(states, actions, f, j, k);
      }
    }
  }

  lemma NoneJoined(states: seq<Transport>, actions: seq<Action>, f: FutureId, j: nat, k: nat)
    requires k <= |actions| < |states| && forall i | j < i < k :: !Registers(states[i], actions[i])
    ensures forall i | j < i < k :: !Joins(states[i], actions[i], f)
  {
  }

  /**
   A request that comes after the flush: its entry stays in the map whatever becomes of its
   write, and its caller is left waiting exactly if the write to the closed input succeeds.
   */
  lemma LateRequestStranded(t: Transport, f: FutureId, id: Id, ok: bool)
    requires t.stopping.Closing? && t.proc && Enabled(t, Request(f, Some(id)))
    ensures var t1 := Step(t, Request(f, Some(id)));
      && Enabled(t1, Write(f, ok))
      && var t2 := Step(t1, Write(f, ok));
      Enabled(t2, StopEnds)
      && var t3 := Step(t2, StopEnds);
      && !t3.proc && id in t3.pending && t3.pending[id] == f && IsOpen(t3, f)
      && f in t3.callers && (t3.callers[f].Waiting? <==> ok)
  {
  }
}
