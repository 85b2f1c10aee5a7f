/**
 What the transport's fields and futures are after any run, told by the actions alone:
 src/mcpxy_proxy/proxy/stdio.py, lines 47 to 186.
 */
module StdioHistories {
  import opened Prelude
  import opened StdioTransports
  import opened StdioStops

  // ---- The process ----

  /** Started, and not stopped since. */
  ghost predicate IsUp(actions: seq<Action>, k: nat)
    requires k <= |actions|
  {
    exists j | 0 <= j < k :: actions[j].Start? && actions[j].ok && forall i | j < i < k :: !actions[i].StopBegins?
  }

  predicate Spawns(a: Action) {
    (a.Start? && a.ok) || (a.Respawn? && a.ok)
  }

  /** Spawned, and no stop has come to its end since. */
  ghost predicate HasProcess(actions: seq<Action>, k: nat)
    requires k <= |actions|
  {
    exists j | 0 <= j < k :: Spawns(actions[j]) && forall i | j < i < k :: !actions[i].StopEnds?
  }

  lemma IsUpNext(actions: seq<Action>, k: nat)
    requires 0 < k <= |actions|
    ensures IsUp(actions, k) <==>
      (actions[k - 1].Start? && actions[k - 1].ok) || (!actions[k - 1].StopBegins? && IsUp(actions, k - 1))
  {
    if IsUp(actions, k - 1) && !actions[k - 1].StopBegins? {
      var j :| 0 <= j < k - 1 && actions[j].Start? && actions[j].ok && forall i | j < i < k - 1 :: !actions[i].StopBegins?;
      assert forall i | j < i < k :: !actions[i].StopBegins?;
    }
  }

  lemma HasProcessNext(actions: seq<Action>, k: nat)
    requires 0 < k <= |actions|
    ensures HasProcess(actions, k) <==> Spawns(actions[k - 1]) || (!actions[k - 1].StopEnds? && HasProcess(actions, k - 1))
  {
    hide Spawns;
    if HasProcess(actions, k - 1) && !actions[k - 1].StopEnds? {
      var j :| 0 <= j < k - 1 && Spawns(actions[j]) && forall i | j < i < k - 1 :: !actions[i].StopEnds?;
      assert forall i | j < i < k :: !actions[i].StopEnds?;
    }
  }

  lemma StepFlags(t: Transport, a: Action)
    requires Enabled(t, a)
    ensures Step(t, a).running <==> (a.Start? && a.ok) || (!a.StopBegins? && t.running)
    ensures Step(t, a).proc <==> Spawns(a) || (!a.StopEnds? && t.proc)
  {
    hide Flush, Resolve, ReaderCrashed;
    if a.StopBegins? || a.ReaderJoined? {
      hide BeginStop, JoinStderr;
      BeginFlags(t);
    } else if a.ReadLine? {
      ReadFlags(t, a.task, a.line);
    } else if a.StopFlushes? {
      FlushFields(t);
    }
  }

  lemma BeginFlags(t: Transport)
    ensures !BeginStop(t).running && BeginStop(t).proc == t.proc
    ensures JoinStderr(t).running == t.running && JoinStderr(t).proc == t.proc
  {
    JoinFlags(t);
    JoinFlags(t.(running := false));
    hide JoinStderr, ReaderCrashed;
  }

  lemma JoinFlags(t: Transport)
    ensures JoinStderr(t).running == t.running && JoinStderr(t).proc == t.proc
  {
    if t.stderr.Broken? {
      assert JoinStderr(t) == t.(reader := None, stopping := NotStopping);
    } else {
      assert JoinStderr(t) == t.(reader := None, stderr := Absent, stopping := JoiningStderr);
    }
  }

  lemma ReadFlags(t: Transport, task: TaskId, line: Line)
    ensures Read(t, task, line).running == t.running && Read(t, task, line).proc == t.proc
  {
    hide Flush;
    FlushFields(t);
  }

  /** The transport runs if and only if it was started and not stopped since, and has a process if and only if one was spawned. */
  lemma {:induction false} RunningIff(states: seq<Transport>, actions: seq<Action>, k: nat)
    requires IsRun(states, actions) && k <= |actions|
    ensures states[k].running <==> IsUp(actions, k)
    ensures states[k].proc <==> HasProcess(actions, k)
  {
    hide Step, Enabled, IsUp, HasProcess;
    if k == 0 {
      NothingYet(actions);
    } else {
      hide Initial;
      RunningIff(states, actions, k - 1);
      StepFlags(states[k - 1], actions[k - 1]);
      IsUpNext(actions, k);
      HasProcessNext(actions, k);
    }
  }

  lemma NothingYet(actions: seq<Action>)
    ensures !IsUp(actions, 0) && !HasProcess(actions, 0)
  {
  }

  /** What a reader does after a line: it is gone for good after one it cannot take, and reads on only while there is something to read. */
  lemma ReadsOnIff(states: seq<Transport>, actions: seq<Action>, k: nat, task: TaskId, line: Line)
    requires IsRun(states, actions) && k < |actions| && actions[k] == ReadLine(task, line)
    ensures var readers := states[k + 1].readers;
      && readers - {task} == states[k].readers - {task}
      && (task in readers && readers[task].Crashed? <==> line.Strange?)
      && (task in readers && readers[task].Restarting? <==> line.Eof? && IsUp(actions, k))
      && (task in readers && readers[task].Reading? <==>
            (line.Invalid? || line.Message?) && IsUp(actions, k) && HasProcess(actions, k))
  {
    hide IsUp, HasProcess;
    RunningIff(states, actions, k);
    assert Enabled(states[k], actions[k]) && states[k + 1] == Step(states[k], actions[k]);
    hide IsRun;
    ReadMeans(states[k], task, line);
  }

  lemma ReadMeans(t: Transport, task: TaskId, line: Line)
    requires task in t.readers && t.readers[task].Reading?
    ensures var readers := Read(t, task, line).readers;
      && readers - {task} == t.readers - {task}
      && (task in readers && readers[task].Crashed? <==> line.Strange?)
      && (task in readers && readers[task].Restarting? <==> line.Eof? && t.running)
      && (task in readers && readers[task].Reading? <==> (line.Invalid? || line.Message?) && t.running && t.proc)
  {
    hide Flush, Resolve;
    FlushFields(t);
    if line.Message? && line.id.Some? {
      ResolveFields(t, line.id.value);
    }
  }

  lemma ResolveFields(t: Transport, id: Id)
    ensures Resolve(t, id) == t.(pending := Resolve(t, id).pending, futures := Resolve(t, id).futures)
  {
  }

  // ---- The pending map ----

  predicate Asks(a: Action, id: Id) {
    a.Request? && a.id == Some(id)
  }

  predicate RepliesTo(a: Action, id: Id) {
    a.ReadLine? && a.line.Message? && a.line.id == Some(id)
  }

  /** Step `j` put `f` under `id`; since then no other request took its place, no reply to it came, and nothing was flushed. */
  ghost predicate PutBy(actions: seq<Action>, id: Id, f: FutureId, j: nat, k: nat)
    requires j < k <= |actions|
  {
    && actions[j] == Request(f, Some(id)) && HasProcess(actions, j)
    && forall i | j < i < k :: !RepliesTo(actions[i], id) && !Flushes(actions[i]) && (Asks(actions[i], id) ==> !HasProcess(actions, i))
  }

  ghost predicate WasPut(actions: seq<Action>, id: Id, f: FutureId, k: nat)
    requires k <= |actions|
  {
    exists j | 0 <= j < k :: PutBy(actions, id, f, j, k)
  }

  lemma StepPut(t: Transport, a: Action, id: Id, f: FutureId)
    requires Enabled(t, a)
    ensures id in Step(t, a).pending && Step(t, a).pending[id] == f <==>
      if t.proc && Asks(a, id) then a.future == f
      else id in t.pending && t.pending[id] == f && !RepliesTo(a, id) && !Flushes(a)
  {
    if Flushes(a) {
      FlushStep(t, a);
      hide Step;
    } else if Replies(a) {
      ReplyStep(t, a);
      hide Step;
    } else if Idle(a) {
      hide Step;
      IdleKeeps(t, a);
    }
  }

  /** A future is in the map under an id if and only if a request put it there, and nothing took it out since. */
  lemma {:induction false} PendingIff(states: seq<Transport>, actions: seq<Action>, id: Id, f: FutureId, k: nat)
    requires IsRun(states, actions) && k <= |actions|
    ensures id in states[k].pending && states[k].pending[id] == f <==> WasPut(actions, id, f, k)
  {
    hide Step, Enabled, HasProcess, RepliesTo, Flushes, Asks;
    if k == 0 {
      assert !WasPut(actions, id, f, 0);
    } else {
      hide WasPut;
      hide Initial;
      PendingIff(states, actions, id, f, k - 1);
      RunningIff(states, actions, k - 1);
      StepPut(states[k - 1], actions[k - 1], id, f);
      assert Asks(actions[k - 1], id) && actions[k - 1].future == f ==> actions[k - 1] == Request(f, Some(id)) by { AsksWhat(actions[k - 1], id); }
      assert actions[k - 1] == Request(f, Some(id)) ==> Asks(actions[k - 1], id) by { AsksWhat(actions[k - 1], id); }
      PutNext(actions, id, f, k);
    }
  }

  lemma AsksWhat(a: Action, id: Id)
    ensures Asks(a, id) <==> a.Request? && a == Request(a.future, Some(id))
  {
  }

  lemma PutNext(actions: seq<Action>, id: Id, f: FutureId, k: nat)
    requires 0 < k <= |actions|
    ensures WasPut(actions, id, f, k) <==>
      if HasProcess(actions, k - 1) && Asks(actions[k - 1], id) then actions[k - 1] == Request(f, Some(id))
      else WasPut(actions, id, f, k - 1) && !RepliesTo(actions[k - 1], id) && !Flushes(actions[k - 1])
  {
    hide HasProcess, RepliesTo, Flushes;
    var a := actions[k - 1];
    if WasPut(actions, id, f, k - 1) {
      var j :| 0 <= j < k - 1 && PutBy(actions, id, f, j, k - 1);
      if !(HasProcess(actions, k - 1) && Asks(a, id)) && !RepliesTo(a, id) && !Flushes(a) { assert PutBy(actions, id, f, j, k); }
    }
    if WasPut(actions, id, f, k) {
      var j :| 0 <= j < k && PutBy(actions, id, f, j, k);
      if j < k - 1 { assert PutBy(actions, id, f, j, k - 1); }
    }
    if a == Request(f, Some(id)) && HasProcess(actions, k - 1) { assert PutBy(actions, id, f, k - 1, k); }
  }

  // ---- Callers and futures ----

  /** Step `j` registered a request: it has an id, and there was a process to write it to. */
  ghost predicate AskedBy(actions: seq<Action>, id: Id, f: FutureId, j: nat)
    requires j < |actions|
  {
    actions[j] == Request(f, Some(id)) && HasProcess(actions, j)
  }

  /** The write failed, or the caller was cancelled, in a step from `j` on and before step `k`. */
  ghost predicate GaveUp(actions: seq<Action>, f: FutureId, j: nat, k: nat)
    requires k <= |actions|
  {
    exists i | j < i < k :: actions[i] == CancelCaller(f) || actions[i] == Write(f, false)
  }

  ghost predicate Wrote(actions: seq<Action>, f: FutureId, j: nat, k: nat)
    requires k <= |actions|
  {
    exists i | j < i < k :: actions[i] == Write(f, true)
  }

  lemma StepCaller(t: Transport, a: Action, f: FutureId)
    requires Enabled(t, a) && f in t.callers
    ensures f in Step(t, a).callers
    ensures Step(t, a).callers[f] ==
      if a == CancelCaller(f) || a == Write(f, false) then Raised else if a == Write(f, true) then Waiting else t.callers[f]
  {
    hide Flush, Resolve, ReaderCrashed;
    if a.StopBegins? || a.ReaderJoined? {
      hide Step, SameFutures;
      StopIdle(t, a);
    } else if a.ReadLine? {
      hide Loop;
      FlushFields(t);
      if Replies(a) {
        ResolveFields(t, a.line.id.value);
        LoopKeeps(Resolve(t, a.line.id.value), a.task);
      }
      LoopKeeps(t, a.task);
    } else if a.StopFlushes? {
      FlushFields(t);
    }
  }

  /** What has become of a caller. */
  lemma {:induction false} CallerIs(states: seq<Transport>, actions: seq<Action>, id: Id, f: FutureId, j: nat, k: nat)
    requires IsRun(states, actions) && j < k <= |actions| && AskedBy(actions, id, f, j)
    ensures f in states[k].callers
    ensures states[k].callers[f] ==
      if GaveUp(actions, f, j, k) then Raised else if Wrote(actions, f, j, k) then Waiting else Writing
    decreases k
  {
    hide Step, Enabled, Initial, HasProcess;
    if k == j + 1 {
      RunningIff(states, actions, j);
      Asked(states[j], f, id);
    } else {
      CallerIs(states, actions, id, f, j, k - 1);
      StepCaller(states[k - 1], actions[k - 1], f);
      WriteOnce(states[k - 1], f);
    }
  }

  lemma Asked(t: Transport, f: FutureId, id: Id)
    requires t.proc && Enabled(t, Request(f, Some(id)))
    ensures var r := Step(t, Request(f, Some(id)));
      f in r.callers && r.callers[f].Writing? && f in r.futures && r.futures[f].Open? && f in r.ids && r.ids[f] == id
  {
  }

  lemma WriteOnce(t: Transport, f: FutureId)
    ensures Enabled(t, Write(f, true)) ==> t.callers[f].Writing?
  {
  }

  /** What a step settles the future with, if it is still open then. */
  ghost function Verdict(actions: seq<Action>, id: Id, f: FutureId, j: nat, i: nat): (v: Option<Future>)
    requires i < |actions|
    ensures v.Some? ==> !v.value.Open?
  {
    if RepliesTo(actions[i], id) then Some(Answered(id))
    else if Flushes(actions[i]) then Some(Nothing)
    else if actions[i] == CancelCaller(f) && Wrote(actions, f, j, i) then Some(Cancelled)
    else None
  }

  lemma StepFate(t: Transport, a: Action, id: Id, f: FutureId)
    requires Enabled(t, a) && Matched(t) && Reachable(t) && IsOpen(t, f) && f in t.ids && t.ids[f] == id && f in t.callers
    ensures f in Step(t, a).futures
    ensures Step(t, a).futures[f] ==
      if RepliesTo(a, id) then Answered(id) else if Flushes(a) then Nothing
      else if a == CancelCaller(f) && t.callers[f].Waiting? then Cancelled else Open
  {
    if Flushes(a) {
      assert t.pending[id] in t.pending.Values;
      FlushStep(t, a);
      hide Step;
    } else if Replies(a) {
      ReplyStep(t, a);
      hide Step;
    } else if Idle(a) {
      hide Step;
      IdleKeeps(t, a);
    }
  }

  lemma StepIds(t: Transport, a: Action, f: FutureId)
    requires Enabled(t, a) && f in t.ids
    ensures f in Step(t, a).ids && Step(t, a).ids[f] == t.ids[f]
  {
    if Flushes(a) {
      FlushStep(t, a);
      hide Step;
    } else if Replies(a) {
      ReplyStep(t, a);
      hide Step;
    } else if Idle(a) {
      hide Step;
      IdleKeeps(t, a);
    }
  }

  /** In a state after step `j`, before which `f` was registered under `id`. */
  lemma {:induction false} IdStays(states: seq<Transport>, actions: seq<Action>, id: Id, f: FutureId, j: nat, k: nat)
    requires IsRun(states, actions) && j < k <= |actions| && AskedBy(actions, id, f, j)
    ensures f in states[k].ids && states[k].ids[f] == id && f in states[k].futures
    ensures k == j + 1 ==> states[k].futures[f].Open?
    decreases k
  {
    hide Step, Enabled, Initial, HasProcess;
    if k == j + 1 {
      RunningIff(states, actions, j);
      Asked(states[j], f, id);
    } else {
      IdStays(states, actions, id, f, j, k - 1);
      StepIds(states[k - 1], actions[k - 1], f);
      StepSettles(states[k - 1], actions[k - 1], f);
    }
  }

  /**
   What has become of a request, as long as none uses an id that still waits: its future is open
   if and only if nothing has settled it, and else it holds what the first step gave that did:
   the reply to its id, None at the end of the output or at the flush of a stop, or the
   cancellation of its caller once it waits.
   */
  lemma {:induction false} FutureIs(states: seq<Transport>, actions: seq<Action>, id: Id, f: FutureId, j: nat, k: nat)
    requires IsRun(states, actions) && j < k <= |actions| && AskedBy(actions, id, f, j)
    requires forall i | 0 <= i < k :: Distinct(states[i], actions[i])
    ensures f in states[k].futures
    ensures states[k].futures[f].Open? <==> forall i | j < i < k :: Verdict(actions, id, f, j, i).None?
    ensures forall i | j < i < k && Verdict(actions, id, f, j, i).Some? && (forall x | j < x < i :: Verdict(actions, id, f, j, x).None?) ::
      states[k].futures[f] == Verdict(actions, id, f, j, i).value
    decreases k
  {
    hide Step, Enabled, Initial, Distinct, AskedBy, Verdict;
    IdStays(states, actions, id, f, j, k);
    if k > j + 1 {
      FutureIs(states, actions, id, f, j, k - 1);
      if states[k - 1].futures[f].Open? {
        OpenNext(states, actions, id, f, j, k - 1);
      } else {
        StepSettles(states[k - 1], actions[k - 1], f);
      }
    }
  }

  lemma OpenNext(states: seq<Transport>, actions: seq<Action>, id: Id, f: FutureId, j: nat, i: nat)
    requires IsRun(states, actions) && j < i < |actions| && AskedBy(actions, id, f, j)
    requires forall x | 0 <= x < i :: Distinct(states[x], actions[x])
    requires IsOpen(states[i], f)
    ensures f in states[i + 1].futures
    ensures var v := Verdict(actions, id, f, j, i); states[i + 1].futures[f] == if v.Some? then v.value else Open
  {
    hide Step, Initial, Distinct, AskedBy, Reachable, Matched, RepliesTo, Flushes, Wrote, GaveUp;
    RunReachable(states, actions, i);
    RunMatched(states, actions, i);
    IdStays(states, actions, id, f, j, i);
    CallerIs(states, actions, id, f, j, i);
    StepFate(states[i], actions[i], id, f);
    assert Enabled(states[i], actions[i]) && states[i + 1] == Step(states[i], actions[i]);
  }

  // ---- Starting and stopping ----

  /** A reader that the transport refers to and that has not ended. */
  predicate HasReader(t: Transport) {
    t.reader.Some? && t.reader.value in t.readers && !t.readers[t.reader.value].Crashed?
  }

  /**
   A stop raises at once if its reader has ended by an exception, or if there is none and the
   stderr reader has; else it has cancelled the reader, and goes on to wait for that, or, if
   there is none, for the stderr reader.
   */
  lemma StopBeginsIff(t: Transport)
    requires Enabled(t, StopBegins)
    ensures var r := Step(t, StopBegins);
      && (r.stopping.NotStopping? <==> ReaderCrashed(t) || (!HasReader(t) && t.stderr.Broken?))
      && (r.stopping.JoiningReader? <==> HasReader(t))
      && (HasReader(t) ==> r.readers == t.readers - {t.reader.value})
      && (!HasReader(t) ==> r.readers == t.readers)
      && !r.running && r.pending == t.pending && r.futures == t.futures
  {
    hide JoinStderr;
    BeginKeeps(t);
    JoinMeans(t.(running := false));
    BeginFlags(t);
  }

  lemma JoinMeans(t: Transport)
    ensures var r := JoinStderr(t);
      && r.readers == t.readers && r.reader == None && r.pending == t.pending && r.futures == t.futures
      && r.stopping == (if t.stderr.Broken? then NotStopping else JoiningStderr)
      && r.proc == t.proc && r.running == t.running && (!t.stderr.Broken? ==> r.stderr.Absent?)
  {
    if t.stderr.Broken? {
      assert JoinStderr(t) == t.(reader := None, stopping := NotStopping);
    } else {
      assert JoinStderr(t) == t.(reader := None, stderr := Absent, stopping := JoiningStderr);
    }
  }

  /** A stop right after a start that worked gets to its end, whatever was left from before: nothing waits, and nothing runs. */
  lemma StopsAfterStart(t: Transport, task: TaskId)
    requires Enabled(t, Start(true, task)) && t.stopping.NotStopping?
    ensures var t1 := Step(t, Start(true, task));
      && t1.running && t1.proc && Enabled(t1, ReadLine(task, Eof)) && Enabled(t1, StopBegins)
      && var t2 := Step(t1, StopBegins);
      Enabled(t2, ReaderJoined)
      && var t3 := Step(t2, ReaderJoined);
      Enabled(t3, StopFlushes)
      && var t4 := Step(t3, StopFlushes);
      && t4.pending == map[] && Enabled(t4, StopEnds)
      && var t5 := Step(t4, StopEnds);
      !t5.running && !t5.proc && t5.reader == None && t5.stderr.Absent? && t5.stopping.NotStopping?
        && t5.pending == map[] && t5.readers == t.readers - {task}
  {
    hide Flush, BeginStop, JoinStderr;
    var t1 := Step(t, Start(true, task));
    var t2 := Step(t1, StopBegins);
    assert Step(t1, StopBegins) == BeginStop(t1);
    BeginReads(t1, task);
    JoinMeans(t2);
    var t4 := Step(Step(t2, ReaderJoined), StopFlushes);
    FlushFields(Step(t2, ReaderJoined));
    assert t4.pending == map[] by { FlushEmpties(Step(t2, ReaderJoined)); }
    assert t1.readers - {task} == t.readers - {task};
  }

  lemma FlushEmpties(t: Transport)
    ensures Flush(t).pending == map[]
  {
  }

  lemma BeginReads(t: Transport, task: TaskId)
    requires t.reader == Some(task) && task in t.readers && t.readers[task].Reading? && t.stderr.Alive?
    ensures var r := BeginStop(t);
      r == t.(running := false, readers := t.readers - {task}, stopping := JoiningReader)
  {
    hide JoinStderr;
  }

  /**
   A start that slips in before a stop's flush is lost: the stop forgets the new process with the
   old one, and the new reader ends at its next line, although the transport counts as running.
   */
  lemma StartLostInStop(t: Transport, task: TaskId)
    requires t.stopping.JoiningStderr? && Enabled(t, Start(true, task))
    ensures var t1 := Step(t, Start(true, task));
      Enabled(t1, StopFlushes)
      && var t2 := Step(t1, StopFlushes);
      Enabled(t2, StopEnds)
      && var t3 := Step(t2, StopEnds);
      t3.running && !t3.proc && t3.stderr.Absent? && t3.reader == Some(task) && Enabled(t3, ReadLine(task, Invalid))
        && task !in Step(t3, ReadLine(task, Invalid)).readers
  {
    hide Flush;
    FlushFields(Step(t, Start(true, task)));
  }

  /** A spawn that fails leaves everything as it was, but that the reader that asked for it is gone. */
  lemma FailedSpawns(t: Transport, task: TaskId, next: TaskId)
    ensures Enabled(t, Start(false, task)) ==> Step(t, Start(false, task)) == t
    ensures Enabled(t, Respawn(task, false, next)) ==>
      Step(t, Respawn(task, false, next)) == t.(readers := t.readers - {task}) && task in t.readers
  {
  }
}
