/**
 Matching replies to requests over a child process: src/mcpxy_proxy/proxy/stdio.py. Every
 step is the part of a coroutine between two awaits. A message is modelled by its id.
 */
module StdioTransports {
  import opened Prelude

  type Id = string
  type FutureId = nat
  type TaskId = nat

  /** A future: open, resolved with a reply or with None, or cancelled with its caller. */
  datatype Future = Open | Answered(id: Id) | Nothing | Cancelled

  /** The caller of a request: writing it, waiting for its future, or gone by an exception. */
  datatype Caller = Writing | Waiting | Raised

  /** A reader task: at its `readline`, waiting to restart the process, or ended by an exception. */
  datatype Reader = Reading | Restarting | Crashed

  datatype Stderr = Absent | Alive | Broken

  /** `stop` waits for its reader, for the stderr reader, or, after its flush, for the process. */
  datatype Stopping = NotStopping | JoiningReader | JoiningStderr | Closing

  /**
   `readers` holds the reader tasks that have not simply returned, `reader` is the one the
   transport refers to. `callers` and `ids` tell of each future who registered it.
   */
  datatype Transport = Transport(
    proc: bool, running: bool, readers: map<TaskId, Reader>, reader: Option<TaskId>, stderr: Stderr, stopping: Stopping,
    pending: map<Id, FutureId>, futures: map<FutureId, Future>, callers: map<FutureId, Caller>, ids: map<FutureId, Id>)

  /** What `readline` gives: `Strange` is JSON without a usable id, or a line over the stream's limit. */
  datatype Line = Eof | Invalid | Strange | Message(id: Option<Id>)

  predicate IsOpen(t: Transport, f: FutureId) {
    f in t.futures && t.futures[f].Open?
  }

  function Settle(t: Transport, f: FutureId, v: Future): (r: map<FutureId, Future>) {
    if IsOpen(t, f) then t.futures[f := v] else t.futures
  }

  /** `request`, up to its write. Without a process or an id there is no future. */
  function Register(t: Transport, f: FutureId, id: Option<Id>): (r: Transport) {
    if !t.proc || id.None? then t
    else t.(pending := t.pending[id.value := f], futures := t.futures[f := Open],
            callers := t.callers[f := Writing], ids := t.ids[f := id.value])
  }

  /** The caller is cancelled; its future with it, if it waits for that already. */
  function CancelCall(t: Transport, f: FutureId): (r: Transport)
    requires f in t.callers
  {
    t.(callers := t.callers[f := Raised], futures := if t.callers[f].Waiting? then Settle(t, f, Cancelled) else t.futures)
  }

  function Resolve(t: Transport, id: Id): (r: Transport) {
    if id in t.pending then t.(pending := t.pending - {id}, futures := Settle(t, t.pending[id], Answered(id))) else t
  }

  function Flush(t: Transport): (r: Transport) {
    t.(pending := map[], futures := map f | f in t.futures :: if t.futures[f].Open? && f in t.pending.Values then Nothing else t.futures[f])
  }

  function Without(t: Transport, task: TaskId): (r: Transport) {
    t.(readers := t.readers - {task})
  }

  /** The test at the head of the reader's loop. */
  function Loop(t: Transport, task: TaskId): (r: Transport) {
    if t.running && t.proc then t else Without(t, task)
  }

  function Read(t: Transport, task: TaskId, line: Line): (r: Transport) {
    match line
    case Eof => if t.running then Flush(t).(readers := t.readers[task := Restarting]) else Without(Flush(t), task)
    case Invalid => Loop(t, task)
    case Strange => t.(readers := t.readers[task := Crashed])
    case Message(None) => Loop(t, task)
    case Message(Some(id)) => Loop(Resolve(t, id), task)
  }

  /** A new process with two new tasks; tasks that were referred to before live on. */
  function Spawn(t: Transport, task: TaskId): (r: Transport) {
    t.(proc := true, readers := t.readers[task := Reading], reader := Some(task), stderr := Alive)
  }

  /** The reader that the transport refers to has ended by an exception. */
  predicate ReaderCrashed(t: Transport) {
    t.reader.Some? && t.reader.value in t.readers && t.readers[t.reader.value].Crashed?
  }

  /** The reader is joined; awaiting a stderr reader that ended by an exception raises that again. */
  function JoinStderr(t: Transport): (r: Transport) {
    if t.stderr.Broken? then t.(reader := None, stopping := NotStopping)
    else t.(reader := None, stderr := Absent, stopping := JoiningStderr)
  }

  /** `stop`, up to its first await that suspends; awaiting a reader that ended by an exception raises that again. */
  function BeginStop(t: Transport): (r: Transport) {
    var t1 := t.(running := false);
    if ReaderCrashed(t) then t1
    else if t.reader.Some? && t.reader.value in t.readers then Without(t1, t.reader.value).(stopping := JoiningReader)
    else JoinStderr(t1)
  }

  datatype Action =
    | Start(ok: bool, task: TaskId)
    | Request(future: FutureId, id: Option<Id>)
    | Write(future: FutureId, ok: bool)
    | CancelCaller(future: FutureId)
    | ReadLine(task: TaskId, line: Line)
    | Respawn(task: TaskId, ok: bool, next: TaskId)
    | StderrCrash
    | StopBegins
    | ReaderJoined
    | StopFlushes
    | StopEnds

  predicate Unused(t: Transport, task: TaskId) {
    task !in t.readers && t.reader != Some(task)
  }

  /** A start is not guarded; only one stop runs at a time. */
  predicate Enabled(t: Transport, a: Action) {
    match a
    case Start(_, task) => Unused(t, task)
    case Request(f, _) => f !in t.futures && f !in t.callers && f !in t.ids
    case Write(f, ok) => f in t.callers && t.callers[f].Writing? && (ok ==> t.proc)
    case CancelCaller(f) => f in t.callers && (t.callers[f].Writing? || (t.callers[f].Waiting? && IsOpen(t, f)))
    case ReadLine(task, _) => task in t.readers && t.readers[task].Reading?
    case Respawn(task, _, next) => task in t.readers && t.readers[task].Restarting? && Unused(t, next)
    case StderrCrash => t.stderr.Alive?
    case StopBegins => t.stopping.NotStopping?
    case ReaderJoined => t.stopping.JoiningReader?
    case StopFlushes => t.stopping.JoiningStderr?
    case StopEnds => t.stopping.Closing?
  }

  function Step(t: Transport, a: Action): (r: Transport)
    requires Enabled(t, a)
  {
    match a
    case Start(ok, task) => if ok then Spawn(t, task).(running := true) else t
    case Request(f, id) => Register(t, f, id)
    case Write(f, ok) => t.(callers := t.callers[f := if ok then Waiting else Raised])
    case CancelCaller(f) => CancelCall(t, f)
    case ReadLine(task, line) => Read(t, task, line)
    case Respawn(task, ok, next) => if ok then Spawn(Without(t, task), next) else Without(t, task)
    case StderrCrash => t.(stderr := Broken)
    case StopBegins => BeginStop(t)
    case ReaderJoined => JoinStderr(t)
    case StopFlushes => Flush(t).(stderr := Absent, stopping := Closing)
    case StopEnds => t.(proc := false, stopping := NotStopping)
  }

  class StdioUpstreamTransport {
    var proc: bool
    var running: bool
    var readers: map<TaskId, Reader>
    var reader: Option<TaskId>
    var stderr: Stderr
    var stopping: Stopping
    var pending: map<Id, FutureId>
    var futures: map<FutureId, Future>
    var callers: map<FutureId, Caller>
    ghost var ids: map<FutureId, Id>

    ghost function State(): Transport
      reads this
    {
      Transport(proc, running, readers, reader, stderr, stopping, pending, futures, callers, ids)
    }

    constructor ()
      ensures State() == Initial()
    {
      proc, running, readers, reader, stderr, stopping := false, false, map[], None, Absent, NotStopping;
      pending, futures, callers, ids := map[], map[], map[], map[];
    }

    method SpawnProcess(task: TaskId)
      modifies this`proc, this`readers, this`reader, this`stderr
      ensures State() == Spawn(old(State()), task)
    {
      proc := true;
      readers := readers[task := Reading];
      reader := Some(task);
      stderr := Alive;
    }

    /** `ok` is whether the process could be spawned. */
    method StartTransport(ok: bool, task: TaskId)
      requires Enabled(State(), Start(ok, task))
      modifies this
      ensures State() == Step(old(State()), Start(ok, task))
    {
      if !ok {
        return;
      }
      SpawnProcess(task);
      running := true;
    }

    /** `_maybe_restart`, after its delay; a spawn that fails is only logged. */
    method RestartProcess(task: TaskId, ok: bool, next: TaskId)
      requires Enabled(State(), Respawn(task, ok, next))
      modifies this
      ensures State() == Step(old(State()), Respawn(task, ok, next))
    {
      readers := readers - {task};
      if ok {
        SpawnProcess(next);
      }
    }

    method SendRequest(f: FutureId, id: Option<Id>)
      requires Enabled(State(), Request(f, id))
      modifies this
      ensures State() == Step(old(State()), Request(f, id))
    {
      if !proc {
        return;
      }
      if id.None? {
        return;
      }
      futures := futures[f := Open];
      pending := pending[id.value := f];
      callers := callers[f := Writing];
      ids := ids[f := id.value];
    }

    /** In the arbitrary order of the pending map. */
    method FlushPending()
      modifies this`pending, this`futures
      ensures State() == Flush(old(State()))
    {
      var todo := pending.Keys;
      ghost var before := futures;
      ghost var waiting := pending;
      AllDone(waiting);
      hide DoneValues;
      while todo != {}
        invariant todo <= waiting.Keys
        invariant futures.Keys == before.Keys
        invariant forall f | f in before ::
          futures[f] == (if before[f].Open? && f in DoneValues(waiting, todo) then Nothing else before[f])
        modifies this`futures
        decreases |todo|
      {
        var id :| id in todo;
        var f := pending[id];
        DoneMore(waiting, todo, id);
        if f in futures && futures[f].Open? {
          futures := futures[f := Nothing];
        }
        todo := todo - {id};
      }
      pending := map[];
    }

    method ReadOne(task: TaskId, line: Line)
      requires Enabled(State(), ReadLine(task, line))
      modifies this
      ensures State() == Step(old(State()), ReadLine(task, line))
    {
      match line {
        case Eof =>
          FlushPending();
          if running {
            readers := readers[task := Restarting];
          } else {
            readers := readers - {task};
          }
          return;
        case Strange =>
          readers := readers[task := Crashed];
          return;
        case Invalid =>
        case Message(id) =>
          if id.Some? && id.value in pending {
            var f := pending[id.value];
            pending := pending - {id.value};
            if f in futures && futures[f].Open? {
              futures := futures[f := Answered(id.value)];
            }
          }
      }
      if !running || !proc {
        readers := readers - {task};
      }
    }

    /** `stop`, up to its first await that suspends or the exception that keeps it from its flush. */
    method StopTasks() returns (raised: bool)
      requires stopping.NotStopping?
      modifies this
      ensures State() == Step(old(State()), StopBegins)
      ensures raised == stopping.NotStopping?
    {
      running := false;
      if reader.Some? && reader.value in readers {
        if readers[reader.value].Crashed? {
          return true;
        }
        readers := readers - {reader.value};
        stopping := JoiningReader;
        return false;
      }
      raised := StopStderr();
    }

    method StopStderr() returns (raised: bool)
      modifies this`reader, this`stderr, this`stopping
      ensures State() == JoinStderr(old(State())) && raised == stopping.NotStopping?
    {
      reader := None;
      if stderr.Broken? {
        stopping := NotStopping;
        return true;
      }
      stderr := Absent;
      stopping := JoiningStderr;
      return false;
    }

    method StopFlush()
      requires stopping.JoiningStderr?
      modifies this
      ensures State() == Step(old(State()), StopFlushes)
    {
      stderr := Absent;
      FlushPending();
      stopping := Closing;
    }
  }

  ghost function DoneValues(waiting: map<Id, FutureId>, todo: set<Id>): (done: set<FutureId>) {
    set id | id in waiting && id !in todo :: waiting[id]
  }

  lemma DoneMore(waiting: map<Id, FutureId>, todo: set<Id>, id: Id)
    requires id in todo && id in waiting
    ensures DoneValues(waiting, todo - {id}) == DoneValues(waiting, todo) + {waiting[id]}
  {
    assert id !in todo - {id};
    forall x | x in waiting && x !in todo ensures waiting[x] in DoneValues(waiting, todo - {id}) {
      assert x !in todo - {id};
    }
  }

  lemma AllDone(waiting: map<Id, FutureId>)
    ensures DoneValues(waiting, {}) == waiting.Values
    ensures DoneValues(waiting, waiting.Keys) == {}
  {
  }

  // ---- Every run ----

  function Initial(): (t: Transport) {
    Transport(false, false, map[], None, Absent, NotStopping, map[], map[], map[], map[])
  }

  ghost predicate IsRun(states: seq<Transport>, actions: seq<Action>) {
    && |states| == |actions| + 1 && states[0] == Initial()
    && forall k | 0 <= k < |actions| :: Enabled(states[k], actions[k]) && states[k + 1] == Step(states[k], actions[k])
  }

  /** Pending entries and replies carry the id their future was registered under. */
  ghost predicate Matched(t: Transport) {
    && t.futures.Keys == t.ids.Keys == t.callers.Keys
    && (forall id | id in t.pending :: t.pending[id] in t.ids && t.ids[t.pending[id]] == id)
    && (forall f | f in t.futures && t.futures[f].Answered? :: t.futures[f].id == t.ids[f])
  }

  /** Every open future is in the map under its own id. */
  ghost predicate Reachable(t: Transport) {
    forall f | f in t.futures && t.futures[f].Open? :: f in t.ids && t.ids[f] in t.pending && t.pending[t.ids[f]] == f
  }

  predicate Registers(t: Transport, a: Action) {
    a.Request? && t.proc && a.id.Some?
  }

  /** The request does not use an id that is still waiting. */
  predicate Distinct(t: Transport, a: Action) {
    Registers(t, a) ==> a.id.value !in t.pending
  }

  lemma FlushKeeps(t: Transport)
    requires Matched(t)
    ensures Matched(Flush(t)) && Flush(t).pending == map[]
    ensures Reachable(t) ==> forall f | f in Flush(t).futures :: !Flush(t).futures[f].Open?
  {
    if Reachable(t) {
      forall f | f in t.futures && t.futures[f].Open? ensures f in t.pending.Values {
        assert t.pending[t.ids[f]] == f;
      }
    }
  }

  predicate Flushes(a: Action) {
    a.StopFlushes? || (a.ReadLine? && a.line.Eof?)
  }

  predicate Replies(a: Action) {
    a.ReadLine? && a.line.Message? && a.line.id.Some?
  }

  /** The map, the futures and their ids stay. */
  predicate Idle(a: Action) {
    !a.Request? && !a.CancelCaller? && !Flushes(a) && !Replies(a)
  }

  ghost predicate SameFutures(t: Transport, r: Transport) {
    r.pending == t.pending && r.futures == t.futures && r.ids == t.ids && r.callers.Keys == t.callers.Keys
  }

  lemma SpawnKeeps(t: Transport, task: TaskId)
    ensures SameFutures(t, Spawn(t, task))
  {
  }

  lemma SpawnIdle(t: Transport, a: Action)
    requires Enabled(t, a) && (a.Start? || a.Respawn?)
    ensures SameFutures(t, Step(t, a))
  {
    hide Spawn;
    if a.Start? { SpawnKeeps(t, a.task); } else { SpawnKeeps(Without(t, a.task), a.next); }
  }

  /** Stopping touches tasks and flags only. */
  ghost predicate SameWork(t: Transport, r: Transport) {
    && r.pending == t.pending && r.futures == t.futures && r.ids == t.ids && r.callers == t.callers && r.proc == t.proc
    && r.readers.Keys <= t.readers.Keys && forall task | task in r.readers :: r.readers[task] == t.readers[task]
  }

  lemma JoinKeeps(t: Transport)
    ensures SameWork(t, JoinStderr(t))
  {
    if t.stderr.Broken? {
      assert JoinStderr(t) == t.(reader := None, stopping := NotStopping);
    } else {
      assert JoinStderr(t) == t.(reader := None, stderr := Absent, stopping := JoiningStderr);
    }
  }

  /** The flags that a stop sets do not matter. */
  lemma SameWorkBut(t: Transport, t1: Transport, r: Transport)
    requires t1 == t.(running := t1.running)
    ensures SameWork(t, t1) && (SameWork(t1, r) <==> SameWork(t, r))
  {
  }

  lemma WithoutKeeps(t: Transport, task: TaskId)
    ensures SameWork(t, Without(t.(running := false), task).(stopping := JoiningReader))
  {
  }

  lemma BeginKeeps(t: Transport)
    ensures SameWork(t, BeginStop(t))
  {
    hide JoinStderr, ReaderCrashed, SameWork;
    var t1 := t.(running := false);
    JoinKeeps(t1);
    SameWorkBut(t, t1, JoinStderr(t1));
    if t.reader.Some? { WithoutKeeps(t, t.reader.value); }
  }

  lemma StopIdle(t: Transport, a: Action)
    requires Enabled(t, a) && (a.StopBegins? || a.ReaderJoined?)
    ensures SameWork(t, Step(t, a))
  {
    hide JoinStderr, BeginStop, SameWork;
    JoinKeeps(t);
    BeginKeeps(t);
  }

  lemma LoopKeeps(t: Transport, task: TaskId)
    ensures SameWork(t, Loop(t, task))
  {
  }

  lemma ReadIdle(t: Transport, a: Action)
    requires Enabled(t, a) && a.ReadLine? && Idle(a)
    ensures SameFutures(t, Step(t, a))
  {
    hide Loop;
    LoopKeeps(t, a.task);
  }

  lemma IdleKeeps(t: Transport, a: Action)
    requires Enabled(t, a) && Idle(a)
    ensures SameFutures(t, Step(t, a))
  {
    if a.Start? || a.Respawn? { hide Step; SpawnIdle(t, a); }
    else if a.StopBegins? || a.ReaderJoined? { hide Step; StopIdle(t, a); }
    else if a.ReadLine? { hide Step; ReadIdle(t, a); }
  }

  lemma FlushStep(t: Transport, a: Action)
    requires Enabled(t, a) && Flushes(a)
    ensures SameFutures(Flush(t), Step(t, a))
  {
    hide Flush;
    if a.StopFlushes? {
      FlushFields(t);
    } else {
      FlushFields(t);
    }
  }

  lemma FlushFields(t: Transport)
    ensures Flush(t) == t.(pending := Flush(t).pending, futures := Flush(t).futures)
  {
  }

  lemma ReplyStep(t: Transport, a: Action)
    requires Enabled(t, a) && Replies(a)
    ensures SameFutures(Resolve(t, a.line.id.value), Step(t, a))
  {
    hide Resolve, Loop;
    LoopKeeps(Resolve(t, a.line.id.value), a.task);
    ResolveCallers(t, a.line.id.value);
  }

  lemma ResolveCallers(t: Transport, id: Id)
    ensures Resolve(t, id).callers == t.callers
  {
  }

  lemma ResolveKeeps(t: Transport, id: Id)
    requires Matched(t)
    ensures Matched(Resolve(t, id)) && (Reachable(t) ==> Reachable(Resolve(t, id)))
  {
  }

  lemma CancelKeeps(t: Transport, f: FutureId)
    requires Matched(t) && f in t.callers
    ensures Matched(CancelCall(t, f)) && (Reachable(t) ==> Reachable(CancelCall(t, f)))
  {
  }

  lemma RegisterKeeps(t: Transport, f: FutureId, id: Option<Id>)
    requires Matched(t) && Enabled(t, Request(f, id))
    ensures Matched(Register(t, f, id))
    ensures Reachable(t) ==> (Reachable(Register(t, f, id)) <==>
      Distinct(t, Request(f, id)) || !IsOpen(t, t.pending[id.value]))
  {
    if !Distinct(t, Request(f, id)) {
      var older := t.pending[id.value];
      assert Register(t, f, id).ids[older] == id.value;
    }
  }

  lemma SameKeeps(t: Transport, r: Transport)
    requires SameFutures(t, r)
    ensures Matched(t) <==> Matched(r)
    ensures Reachable(t) <==> Reachable(r)
  {
  }

  lemma StepMatched(t: Transport, a: Action)
    requires Matched(t) && Enabled(t, a)
    ensures Matched(Step(t, a))
  {
    hide Matched, Reachable, SameFutures, Register, CancelCall, Resolve, Flush, Read;
    if a.Request? {
      RegisterKeeps(t, a.future, a.id);
    } else if a.CancelCaller? {
      CancelKeeps(t, a.future);
    } else if Flushes(a) {
      FlushKeeps(t);
      FlushStep(t, a);
      SameKeeps(Flush(t), Step(t, a));
    } else if Replies(a) {
      ResolveKeeps(t, a.line.id.value);
      ReplyStep(t, a);
      SameKeeps(Resolve(t, a.line.id.value), Step(t, a));
    } else {
      IdleKeeps(t, a);
      SameKeeps(t, Step(t, a));
    }
  }

  /** A new request with an id that still waits is exactly what makes an open future unreachable. */
  lemma StepReachableIff(t: Transport, a: Action)
    requires Matched(t) && Reachable(t) && Enabled(t, a)
    ensures Reachable(Step(t, a)) <==> Distinct(t, a) || !IsOpen(t, t.pending[a.id.value])
  {
    hide Matched, Reachable, SameFutures, Register, CancelCall, Resolve, Flush, Read, IsOpen;
    if a.Request? {
      RegisterKeeps(t, a.future, a.id);
    } else if a.CancelCaller? {
      CancelKeeps(t, a.future);
    } else if Flushes(a) {
      FlushKeeps(t);
      NoneOpenReachable(Flush(t));
      FlushStep(t, a);
      SameKeeps(Flush(t), Step(t, a));
    } else if Replies(a) {
      ResolveKeeps(t, a.line.id.value);
      ReplyStep(t, a);
      SameKeeps(Resolve(t, a.line.id.value), Step(t, a));
    } else {
      IdleKeeps(t, a);
      SameKeeps(t, Step(t, a));
    }
  }

  lemma NoneOpenReachable(t: Transport)
    requires forall f | f in t.futures :: !t.futures[f].Open?
    ensures Reachable(t)
  {
  }

  /** A future is resolved at most once. */
  lemma StepSettles(t: Transport, a: Action, f: FutureId)
    requires Enabled(t, a) && f in t.futures
    ensures f in Step(t, a).futures
    ensures !t.futures[f].Open? ==> Step(t, a).futures[f] == t.futures[f]
  {
    if Flushes(a) {
      hide Step;
      FlushStep(t, a);
    } else if Replies(a) {
      hide Step;
      ReplyStep(t, a);
    } else if Idle(a) {
      hide Step;
      IdleKeeps(t, a);
    }
  }

  lemma InitialHolds()
    ensures Matched(Initial()) && Reachable(Initial())
  {
  }

  lemma {:induction false} RunMatched(states: seq<Transport>, actions: seq<Action>, k: nat)
    requires IsRun(states, actions) && k <= |actions|
    ensures Matched(states[k])
  {
    hide Matched, Step, Enabled, Initial;
    if k == 0 {
      InitialHolds();
    } else {
      RunMatched(states, actions, k - 1);
      StepMatched(states[k - 1], actions[k - 1]);
    }
  }

  /** As long as no request uses an id that still waits, every open future is in the map under its id. */
  lemma {:induction false} RunReachable(states: seq<Transport>, actions: seq<Action>, k: nat)
    requires IsRun(states, actions) && k <= |actions|
    requires forall j | 0 <= j < k :: Distinct(states[j], actions[j])
    ensures Reachable(states[k])
  {
    hide Matched, Reachable, Step, Enabled, Distinct, Initial;
    if k == 0 {
      InitialHolds();
    } else {
      RunReachable(states, actions, k - 1);
      RunMatched(states, actions, k - 1);
      StepReachableIff(states[k - 1], actions[k - 1]);
    }
  }

  lemma {:induction false} ResolvedOnce(states: seq<Transport>, actions: seq<Action>, f: FutureId, j: nat, k: nat)
    requires IsRun(states, actions) && j <= k <= |actions| && f in states[j].futures
    ensures f in states[k].futures
    ensures !states[j].futures[f].Open? ==> states[k].futures[f] == states[j].futures[f]
    decreases k - j
  {
    hide Step, Enabled, Initial;
    if j < k {
      ResolvedOnce(states, actions, f, j, k - 1);
      StepSettles(states[k - 1], actions[k - 1], f);
    }
  }

  /**
   In any interleaving with distinct live ids: every future is open, and then in the map under
   its own id, or settled, and then for good; a reply goes to the id it answers; and the end
   of the output, like the flush of `stop`, leaves the map empty and no future open.
   */
  lemma RepliesCorrelate(states: seq<Transport>, actions: seq<Action>, k: nat, f: FutureId)
    requires IsRun(states, actions) && k < |actions|
    requires forall j | 0 <= j <= k :: Distinct(states[j], actions[j])
    requires f in states[k + 1].futures
    ensures var t := states[k + 1];
      && f in t.ids
      && (t.futures[f].Open? ==> t.ids[f] in t.pending && t.pending[t.ids[f]] == f)
      && (t.futures[f].Answered? ==> t.futures[f].id == t.ids[f])
      && (Flushes(actions[k]) ==> t.pending == map[] && !t.futures[f].Open?)
  {
    hide Flush, Step, Enabled, Initial, Distinct;
    RunMatched(states, actions, k);
    RunMatched(states, actions, k + 1);
    RunReachable(states, actions, k);
    RunReachable(states, actions, k + 1);
    if Flushes(actions[k]) {
      FlushKeeps(states[k]);
      FlushStep(states[k], actions[k]);
    }
  }
}
