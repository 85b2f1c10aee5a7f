/** Live transports and their hot reload: src/mcpxy_proxy/proxy/manager.py. */
module UpstreamManagers {
  import opened Prelude

  type Name = string

  /** One upstream's settings; `kind` names the transport plugin. */
  datatype Settings = Settings(kind: string, options: string)

  /** A call on a transport and whether it returned without raising. */
  datatype Call = Start(ok: bool) | Stop(ok: bool)

  /** A transport whose start and stop may raise, and then leave it running or not. */
  class Transport {
    const name: Name
    const settings: Settings
    var running: bool
    ghost var log: seq<Call>

    constructor (name: Name, settings: Settings)
      ensures this.name == name && this.settings == settings && !running && log == []
    {
      this.name, this.settings, running, log := name, settings, false, [];
    }

    method StartUp() returns (ok: bool)
      modifies this
      ensures log == old(log) + [Start(ok)] && (ok ==> running)
    {
      if * {
        running, ok := true, true;
      } else {
        running, ok := *, false;
      }
      log := log + [Start(ok)];
    }

    method ShutDown() returns (ok: bool)
      modifies this
      ensures log == old(log) + [Stop(ok)] && (ok ==> !running)
    {
      if * {
        running, ok := false, true;
      } else {
        running, ok := *, false;
      }
      log := log + [Stop(ok)];
    }
  }

  // ---- What a reload has to do ----

  function Added(current: map<Name, Settings>, next: map<Name, Settings>): set<Name> {
    next.Keys - current.Keys
  }

  function Removed(current: map<Name, Settings>, next: map<Name, Settings>): set<Name> {
    current.Keys - next.Keys
  }

  function Restarted(current: map<Name, Settings>, next: map<Name, Settings>): set<Name> {
    set n | n in next && n in current && current[n] != next[n]
  }

  function Kept(current: map<Name, Settings>, next: map<Name, Settings>): set<Name> {
    set n | n in next && n in current && current[n] == next[n]
  }

  /** The plan covers every name, once. */
  lemma PlanIsPartition(current: map<Name, Settings>, next: map<Name, Settings>)
    ensures Kept(current, next) + Restarted(current, next) + Added(current, next) == next.Keys
    ensures Kept(current, next) + Restarted(current, next) + Removed(current, next) == current.Keys
    ensures Kept(current, next) !! Restarted(current, next) !! Added(current, next) !! Removed(current, next)
  {
  }

  datatype Diff = Diff(added: set<Name>, removed: set<Name>, restarted: set<Name>)

  /** What made a reload raise. */
  datatype Failure = UnknownKind(name: Name) | StartFailed(name: Name) | StopFailed(name: Name)

  class UpstreamManager {
    const known: set<string>
    var configUpstreams: map<Name, Settings>
    var upstreams: map<Name, Transport>

    /** Live names are configured names, and no two share a transport. */
    ghost predicate Valid()
      reads this
    {
      && upstreams.Keys <= configUpstreams.Keys
      && forall a, b | a in upstreams && b in upstreams && a != b :: upstreams[a] != upstreams[b]
    }

    ghost predicate AllRunning()
      reads this, upstreams.Values
    {
      forall n | n in upstreams :: upstreams[n].running
    }

    /** Every configured upstream is live, with a transport made from its settings in force. */
    ghost predicate InSync()
      reads this
    {
      && upstreams.Keys == configUpstreams.Keys
      && forall n | n in upstreams :: upstreams[n].settings == configUpstreams[n]
    }

    /** The last call on a transport, if this reload made any, did not raise. */
    static twostate predicate Compensated(t: Transport)
      reads t
    {
      t.log == old(t.log) || (t.log != [] && t.log[|t.log| - 1].ok)
    }

    constructor (config: map<Name, Settings>, known: set<string>)
      ensures Valid() && configUpstreams == config && upstreams == map[] && this.known == known
    {
      configUpstreams, upstreams, this.known := config, map[], known;
    }

    /**
     Starts every configured upstream, or stops at the first whose kind is not registered or whose
     start raises; `broken` is the transport whose start raised.
     */
    method StartAll() returns (failure: Option<Failure>, ghost broken: Transport?)
      requires Valid() && upstreams == map[]
      modifies this
      ensures Valid() && configUpstreams == old(configUpstreams) && fresh(upstreams.Values)
      ensures AllNew(upstreams, configUpstreams)
      ensures failure.None? <==> upstreams.Keys == configUpstreams.Keys
      ensures failure.Some? ==> WhyNot(failure.value, configUpstreams.Keys - upstreams.Keys, configUpstreams, broken)
    {
      failure, broken := None, null;
      assert AllNew(upstreams, configUpstreams);
      hide AllNew, New, Made;
      var pending := configUpstreams.Keys;
      while pending != {}
        invariant Valid() && configUpstreams == old(configUpstreams)
        invariant forall n | n in upstreams :: fresh(upstreams[n])
        invariant pending <= configUpstreams.Keys && upstreams.Keys == configUpstreams.Keys - pending
        invariant AllNew(upstreams, configUpstreams) && failure.None?
        decreases |pending|
      {
        var name :| name in pending;
        var transport;
        transport, failure := StartOne(name, configUpstreams[name]);
        if failure.Some? {
          broken := transport;
          return;
        }
        pending := pending - {name};
        OneMore(upstreams, configUpstreams, name, transport);
        upstreams := upstreams[name := transport];
      }
    }

    /** A transport that was made and started. */
    static ghost predicate New(t: Transport)
      reads t
    {
      t.log == [Start(true)] && t.running
    }

    /** A new transport after compensation: stopped as well as it could be. */
    static ghost predicate GivenUp(t: Transport)
      reads t
    {
      || t.log == [Start(true), Stop(false)]
      || (t.log == [Start(true), Stop(true)] && !t.running)
    }

    static twostate predicate Untouched(t: Transport)
      reads t
    {
      t.log == old(t.log) && t.running == old(t.running)
    }

    static twostate predicate Stopped(t: Transport, ok: bool)
      reads t
    {
      t.log == old(t.log) + [Stop(ok)] && (ok ==> !t.running)
    }

    /** An old transport after compensation: stopped, which raised or not, and started again as well as it could be. */
    static twostate predicate StartedAgain(t: Transport, stopped: bool)
      reads t
    {
      || t.log == old(t.log) + [Stop(stopped), Start(false)]
      || (t.log == old(t.log) + [Stop(stopped), Start(true)] && t.running)
    }

    /** Transports of registered kinds, made under their names from their next settings. */
    ghost predicate Made(started: map<Name, Transport>, next: map<Name, Settings>) {
      forall n | n in started :: started[n].name == n && n in next && started[n].settings == next[n] && next[n].kind in known
    }

    /** The names in `todo`, each with a running transport made for its next settings. */
    ghost predicate AllNew(started: map<Name, Transport>, next: map<Name, Settings>)
      reads started.Values
    {
      && Made(started, next) && (forall n | n in started :: New(started[n]))
      && (forall a, b | a in started && b in started && a != b :: started[a] != started[b])
    }

    lemma OneMore(started: map<Name, Transport>, next: map<Name, Settings>, name: Name, t: Transport)
      requires AllNew(started, next) && name !in started && name in next && next[name].kind in known
      requires New(t) && t.name == name && t.settings == next[name] && forall n | n in started :: started[n] != t
      ensures AllNew(started[name := t], next)
    {
    }

    /**
     Why bringing up one of `coming` raised: its kind is not registered, or it is registered and
     the start of the transport made for it raised.
     */
    ghost predicate WhyNot(failure: Failure, coming: set<Name>, next: map<Name, Settings>, broken: Transport?)
      reads broken
    {
      && !failure.StopFailed? && failure.name in coming && failure.name in next
      && (failure.UnknownKind? <==> next[failure.name].kind !in known)
      && (failure.UnknownKind? <==> broken == null)
      && (broken != null ==>
            broken.name == failure.name && broken.settings == next[failure.name] && broken.log == [Start(false)])
    }

    /** Makes one transport and starts it; `transport` is what it made, even if its start raised. */
    method StartOne(name: Name, settings: Settings)
      returns (transport: Transport?, failure: Option<Failure>)
      ensures transport == null <==> settings.kind !in known
      ensures transport != null ==> fresh(transport) && transport.name == name && transport.settings == settings
      ensures failure.None? ==> transport != null && New(transport)
      ensures failure.Some? ==> failure.value == if transport == null then UnknownKind(name) else StartFailed(name)
      ensures failure.Some? && transport != null ==> transport.log == [Start(false)]
    {
      transport, failure := null, None;
      if settings.kind !in known {
        failure := Some(UnknownKind(name));
        return;
      }
      transport := new Transport(name, settings);
      var ok := transport.StartUp();
      if !ok {
        failure := Some(StartFailed(name));
      }
    }

    /**
     Starts the new and replaced transports before it touches an old one. `broken` is the
     transport whose own start raised, if that is what made it give up.
     */
    method StartNew(next: map<Name, Settings>, todo: set<Name>)
      returns (started: map<Name, Transport>, failure: Option<Failure>, ghost broken: Transport?)
      requires todo <= next.Keys
      ensures AllNew(started, next) && started.Keys <= todo && forall n | n in started :: fresh(started[n])
      ensures failure.None? ==> started.Keys == todo && broken == null
      ensures failure.Some? ==> WhyNot(failure.value, todo - started.Keys, next, broken)
      ensures broken != null ==> failure.Some? && fresh(broken) && forall n | n in started :: started[n] != broken
    {
      started, failure, broken := map[], None, null;
      assert AllNew(started, next);
      hide AllNew, New, Made;
      var pending := todo;
      while pending != {}
        invariant pending <= todo && started.Keys == todo - pending
        invariant AllNew(started, next) && forall n | n in started :: fresh(started[n])
        invariant failure.None?
        decreases |pending|
      {
        var name :| name in pending;
        var transport;
        transport, failure := StartOne(name, next[name]);
        if failure.Some? {
          broken := transport;
          return;
        }
        pending := pending - {name};
        OneMore(started, next, name, transport);
        started := started[name := transport];
      }
    }

    /** Stops the removed and replaced transports that are live; `stopped` includes the one that raised. */
    method StopOld(todo: set<Name>) returns (stopped: map<Name, Transport>, failure: Option<Failure>)
      requires Valid()
      modifies upstreams.Values
      ensures stopped.Keys <= todo && forall n | n in stopped :: n in upstreams && stopped[n] == upstreams[n]
      ensures failure.None? ==> stopped.Keys == todo * upstreams.Keys
      ensures failure.None? ==> forall n | n in stopped :: Stopped(stopped[n], true)
      ensures failure.Some? ==> failure.value.StopFailed? && failure.value.name in stopped
      ensures failure.Some? ==> forall n | n in stopped :: Stopped(stopped[n], n != failure.value.name)
      ensures forall n | n in upstreams && n !in stopped :: Untouched(upstreams[n])
    {
      stopped, failure := map[], None;
      var pending := todo;
      while pending != {}
        invariant pending <= todo && failure.None?
        invariant forall n :: n in stopped <==> n in todo && n !in pending && n in upstreams
        invariant forall n | n in stopped :: stopped[n] == upstreams[n]
        invariant forall n | n in upstreams ::
          if n in stopped then Stopped(upstreams[n], true) else Untouched(upstreams[n])
        decreases |pending|
      {
        var name :| name in pending;
        pending := pending - {name};
        if name in upstreams {
          var previous := upstreams[name];
          var ok := previous.ShutDown();
          stopped := stopped[name := previous];
          if !ok {
            failure := Some(StopFailed(name));
            return;
          }
        }
      }
    }

    /** Best effort: stops every new transport; whether a stop raises is ignored. */
    method GiveUp(started: map<Name, Transport>, next: map<Name, Settings>)
      requires AllNew(started, next)
      modifies started.Values
      ensures forall n | n in started :: GivenUp(started[n])
    {
      var pending := started.Keys;
      while pending != {}
        invariant pending <= started.Keys
        invariant forall n | n in started && n in pending :: New(started[n])
        invariant forall n | n in started && n !in pending :: GivenUp(started[n])
        decreases |pending|
      {
        var name :| name in pending;
        pending := pending - {name};
        var ok := started[name].ShutDown();
        assert started[name].log == [Start(true), Stop(ok)];
      }
    }
  
    static twostate predicate StartTried(t: Transport)
      reads t
    {
      t.log == old(t.log) + [Start(false)] || (t.log == old(t.log) + [Start(true)] && t.running)
    }

    /** Best effort: starts again what was stopped, or half stopped. */
    static method StartAgain(stopped: map<Name, Transport>)
      requires forall a, b | a in stopped && b in stopped && a != b :: stopped[a] != stopped[b]
      modifies stopped.Values
      ensures forall n | n in stopped :: StartTried(stopped[n])
    {
      var pending := stopped.Keys;
      while pending != {}
        invariant pending <= stopped.Keys
        invariant forall n | n in stopped && n in pending :: Untouched(stopped[n])
        invariant forall n | n in stopped && n !in pending :: StartTried(stopped[n])
        decreases |pending|
      {
        var name :| name in pending;
        pending := pending - {name};
        var ok := stopped[name].StartUp();
        assert StartTried(stopped[name]);
      }
    }

    /** Takes back what was started and stopped before something raised. */
    method TakeBack(started: map<Name, Transport>, stopped: map<Name, Transport>, next: map<Name, Settings>)
      requires AllNew(started, next)
      requires forall a, b | a in stopped && b in stopped && a != b :: stopped[a] != stopped[b]
      requires forall a, b | a in started && b in stopped :: started[a] != stopped[b]
      modifies started.Values, stopped.Values
      ensures forall n | n in started :: GivenUp(started[n])
      ensures forall n | n in stopped :: StartTried(stopped[n])
    {
      GiveUp(started, next);
      StartAgain(stopped);
    }

    /**
     The stop of the live upstream `name`, which was to go, raised: it was started again, as was
     what had been stopped before it, and nothing else was called.
     */
    twostate predicate StopRaised(name: Name, going: set<Name>)
      reads this, upstreams.Values
    {
      && name in upstreams && name in going && upstreams[name] in old(upstreams.Values)
      && StartedAgain(upstreams[name], false)
      && forall n | n in upstreams && n != name :: upstreams[n] in old(upstreams.Values)
           && (Untouched(upstreams[n]) || (n in going && StartedAgain(upstreams[n], true)))
    }

    /**
     Starts the new transports, then stops the old ones; takes it all back if any call
     raises. `started` and `broken` are the transports it made.
     */
    method Swap(next: map<Name, Settings>, coming: set<Name>, going: set<Name>)
      returns (started: map<Name, Transport>, failure: Option<Failure>, ghost broken: Transport?)
      requires Valid() && coming <= next.Keys
      modifies upstreams.Values
      ensures failure.None? ==> broken == null && started.Keys == coming && AllNew(started, next)
      ensures failure.None? ==> forall n | n in upstreams ::
        if n in going then Stopped(upstreams[n], true) else Untouched(upstreams[n])
      ensures Made(started, next) && forall n | n in started :: fresh(started[n]) && (failure.Some? ==> GivenUp(started[n]))
      ensures failure.Some? && !failure.value.StopFailed? ==>
        WhyNot(failure.value, coming - started.Keys, next, broken) && forall n | n in upstreams :: Untouched(upstreams[n])
      ensures failure.Some? && failure.value.StopFailed? ==> broken == null && started.Keys == coming && StopRaised(failure.value.name, going)
      ensures broken != null ==> fresh(broken)
    {
      started, failure, broken := StartNew(next, coming);
      if failure.Some? {
        TakeBack(started, map[], next);
        return;
      }
      failure := StopOrTakeBack(started, next, going);
    }

    /** The second half: stops the old transports, and takes everything back if that raises. */
    method StopOrTakeBack(started: map<Name, Transport>, next: map<Name, Settings>, going: set<Name>)
      returns (failure: Option<Failure>)
      requires Valid() && AllNew(started, next)
      requires forall a, b | a in started && b in upstreams :: started[a] != upstreams[b]
      modifies upstreams.Values, started.Values
      ensures failure.None? ==> AllNew(started, next)
      ensures failure.None? ==> forall n | n in upstreams ::
        if n in going then Stopped(upstreams[n], true) else Untouched(upstreams[n])
      ensures failure.Some? ==> failure.value.StopFailed? && forall n | n in started :: GivenUp(started[n])
      ensures failure.Some? ==> StopRaised(failure.value.name, going)
    {
      hide AllNew, GivenUp;
      var stopped;
      stopped, failure := StopOld(going);
      if failure.Some? {
        TakeBack(started, stopped, next);
      }
    }

    /** What made a reload raise: the one call that did, or a kind that is not registered. */
    twostate predicate ReloadRaised(next: map<Name, Settings>, why: Failure, new broken: Transport?)
      reads this, upstreams.Values, broken
    {
      if why.StopFailed? then StopRaised(why.name, Removed(configUpstreams, next) + Restarted(configUpstreams, next))
      else WhyNot(why, Added(configUpstreams, next) + Restarted(configUpstreams, next), next, broken)
    }

    /**
     A hot reload commits, or it raises and puts everything back as well as it can.
     `started` and `broken` are the transports it made.
     */
    method ApplyDiff(next: map<Name, Settings>)
      returns (r: Result<Diff, Failure>, ghost started: map<Name, Transport>, ghost broken: Transport?)
      requires Valid()
      modifies this, upstreams.Values
      ensures Valid()
      // Committed: kept transports are the very same and were not called, removed and
      // replaced ones were stopped, and the new ones are running with their new settings.
      ensures r.Ok? ==> configUpstreams == next && broken == null
      ensures r.Ok? ==> r.value == Diff(
        Added(old(configUpstreams), next), Removed(old(configUpstreams), next), Restarted(old(configUpstreams), next))
      ensures r.Ok? ==> upstreams == (old(upstreams) - (r.value.removed + r.value.restarted)) + started
      ensures r.Ok? ==> started.Keys == r.value.added + r.value.restarted && AllNew(started, next)
      ensures r.Ok? ==> forall n | n in old(upstreams) ::
        if n in Kept(old(configUpstreams), next) then Untouched(old(upstreams)[n])
        else Stopped(old(upstreams)[n], true)
      // Raised: both maps hold what they held, new transports were given up, and what was
      // stopped was started again.
      ensures r.Err? ==> configUpstreams == old(configUpstreams) && upstreams == old(upstreams)
      ensures r.Err? ==> forall n | n in started :: fresh(started[n]) && GivenUp(started[n])
      // It raises only for a new or replaced upstream that is of no registered kind or whose start
      // raised, and then no old one was called; or for a live one that goes and whose stop raised.
      ensures r.Err? && !r.error.StopFailed? ==>
        && WhyNot(r.error, Added(configUpstreams, next) + Restarted(configUpstreams, next) - started.Keys, next, broken)
        && forall n | n in upstreams :: Untouched(upstreams[n])
      ensures r.Err? && r.error.StopFailed? ==>
        && broken == null && started.Keys == Added(configUpstreams, next) + Restarted(configUpstreams, next)
        && StopRaised(r.error.name, Removed(configUpstreams, next) + Restarted(configUpstreams, next))
      ensures r.Err? ==> ReloadRaised(next, r.error, broken)
      ensures broken != null ==> fresh(broken)
      ensures Made(started, next)
      // In sum: either way the manager stays in sync and running, if it was and, after a
      // failure, if the compensating calls succeeded.
      ensures old(InSync()) ==> InSync()
      ensures r.Ok? && old(AllRunning()) ==> AllRunning()
      ensures r.Err? && old(AllRunning()) && (forall n | n in upstreams :: Compensated(upstreams[n])) ==> AllRunning()
      ensures r.Err? ==> forall n | n in started && started[n].log == [Start(true), Stop(true)] :: !started[n].running
    {
      hide Stopped, StartTried;
      var current := configUpstreams;
      var diff := Diff(Added(current, next), Removed(current, next), Restarted(current, next));
      var startedNew, failure, broken' := Swap(next, diff.added + diff.restarted, diff.removed + diff.restarted);
      started, broken := startedNew, broken';
      if failure.Some? {
        return Err(failure.value), started, broken;
      }
      Commit(next, startedNew);
      return Ok(diff), started, broken;
    }

    /** Keeps what is not going, and puts the new transports in. */
    method Commit(next: map<Name, Settings>, startedNew: map<Name, Transport>)
      requires Valid() && AllNew(startedNew, next)
      requires startedNew.Keys == Added(configUpstreams, next) + Restarted(configUpstreams, next)
      requires forall a, b | a in startedNew && b in upstreams :: startedNew[a] != upstreams[b]
      modifies this
      ensures Valid() && configUpstreams == next
      ensures upstreams ==
        (old(upstreams) - (Removed(old(configUpstreams), next) + Restarted(old(configUpstreams), next))) + startedNew
      ensures old(InSync()) ==> InSync()
      ensures (forall n | n in old(upstreams) && n in Kept(old(configUpstreams), next) :: old(upstreams)[n].running) ==> AllRunning()
    {
      upstreams := (upstreams - (Removed(configUpstreams, next) + Restarted(configUpstreams, next))) + startedNew;
      configUpstreams := next;
    }
  }
}
