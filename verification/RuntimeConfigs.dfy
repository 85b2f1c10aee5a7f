/**
 Applying a configuration to the running proxy: src/mcpxy_proxy/runtime.py. One apply
 changes live transports, the raw and the validated config, the policy engine and the store.
 */
module RuntimeConfigs {
  import opened Prelude
  import opened ConfigTrees
  import opened ConfigSecrets
  import opened ConfigStores
  import Managers = UpstreamManagers
  import Engines = PolicyEngines

  /** The telemetry block; `sink` names the sink plugin. */
  datatype TelemetryConfig = TelemetryConfig(sink: string, options: string)

  /** A validated configuration. */
  datatype AppConfig = AppConfig(
    defaultUpstream: Option<string>, telemetry: TelemetryConfig,
    upstreams: map<Managers.Name, Managers.Settings>, policies: Engines.Config, tls: string)

  /** What the process sees while it applies: validation, environment variables, secrets. */
  datatype World = World(model: Tree -> Option<AppConfig>, env: Resolver, secrets: Option<Resolver>)

  /** The validated config a candidate stands for, if it is valid. */
  function Next(candidate: Payload, w: World): (next: Option<AppConfig>)
  {
    var t := Dict(candidate);
    w.model(if w.secrets.None? then Expand(t, Env, w.env, "") else ApplyExpansions(t, w.env, w.secrets.value))
  }

  /** A candidate without placeholders stands for itself; without a secret store, one without those of the environment. */
  lemma PlainStandsFor(candidate: Payload, w: World)
    requires Names(Dict(candidate), Env) == {} && (w.secrets.Some? ==> Names(Dict(candidate), Kind.Secret) == {})
    ensures Next(candidate, w) == w.model(Dict(candidate))
  {
    hide Expand, Names;
    ExpandNothing(Dict(candidate), Env, w.env, "");
    if w.secrets.Some? { ExpandNothing(Dict(candidate), Kind.Secret, w.secrets.value, ""); }
  }

  /** A secret's placeholder stands for the secret, or, without a store, for itself. */
  lemma SecretStandsFor(key: string, name: string, w: World)
    requires GoodName(name, Kind.Secret)
    ensures Next(map[key := Text("${secret:" + name + "}")], w) ==
      if w.secrets.None? then w.model(Dict(map[key := Text("${secret:" + name + "}")]))
      else w.model(Dict(map[key := Text(if w.secrets.value(name).Some? then w.secrets.value(name).value else "")]))
  {
    var t := Text(Placeholder(name, Kind.Secret));
    assert Placeholder(name, Kind.Secret) == "${secret:" + name + "}";
    OtherKind(name, Kind.Secret, Env);
    ExpandNothing(t, Env, w.env, "");
    OneEntry(key, t, Env, w.env);
    if w.secrets.Some? {
      PlaceholderExpands(name, Kind.Secret, w.secrets.value);
      OneEntry(key, t, Kind.Secret, w.secrets.value);
    }
    hide Expand, GoodName;
  }

  /** A variable's placeholder stands for the variable, whether there is a secret store or not. */
  lemma VariableStandsFor(key: string, name: string, w: World)
    requires GoodName(name, Env)
    requires w.env(name).Some? ==> forall c | c in w.env(name).value :: c != '$'
    ensures Next(map[key := Text("${env:" + name + "}")], w) ==
      w.model(Dict(map[key := Text(if w.env(name).Some? then w.env(name).value else "")]))
  {
    var t := Text(Placeholder(name, Env));
    var value := if w.env(name).Some? then w.env(name).value else "";
    hide Expand, GoodName;
    assert Placeholder(name, Env) == "${env:" + name + "}";
    PlaceholderExpands(name, Env, w.env);
    OneEntry(key, t, Env, w.env);
    if w.secrets.Some? {
      NoDollarExpands(value, Kind.Secret, w.secrets.value);
      OneEntry(key, Text(value), Kind.Secret, w.secrets.value);
    }
  }

  lemma OneEntry(key: string, t: Tree, kind: Kind, resolve: Resolver)
    ensures Expand(Dict(map[key := t]), kind, resolve, "") == Dict(map[key := Expand(t, kind, resolve, "")])
  {
    var m := map[key := t];
    assert Expand(Dict(m), kind, resolve, "") == Dict(map k | k in m :: Expand(m[k], kind, resolve, ""));
  }

  datatype ConfigDiff = ConfigDiff(defaultChanged: bool, telemetryChanged: bool, tlsChanged: bool, upstreams: Managers.Diff)

  function ComputeDiff(current: AppConfig, next: AppConfig): (d: ConfigDiff)
  {
    ConfigDiff(current.defaultUpstream != next.defaultUpstream, current.telemetry != next.telemetry,
      current.tls != next.tls, Plan(current.upstreams, next.upstreams))
  }

  /** What a diff has to say of going from one configuration to another. */
  ghost predicate Tells(d: ConfigDiff, current: AppConfig, next: AppConfig) {
    && (d.defaultChanged <==> next.defaultUpstream != current.defaultUpstream)
    && (d.telemetryChanged <==> next.telemetry != current.telemetry)
    && (d.tlsChanged <==> next.tls != current.tls)
    && (forall n :: n in d.upstreams.added <==> n in next.upstreams && n !in current.upstreams)
    && (forall n :: n in d.upstreams.removed <==> n in current.upstreams && n !in next.upstreams)
    && (forall n :: n in d.upstreams.restarted <==>
          n in current.upstreams && n in next.upstreams && current.upstreams[n] != next.upstreams[n])
  }

  /** The diff of an apply takes what it says of the upstreams from the live ones. */
  ghost predicate TellsOfAll(
      d: ConfigDiff, current: AppConfig, next: AppConfig, live: map<Managers.Name, Managers.Settings>) {
    && (d.defaultChanged <==> next.defaultUpstream != current.defaultUpstream)
    && (d.telemetryChanged <==> next.telemetry != current.telemetry)
    && (d.tlsChanged <==> next.tls != current.tls)
    && Tells(d, current.(upstreams := live), next)
  }

  lemma DiffTellsOfAll(
      current: AppConfig, next: AppConfig, plan: Managers.Diff, live: map<Managers.Name, Managers.Settings>)
    requires plan == Plan(live, next.upstreams)
    ensures TellsOfAll(ComputeDiff(current, next).(upstreams := plan), current, next, live)
  {
  }

  lemma DiffTells(current: AppConfig, next: AppConfig)
    ensures Tells(ComputeDiff(current, next), current, next)
  {
  }

  /** Applying what is in force already changes nothing, and says so. */
  lemma NothingToTell(d: ConfigDiff, config: AppConfig)
    requires Tells(d, config, config)
    ensures d == ConfigDiff(false, false, false, Managers.Diff({}, {}, {}))
  {
    assert d.upstreams.added == {} && d.upstreams.removed == {} && d.upstreams.restarted == {};
  }

  function Plan(current: map<Managers.Name, Managers.Settings>, next: map<Managers.Name, Managers.Settings>): (d: Managers.Diff)
  {
    Managers.Diff(Managers.Added(current, next), Managers.Removed(current, next), Managers.Restarted(current, next))
  }

  datatype Rejection = MissingSecrets | Invalid | TlsChanged

  /** Where an apply that had the lock raised. */
  datatype Stage = InTelemetry | InReload | InPersist

  /** The reply of an apply; only `Applied` reports `applied: True`. */
  datatype Reply = Applied(diff: ConfigDiff) | DryRun(diff: ConfigDiff) | Rejected(why: Rejection) | Failed(stage: Stage)

  // ---- The copies of the configuration, and what an apply does to them ----

  /** The store's active payload, if there is a store. */
  datatype Stored = NoStore | Holds(payload: Option<Payload>)

  /** What an apply keeps in step; there are policies if there is a policy engine. */
  datatype Copies = Copies(
    raw: Payload, config: AppConfig, policies: Option<Engines.Config>, stored: Stored,
    upstreams: map<Managers.Name, Managers.Settings>)

  /** Whether an apply gets as far as asking for the lock. */
  ghost predicate Passes(config: AppConfig, candidate: Payload, dryRun: bool, w: World) {
    && (w.secrets.Some? ==> PreChecked(Dict(candidate), w.secrets.value))
    && Next(candidate, w).Some? && Next(candidate, w).value.tls == config.tls && !dryRun
  }

  /** The rollback arm: everything but the store and the live upstreams is put back. */
  function Restored(c: Copies, raw: Payload, config: AppConfig): (r: Copies) {
    c.(raw := raw, config := config, policies := if c.policies.Some? then Some(config.policies) else None)
  }

  /** The upstreams have been reloaded: the rest is set, and put back if saving raises. */
  function Finished(c: Copies, candidate: Payload, next: AppConfig, raw: Payload, config: AppConfig, saves: bool): (r: Copies)
  {
    var swapped :=
      Copies(candidate, next, if c.policies.Some? then Some(next.policies) else None, c.stored, next.upstreams);
    if c.stored.NoStore? then swapped
    else if saves then swapped.(stored := Holds(Some(candidate)))
    else Restored(swapped, raw, config)
  }

  /** A call on a pipeline and whether it returned without raising. */
  datatype PipelineCall = Started(ok: bool) | Stopped(ok: bool)

  /** A telemetry pipeline: stopping it always ends it, though its sink may raise. */
  class Pipeline {
    var running: bool
    ghost var log: seq<PipelineCall>

    constructor ()
      ensures !running && log == []
    {
      running, log := false, [];
    }

    method StartUp() returns (ok: bool)
      modifies this
      ensures running == ok && log == old(log) + [Started(ok)]
    {
      ok := *;
      running := ok;
      log := log + [Started(ok)];
    }

    method ShutDown() returns (ok: bool)
      modifies this
      ensures !running && log == old(log) + [Stopped(ok)]
    {
      running := false;
      ok := *;
      log := log + [Stopped(ok)];
    }
  }

  /** What raised: the pipeline made, if one was; what the reload raised, and the transport that did not start. */
  datatype Cause = Cause(made: Pipeline?, why: Option<Managers.Failure>, broken: Managers.Transport?)

  class RuntimeConfigManager {
    var rawConfig: Payload
    var config: AppConfig
    const manager: Managers.UpstreamManager
    var telemetry: Pipeline
    const sinks: set<string>
    const policyEngine: Engines.PolicyEngine?
    const store: ConfigStore?

    ghost predicate Valid()
      reads this, manager, policyEngine
    {
      manager.Valid() && (policyEngine != null ==> policyEngine.Valid())
    }

    /** The live upstreams and the policy engine follow the validated config. */
    ghost predicate InStep()
      reads this, manager, policyEngine
    {
      manager.configUpstreams == config.upstreams && (policyEngine != null ==> policyEngine.config == config.policies)
    }

    /** The raw config is what the store would restore. */
    ghost predicate Persisted()
      reads this, store
    {
      store != null ==> store.activePayload == Some(rawConfig)
    }

    /** The connection of the store. */
    ghost function Database(): (c: Connection?) {
      if store == null then null else store.connection
    }

    ghost function State(): (c: Copies)
      reads this, manager, policyEngine, store
    {
      Copies(rawConfig, config, if policyEngine == null then None else Some(policyEngine.config),
        if store == null then NoStore else Holds(store.activePayload), manager.configUpstreams)
    }

    constructor (raw: Payload, config: AppConfig, manager: Managers.UpstreamManager, telemetry: Pipeline,
        sinks: set<string>, policyEngine: Engines.PolicyEngine?, store: ConfigStore?)
      ensures this.rawConfig == raw && this.config == config && this.manager == manager && this.telemetry == telemetry
      ensures this.sinks == sinks && this.policyEngine == policyEngine && this.store == store
    {
      this.rawConfig, this.config, this.manager, this.telemetry := raw, config, manager, telemetry;
      this.sinks, this.policyEngine, this.store := sinks, policyEngine, store;
    }

    /** The checks that run before the lock is asked for. */
    method Precheck(candidate: Payload, dryRun: bool, w: World) returns (reply: Option<Reply>)
      ensures reply.None? <==> Passes(config, candidate, dryRun, w)
      ensures reply == Some(Rejected(MissingSecrets)) <==>
        w.secrets.Some? && !PreChecked(Dict(candidate), w.secrets.value)
      ensures reply == Some(Rejected(TlsChanged)) ==>
        Next(candidate, w).Some? && Next(candidate, w).value.tls != config.tls
      ensures reply.Some? ==> reply.value.Rejected? || reply.value.DryRun?
      ensures reply.Some? && reply.value.DryRun? ==>
        dryRun && Next(candidate, w).Some? && Next(candidate, w).value.tls == config.tls
        && Tells(reply.value.diff, config, Next(candidate, w).value)
    {
      if w.secrets.Some? {
        var missing := Missing(candidate, w.secrets.value);
        if missing {
          return Some(Rejected(MissingSecrets));
        }
      }
      var next := Next(candidate, w);
      if next.None? {
        return Some(Rejected(Invalid));
      }
      if config.tls != next.value.tls {
        return Some(Rejected(TlsChanged));
      }
      if dryRun {
        DiffTells(config, next.value);
        return Some(DryRun(ComputeDiff(config, next.value)));
      }
      return None;
    }

    method Missing(candidate: Payload, secrets: Resolver) returns (missing: bool)
      ensures missing <==> !PreChecked(Dict(candidate), secrets)
    {
      var names := FindSecretReferences(Dict(candidate));
      var rest := names;
      missing := false;
      while rest != {}
        invariant rest <= names
        invariant missing <==> exists n | n in names - rest :: secrets(n).None?
        decreases |rest|
      {
        var name :| name in rest;
        rest := rest - {name};
        if secrets(name).None? { missing := true; }
      }
    }

    /** Replaces the pipeline if the block changed: stops the old one first, then starts a new one. */
    method ApplyTelemetryIfNeeded(next: AppConfig) returns (ok: bool, ghost made: Pipeline?)
      modifies this`telemetry, telemetry
      ensures config.telemetry == next.telemetry ==>
        ok && telemetry == old(telemetry) && telemetry.running == old(telemetry.running)
      ensures config.telemetry != next.telemetry ==> !old(telemetry).running
      ensures config.telemetry != next.telemetry && ok ==> fresh(telemetry) && telemetry.running
      ensures !ok ==> telemetry == old(telemetry) && config.telemetry != next.telemetry && TelemetryRaised(next, made)
    {
      made := null;
      if config.telemetry == next.telemetry {
        return true, made;
      }
      ok := telemetry.ShutDown();
      if !ok || next.telemetry.sink !in sinks {
        return false, made;
      }
      var pipeline := new Pipeline();
      made := pipeline;
      ok := pipeline.StartUp();
      if ok {
        telemetry := pipeline;
      }
    }

    /** Why the telemetry could not be replaced: stopping it raised, the sink is not registered, or the new one did not start. */
    ghost predicate TelemetryRaised(next: AppConfig, made: Pipeline?)
      reads this, telemetry, made
    {
      && telemetry.log != []
      && (|| telemetry.log[|telemetry.log| - 1] == Stopped(false)
          || next.telemetry.sink !in sinks
          || (made != null && made.log == [Started(false)]))
    }
  
    /** The part that runs under the lock. `orphan` is a new pipeline that nothing refers to any more. */
    method Swap(candidate: Payload, next: AppConfig)
      returns (reply: Reply, ghost orphan: Pipeline?, ghost cause: Cause)
      requires Valid() && next.tls == config.tls
      modifies this, manager, manager.upstreams.Values, telemetry, policyEngine, store, Database()
      ensures Valid()
      ensures reply.Applied? || reply.Failed?
      ensures reply.Failed? ==> Caused(reply.stage, next, cause)
      // Every copy: all set, or, before the reload commits, all put back, or all but the live upstreams.
      ensures reply.Applied? ==> State() == Finished(old(State()), candidate, next, old(rawConfig), old(config), true)
      ensures reply.Failed? && reply.stage != InPersist ==> State() == Restored(old(State()), old(rawConfig), old(config))
      ensures reply.Failed? && reply.stage == InPersist ==>
        store != null && State() == Finished(old(State()), candidate, next, old(rawConfig), old(config), false)
      // The whole store, and the diff.
      ensures store != null ==> store.State() == if reply.Applied? then Saved(old(store.State()), candidate) else old(store.State())
      ensures reply.Applied? ==> TellsOfAll(reply.diff, old(config), next, old(manager.configUpstreams))
      // Live transports match the live settings, and run unless compensating for a failed reload failed too.
      ensures old(manager.InSync()) ==> manager.InSync()
      ensures old(manager.AllRunning()) && reply != Failed(InReload) ==> manager.AllRunning()
      ensures old(manager.AllRunning()) && reply == Failed(InReload) && ManagerCompensated() ==> manager.AllRunning()
      // Buckets that a config without policies cleared are not put back,
      ensures reply.Failed? && policyEngine != null ==>
        policyEngine.buckets == Unless(Cleared(reply.stage, old(config), next), old(policyEngine.buckets))
      ensures reply.Applied? ==> (telemetry != old(telemetry) <==> old(config).telemetry != next.telemetry)
      // and the pipeline that is put back has been stopped, if the block was to change.
      ensures reply.Failed? ==> telemetry == old(telemetry)
      ensures reply.Failed? && old(config).telemetry != next.telemetry ==> !telemetry.running
      ensures reply.Failed? && old(config).telemetry == next.telemetry ==> telemetry.running == old(telemetry.running)
      ensures orphan != null <==> reply.Failed? && reply.stage != InTelemetry && old(config).telemetry != next.telemetry
      ensures orphan != null ==> fresh(orphan) && orphan.running && orphan != telemetry
    {
      hide Finished, Restored, Plan, Cleared, ComputeDiff, Unless, Tells, TellsOfAll,
        Managers.UpstreamManager.WhyNot, Managers.UpstreamManager.InSync, Managers.UpstreamManager.AllRunning;
      var backupConfig, backupTelemetry := config, telemetry;
      var stage: Option<Stage>, diff := Some(InTelemetry), Managers.Diff({}, {}, {});
      var ok, made := ApplyTelemetryIfNeeded(next);
      cause := Cause(made, None, null);
      orphan := if ok && telemetry != backupTelemetry then telemetry else null;
      if ok {
        stage, diff, cause := ReloadAndCommit(candidate, next, backupTelemetry);
      } else {
        Restore(rawConfig, backupConfig, backupTelemetry);
        ClearedEarly(InTelemetry, backupConfig, next);
      }
      if stage.None? {
        orphan := null;
        DiffTellsOfAll(backupConfig, next, diff, old(manager.configUpstreams));
      }
      reply := if stage.Some? then Failed(stage.value) else Applied(ComputeDiff(backupConfig, next).(upstreams := diff));
    }

    /** What follows the telemetry: `stage` is where it raised. */
    method ReloadAndCommit(candidate: Payload, next: AppConfig, backupTelemetry: Pipeline)
      returns (stage: Option<Stage>, diff: Managers.Diff, ghost cause: Cause)
      requires Valid()
      modifies this`rawConfig, this`config, this`telemetry, manager, manager.upstreams.Values, policyEngine, store, Database()
      ensures Valid()
      ensures stage.Some? ==> stage.value == InReload || (stage.value == InPersist && store != null)
      ensures stage.Some? ==> Caused(stage.value, next, cause)
      ensures State() ==
        if stage == Some(InReload) then Restored(old(State()), old(rawConfig), old(config))
        else Finished(old(State()), candidate, next, old(rawConfig), old(config), stage.None?)
      ensures store != null ==> store.State() == if stage.None? then Saved(old(store.State()), candidate) else old(store.State())
      ensures stage.None? ==> diff == Plan(old(manager.configUpstreams), next.upstreams)
      ensures telemetry == if stage.None? then old(telemetry) else backupTelemetry
      ensures old(manager.InSync()) ==> manager.InSync()
      ensures old(manager.AllRunning()) && stage != Some(InReload) ==> manager.AllRunning()
      ensures old(manager.AllRunning()) && stage == Some(InReload) && ManagerCompensated() ==> manager.AllRunning()
      ensures stage.Some? && policyEngine != null ==>
        policyEngine.buckets == Unless(Cleared(stage.value, old(config), next), old(policyEngine.buckets))
    {
      hide Plan, Unless, Managers.UpstreamManager.WhyNot, Managers.UpstreamManager.StopRaised,
        Managers.UpstreamManager.Compensated, Managers.UpstreamManager.InSync, Managers.UpstreamManager.AllRunning;
      var reload, why, broken := Reload(next);
      cause := Cause(null, why, broken);
      if reload.None? {
        Restore(rawConfig, config, backupTelemetry);
        return Some(InReload), Managers.Diff({}, {}, {}), cause;
      }
      var saved := Commit(candidate, next, backupTelemetry);
      return if saved then None else Some(InPersist), reload.value, cause;
    }

    /** Why the apply failed at this stage. */
    twostate predicate Caused(stage: Stage, next: AppConfig, new cause: Cause)
      reads this, telemetry, cause.made, manager, manager.upstreams.Values, cause.broken, Database()
    {
      match stage
      case InTelemetry => TelemetryRaised(next, cause.made)
      case InReload => cause.why.Some? && manager.ReloadRaised(next.upstreams, cause.why.value, cause.broken)
      case InPersist => store != null && store.LastRaised()
    }

    /** The last call that a failed reload made on each transport, if any, did not raise. */
    twostate predicate ManagerCompensated()
      reads this, manager, manager.upstreams.Values
    {
      forall n | n in manager.upstreams && manager.upstreams[n] in old(manager.upstreams.Values) ::
        Managers.UpstreamManager.Compensated(manager.upstreams[n])
    }

    /** The reload of the live upstreams, as far as an apply needs it. */
    method Reload(next: AppConfig)
      returns (diff: Option<Managers.Diff>, ghost why: Option<Managers.Failure>, ghost broken: Managers.Transport?)
      requires manager.Valid()
      modifies manager, manager.upstreams.Values
      ensures manager.Valid()
      ensures manager.configUpstreams == if diff.Some? then next.upstreams else old(manager.configUpstreams)
      ensures old(manager.InSync()) ==> manager.InSync()
      ensures diff.Some? && old(manager.AllRunning()) ==> manager.AllRunning()
      ensures diff.None? ==> why.Some? && manager.ReloadRaised(next.upstreams, why.value, broken)
      ensures diff.None? ==> manager.upstreams == old(manager.upstreams)
      ensures diff.None? && old(manager.AllRunning()) && ManagerCompensated() ==> manager.AllRunning()
      ensures diff.Some? ==> diff.value == Plan(old(manager.configUpstreams), next.upstreams)
    {
      var r, started, broken' := manager.ApplyDiff(next.upstreams);
      broken := broken';
      why := if r.Ok? then None else Some(r.error);
      diff := if r.Ok? then Some(r.value) else None;
    }

    static function Unless<K, V>(cleared: bool, m: map<K, V>): map<K, V> {
      if cleared then map[] else m
    }

    /** Whether a failed apply has cleared the rate-limit buckets. */
    static predicate Cleared(stage: Stage, config: AppConfig, next: AppConfig) {
      Engines.NoPolicy(config.policies) || (stage == InPersist && Engines.NoPolicy(next.policies))
    }

    static lemma ClearedEarly(stage: Stage, config: AppConfig, next: AppConfig)
      requires stage != InPersist
      ensures Cleared(stage, config, next) == Engines.NoPolicy(config.policies)
    {
    }

    /** Swaps the in-memory copies and saves; if saving raises, puts the in-memory copies back. */
    method Commit(candidate: Payload, next: AppConfig, backupTelemetry: Pipeline) returns (saved: bool)
      requires policyEngine != null ==> policyEngine.Valid()
      requires manager.configUpstreams == next.upstreams
      modifies this`rawConfig, this`config, this`telemetry, policyEngine, store, Database()
      ensures policyEngine != null ==> policyEngine.Valid()
      ensures State() == Finished(old(State()), candidate, next, old(rawConfig), old(config), saved)
      ensures !saved ==> store != null && store.LastRaised()
      ensures store != null ==> store.State() == if saved then Saved(old(store.State()), candidate) else old(store.State())
      ensures telemetry == if saved then old(telemetry) else backupTelemetry
      ensures !saved && policyEngine != null ==>
        policyEngine.buckets == Unless(Cleared(InPersist, config, next), old(policyEngine.buckets))
    {
      var backupRaw, backupConfig := rawConfig, config;
      rawConfig, config := candidate, next;
      if policyEngine != null {
        policyEngine.ReplaceConfig(next.policies);
      }
      saved := true;
      if store != null {
        var version := store.SaveActiveConfig(candidate);
        saved := version.Some?;
      }
      if !saved {
        Restore(backupRaw, backupConfig, backupTelemetry);
      }
    }

    /** The rollback arm. */
    method Restore(backupRaw: Payload, backupConfig: AppConfig, backupTelemetry: Pipeline)
      requires policyEngine != null ==> policyEngine.Valid()
      modifies this`rawConfig, this`config, this`telemetry, policyEngine
      ensures State() == Restored(old(State()), backupRaw, backupConfig) && telemetry == backupTelemetry
      ensures policyEngine != null ==> policyEngine.Valid()
      ensures policyEngine != null ==>
        policyEngine.buckets == Unless(Engines.NoPolicy(backupConfig.policies), old(policyEngine.buckets))
    {
      rawConfig, config, telemetry := backupRaw, backupConfig, backupTelemetry;
      if policyEngine != null {
        policyEngine.ReplaceConfig(backupConfig.policies);
      }
    }

    /**
     One whole apply. A reply other than `Applied` leaves the raw config, the validated
     config, the policies and the store as they were, and the TLS block never changes. The
     live transports always match the live settings, and run unless a reload failed and
     compensating for it failed too. After a failure the live upstreams still follow the
     config exactly when the failure was not in persisting, or there was nothing to change
     in them; and telemetry still runs exactly when its block was not to change.
     */
    method Apply(candidate: Payload, dryRun: bool, w: World) returns (reply: Reply, ghost orphan: Pipeline?, ghost cause: Cause)
      requires Valid()
      modifies this, manager, manager.upstreams.Values, telemetry, policyEngine, store, Database()
      ensures Valid() && config.tls == old(config.tls)
      ensures reply.Applied? || reply.Failed? <==> Passes(old(config), candidate, dryRun, w)
      ensures reply.Failed? ==> Caused(reply.stage, Next(candidate, w).value, cause)
      ensures reply.Applied? ==> Next(candidate, w) == Some(config) && rawConfig == candidate
      ensures reply.Applied? && store != null ==> store.State() == Saved(old(store.State()), candidate)
      ensures reply.Applied? ==> InStep() && Persisted()
      ensures old(Persisted()) ==> Persisted()
      ensures !reply.Applied? ==> rawConfig == old(rawConfig) && config == old(config) && telemetry == old(telemetry)
      ensures !reply.Applied? && store != null ==> store.State() == old(store.State())
      ensures !reply.Applied? && policyEngine != null && old(InStep()) ==> policyEngine.config == old(policyEngine.config)
      ensures reply.Rejected? || reply.DryRun? ==>
        unchanged(this) && unchanged(manager) && unchanged(telemetry) && unchanged(manager.upstreams.Values)
      // The diff says what the apply has done, or would do.
      ensures reply.Applied? ==>
        && (reply.diff.telemetryChanged <==> telemetry != old(telemetry))
        && (reply.diff.defaultChanged <==> config.defaultUpstream != old(config).defaultUpstream) && !reply.diff.tlsChanged
      ensures reply.Applied? && old(InStep()) ==> Tells(reply.diff, old(config), config)
      ensures reply.DryRun? ==>
        && Next(candidate, w).Some? && Tells(reply.diff, config, Next(candidate, w).value) && !reply.diff.tlsChanged
      ensures old(manager.InSync()) ==> manager.InSync()
      ensures old(manager.AllRunning()) && (reply == Failed(InReload) ==> ManagerCompensated()) ==> manager.AllRunning()
      ensures reply.Failed? && old(InStep()) ==>
        (InStep() <==> reply.stage != InPersist || Next(candidate, w).value.upstreams == config.upstreams)
      ensures reply.Failed? && old(telemetry.running) ==>
        (telemetry.running <==> Next(candidate, w).value.telemetry == config.telemetry)
    {
      hide Managers.UpstreamManager.WhyNot, TelemetryRaised, Unless, Cleared, Tells, Plan;
      orphan, cause := null, Cause(null, None, null);
      var early := Precheck(candidate, dryRun, w);
      if early.Some? {
        return early.value, orphan, cause;
      }
      hide Tells, Managers.UpstreamManager.WhyNot, Managers.UpstreamManager.StopRaised, Managers.UpstreamManager.Compensated,
        Managers.UpstreamManager.InSync, Managers.UpstreamManager.AllRunning, TelemetryRaised, Unless, Cleared, Caused;
      reply, orphan, cause := Swap(candidate, Next(candidate, w).value);
    }
  }
}
