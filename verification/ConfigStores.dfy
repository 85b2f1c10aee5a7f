/**
 The versioned configuration store: src/mcpxy_proxy/storage/config_store.py. A payload
 stands for its own JSON text, and a ciphertext remembers the key it was made with.
 */
module ConfigStores {
  import opened Prelude
  import opened ConfigTrees

  const MAX_VALUE := 64 * 1024

  datatype Cipher = Cipher(key: int, nonce: int, plain: string)

  function Encrypt(key: int, nonce: int, plain: string): Cipher {
    Cipher(key, nonce, plain)
  }

  function Decrypt(key: int, c: Cipher): Option<string> {
    if c.key == key then Some(c.plain) else None
  }

  datatype HistoryRow = HistoryRow(version: nat, payload: Payload)
  datatype SecretRow = SecretRow(cipher: Cipher, description: string)
  datatype Secret = Secret(value: string, description: string)

  /** The tables; `active` is the singleton row of the key-value table. */
  datatype Tables = Tables(
    active: Option<HistoryRow>, history: seq<HistoryRow>, upstreams: map<string, Tree>, secrets: map<string, SecretRow>)

  /** The tables and the caches in front of them. */
  datatype Store = Store(
    tables: Tables, activePayload: Option<Payload>, activeVersion: nat, secrets: map<string, Secret>)

  /** The rows of the denormalised upstreams table: the entries that are objects. */
  function UpstreamRows(p: Payload): (rows: map<string, Tree>)
  {
    var ups := EntryOrEmpty(p, "upstreams");
    if ups.Dict? then map n | n in ups.entries && ups.entries[n].Dict? :: ups.entries[n] else map[]
  }

  // ---- What each operation does when its transaction commits ----

  function Saved(s: Store, p: Payload): (r: Store)
  {
    var row := HistoryRow(s.activeVersion + 1, p);
    Store(Tables(Some(row), s.tables.history + [row], UpstreamRows(p), s.tables.secrets),
          Some(p), s.activeVersion + 1, s.secrets)
  }

  function Upserted(s: Store, key: int, nonce: int, name: string, secret: Secret): (r: Store)
  {
    var row := SecretRow(Encrypt(key, nonce, secret.value), secret.description);
    s.(tables := s.tables.(secrets := s.tables.secrets[name := row]), secrets := s.secrets[name := secret])
  }

  function Deleted(s: Store, name: string): (r: Store)
  {
    s.(tables := s.tables.(secrets := s.tables.secrets - {name}), secrets := s.secrets - {name})
  }

  /** The first history row of a version. */
  function Lookup(history: seq<HistoryRow>, version: nat): (p: Option<Payload>)
  {
    if history == [] then None
    else if history[0].version == version then Some(history[0].payload)
    else Lookup(history[1..], version)
  }

  /** The decrypted secrets, if this key decrypts every one of them. */
  function Opened(rows: map<string, SecretRow>, key: int): (r: Option<map<string, Secret>>)
  {
    if forall n | n in rows :: Decrypt(key, rows[n].cipher).Some? then
      Some(map n | n in rows :: Secret(Decrypt(key, rows[n].cipher).value, rows[n].description))
    else None
  }

  /** What warming the caches of a new process gives: nothing if any secret has another key. */
  function Loaded(t: Tables, key: int): (r: Option<Store>)
  {
    var plain := Opened(t.secrets, key);
    if plain.None? then None
    else if t.active.None? then Some(Store(t, None, 0, plain.value))
    else Some(Store(t, Some(t.active.value.payload), t.active.value.version, plain.value))
  }

  /** The caches agree with the tables, and the tables with each other. */
  ghost predicate Agree(s: Store, key: int) {
    var h := s.tables.history;
    && |h| == s.activeVersion
    && (forall k | 0 <= k < |h| :: h[k].version == k + 1)
    && s.tables.active == (if h == [] then None else Some(h[|h| - 1]))
    && s.activePayload == (if h == [] then None else Some(h[|h| - 1].payload))
    && s.tables.upstreams == (if h == [] then map[] else UpstreamRows(h[|h| - 1].payload))
    && s.secrets.Keys == s.tables.secrets.Keys
    && forall n | n in s.secrets ::
      s.tables.secrets[n].description == s.secrets[n].description
      && Decrypt(key, s.tables.secrets[n].cipher) == Some(s.secrets[n].value)
  }

  // ---- The store as an object ----

  /** The database connection: any statement of a transaction, or its commit, may raise. */
  class Connection {
    ghost var log: seq<bool>

    constructor ()
      ensures log == []
    {
      log := [];
    }

    method Execute() returns (ok: bool)
      modifies this
      ensures log == old(log) + [ok]
    {
      ok := *;
      log := log + [ok];
    }
  }

  class ConfigStore {
    const key: int
    const connection: Connection
    var db: Tables
    var activePayload: Option<Payload>
    var activeVersion: nat
    var secretsCache: map<string, Secret>

    ghost function State(): Store
      reads this
    {
      Store(db, activePayload, activeVersion, secretsCache)
    }

    constructor (db: Tables, key: int, connection: Connection)
      ensures State() == Store(db, None, 0, map[]) && this.key == key && this.connection == connection
    {
      this.db, this.key, this.connection := db, key, connection;
      activePayload, activeVersion, secretsCache := None, 0, map[];
    }

    /** Warms the caches of a store that has just been opened. */
    method LoadAll() returns (ok: bool)
      requires activePayload.None? && activeVersion == 0
      modifies this
      ensures db == old(db) && (ok <==> Loaded(db, key).Some?)
      ensures ok ==> Some(State()) == Loaded(db, key)
    {
      hide Opened;
      if db.active.Some? {
        activePayload, activeVersion := Some(db.active.value.payload), db.active.value.version;
      }
      secretsCache := map[];
      var plain;
      ok, plain := OpenSecrets(db.secrets, key);
      secretsCache := plain;
    }

    /** Decrypts row by row, and raises at the first that another key made. */
    static method OpenSecrets(rows: map<string, SecretRow>, key: int) returns (ok: bool, cache: map<string, Secret>)
      ensures ok <==> Opened(rows, key).Some?
      ensures ok ==> Some(cache) == Opened(rows, key)
    {
      cache := map[];
      var rest := rows.Keys;
      while rest != {}
        invariant rest <= rows.Keys && cache.Keys == rows.Keys - rest
        invariant forall n | n in cache :: Decrypt(key, rows[n].cipher).Some?
        invariant forall n | n in cache :: cache[n] == Secret(Decrypt(key, rows[n].cipher).value, rows[n].description)
        decreases |rest|
      {
        var name :| name in rest;
        rest := rest - {name};
        var plain := Decrypt(key, rows[name].cipher);
        if plain.None? {
          return false, cache;
        }
        cache := cache[name := Secret(plain.value, rows[name].description)];
      }
      assert cache == Opened(rows, key).value;
      return true, cache;
    }

    /** No statement since then has raised. */
    twostate predicate NoneRaised()
      reads connection
    {
      |old(connection.log)| <= |connection.log| && connection.log[..|old(connection.log)|] == old(connection.log)
      && forall k | |old(connection.log)| <= k < |connection.log| :: connection.log[k]
    }

    /** The last statement has raised. */
    twostate predicate LastRaised()
      reads connection
    {
      |old(connection.log)| < |connection.log| && !connection.log[|connection.log| - 1]
    }

    /** Replaces the active config, appends to the history and rewrites the upstreams, unless a statement raises. */
    method SaveActiveConfig(payload: Payload) returns (r: Option<nat>)
      modifies this, connection
      ensures r.Some? ==> State() == Saved(old(State()), payload) && r.value == old(activeVersion) + 1
      ensures r.None? ==> State() == old(State())
      ensures if r.Some? then NoneRaised() else LastRaised()
    {
      hide UpstreamRows;
      var version := activeVersion + 1;
      var row := HistoryRow(version, payload);
      var tx := db;
      var ok := connection.Execute();
      if !ok { return None; }
      tx := tx.(active := Some(row));
      ok := connection.Execute();
      if !ok { return None; }
      tx := tx.(history := tx.history + [row]);
      ok := connection.Execute();
      if !ok { return None; }
      var rows := InsertUpstreams(payload);
      if rows.None? { return None; }
      tx := tx.(upstreams := rows.value);
      ok := connection.Execute();
      if !ok { return None; }
      db := tx;
      activePayload, activeVersion := Some(payload), version;
      return Some(version);
    }

    /** Empties the upstreams table and inserts the entries of the payload that are objects. */
    method InsertUpstreams(payload: Payload) returns (rows: Option<map<string, Tree>>)
      modifies connection
      ensures rows.Some? ==> rows.value == UpstreamRows(payload)
      ensures if rows.Some? then NoneRaised() else LastRaised()
    {
      var inserted: map<string, Tree> := map[];
      var ups := EntryOrEmpty(payload, "upstreams");
      if ups.Dict? {
        var rest := ups.entries.Keys;
        while rest != {}
          invariant rest <= ups.entries.Keys
          invariant NoneRaised()
          invariant inserted == map n | n in ups.entries.Keys - rest && ups.entries[n].Dict? :: ups.entries[n]
          decreases |rest|
        {
          var name :| name in rest;
          rest := rest - {name};
          if ups.entries[name].Dict? {
            var ok := connection.Execute();
            if !ok { return None; }
            inserted := inserted[name := ups.entries[name]];
          }
        }
      }
      assert inserted == UpstreamRows(payload);
      return Some(inserted);
    }

    method LoadHistoryPayload(version: nat) returns (p: Option<Payload>)
      ensures p == Lookup(db.history, version)
    {
      for k := 0 to |db.history|
        invariant Lookup(db.history, version) == Lookup(db.history[k..], version)
      {
        assert db.history[k..][0] == db.history[k] && db.history[k..][1..] == db.history[k + 1..];
        if db.history[k].version == version {
          return Some(db.history[k].payload);
        }
      }
      return None;
    }

    /** `nonce` is the randomness of the encryption. */
    method UpsertSecret(name: string, secret: Secret, nonce: int) returns (ok: bool)
      modifies this, connection
      ensures ok ==> ValidName(name) && |secret.value| <= MAX_VALUE && NoneRaised()
      ensures !ok ==> !ValidName(name) || |secret.value| > MAX_VALUE || LastRaised()
      ensures State() == if ok then Upserted(old(State()), key, nonce, name, secret) else old(State())
    {
      if !ValidName(name) || |secret.value| > MAX_VALUE {
        return false;
      }
      var tx := db;
      ok := connection.Execute();
      if !ok { return; }
      tx := tx.(secrets := tx.secrets[name := SecretRow(Encrypt(key, nonce, secret.value), secret.description)]);
      ok := connection.Execute();
      if !ok { return; }
      db := tx;
      secretsCache := secretsCache[name := secret];
    }

    /** `Some(true)`: deleted; `Some(false)`: no such secret; `None`: raised. */
    method DeleteSecret(name: string) returns (r: Option<bool>)
      modifies this, connection
      ensures r == Some(true) ==> ValidName(name) && name in old(secretsCache) && NoneRaised()
      ensures r == Some(false) ==> ValidName(name) && name !in old(secretsCache)
      ensures r == None ==> !ValidName(name) || LastRaised()
      ensures State() == if r == Some(true) then Deleted(old(State()), name) else old(State())
    {
      if !ValidName(name) {
        return None;
      }
      if name !in secretsCache {
        return Some(false);
      }
      var tx := db;
      var ok := connection.Execute();
      if !ok { return None; }
      tx := tx.(secrets := tx.secrets - {name});
      ok := connection.Execute();
      if !ok { return None; }
      db := tx;
      secretsCache := secretsCache - {name};
      return Some(true);
    }
  }

  // ---- Runs ----

  /** An operation and whether its transaction committed. */
  datatype Op =
    | Save(payload: Payload, committed: bool)
    | Upsert(name: string, secret: Secret, nonce: int, committed: bool)
    | Delete(name: string, committed: bool)

  function Step(s: Store, key: int, op: Op): (r: Store)
  {
    match op
    case Save(p, ok) => if ok then Saved(s, p) else s
    case Upsert(n, v, nonce, ok) => if ok && ValidName(n) && |v.value| <= MAX_VALUE then Upserted(s, key, nonce, n, v) else s
    case Delete(n, ok) => if ok && ValidName(n) && n in s.secrets then Deleted(s, n) else s
  }

  function Run(s: Store, key: int, ops: seq<Op>): (r: Store)
    decreases |ops|
  {
    if ops == [] then s else Run(Step(s, key, ops[0]), key, ops[1..])
  }

  /** The payloads of the saves that committed, in order. */
  function Payloads(ops: seq<Op>): (ps: seq<Payload>)
  {
    if ops == [] then []
    else (if ops[0].Save? && ops[0].committed then [ops[0].payload] else []) + Payloads(ops[1..])
  }

  lemma StepKeeps(s: Store, key: int, op: Op)
    requires Agree(s, key)
    ensures Agree(Step(s, key, op), key)
  {
    hide UpstreamRows, ValidName;
  }

  /** A saved payload is the active one, under the next version, and its object-valued upstreams are the rows. */
  lemma SavedReads(s: Store, key: int, p: Payload, n: string)
    requires Agree(s, key)
    ensures var r := Step(s, key, Save(p, true));
      && r.activePayload == Some(p) && r.activeVersion == s.activeVersion + 1 && r.secrets == s.secrets
      && r.tables.active == Some(HistoryRow(s.activeVersion + 1, p))
      && (n in r.tables.upstreams <==>
            "upstreams" in p && p["upstreams"].Dict? && n in p["upstreams"].entries && p["upstreams"].entries[n].Dict?)
      && (n in r.tables.upstreams ==> r.tables.upstreams[n] == p["upstreams"].entries[n])
  {
  }

  /**
   A secret with a valid name and a value of up to 65536 characters reads back as it was put,
   for this process and for the next with the same key; all others stay. Any other upsert, and
   one that does not commit, changes nothing.
   */
  lemma UpsertReads(s: Store, key: int, name: string, secret: Secret, nonce: int, committed: bool)
    requires Agree(s, key)
    ensures var r := Step(s, key, Upsert(name, secret, nonce, committed));
      var next := Loaded(r.tables, key);
      && next.Some? && next.value.secrets == r.secrets
      && r.secrets == (if committed && ValidName(name) && |secret.value| <= 65536 then s.secrets[name := secret] else s.secrets)
      && r.activePayload == s.activePayload && r.tables.history == s.tables.history
  {
    hide ValidName, Loaded, Agree;
    StepKeeps(s, key, Upsert(name, secret, nonce, committed));
    LoadRestores(Step(s, key, Upsert(name, secret, nonce, committed)), key);
  }

  /** A deleted secret is gone, for this process and the next; all others stay. */
  lemma DeleteReads(s: Store, key: int, name: string)
    requires Agree(s, key) && ValidName(name)
    ensures var r := Step(s, key, Delete(name, true));
      var next := Loaded(r.tables, key);
      && next.Some? && next.value.secrets == r.secrets && name !in r.secrets && name !in r.tables.secrets
      && (forall n | n != name :: (n in r.secrets <==> n in s.secrets) && (n in s.secrets ==> r.secrets[n] == s.secrets[n]))
      && r.activePayload == s.activePayload && r.tables.history == s.tables.history
  {
    hide ValidName, Loaded;
    StepKeeps(s, key, Delete(name, true));
    LoadRestores(Step(s, key, Delete(name, true)), key);
  }

  lemma {:induction false} HistoryLookup(h: seq<HistoryRow>, first: nat, version: nat)
    requires forall k | 0 <= k < |h| :: h[k].version == first + k
    ensures Lookup(h, version) == if first <= version < first + |h| then Some(h[version - first].payload) else None
  {
    if h != [] {
      HistoryLookup(h[1..], first + 1, version);
    }
  }

  /** The history of a run is the history it started with and then every committed payload. */
  lemma {:induction false} RunKeeps(s: Store, key: int, ops: seq<Op>)
    requires Agree(s, key)
    ensures Agree(Run(s, key, ops), key)
    ensures var h := Run(s, key, ops).tables.history; var n := |s.tables.history|;
      && |h| == n + |Payloads(ops)| && h[..n] == s.tables.history
      && forall k | 0 <= k < |Payloads(ops)| :: h[n + k].payload == Payloads(ops)[k]
    decreases |ops|
  {
    hide Agree, UpstreamRows, ValidName;
    if ops != [] {
      StepKeeps(s, key, ops[0]);
      RunKeeps(Step(s, key, ops[0]), key, ops[1..]);
      var h := Run(s, key, ops).tables.history;
      var n := |s.tables.history|;
      if ops[0].Save? && ops[0].committed {
        assert h[..n] == h[..n + 1][..n];
        assert h[n] == h[..n + 1][n];
        assert forall k | 1 <= k < |Payloads(ops)| :: Payloads(ops)[k] == Payloads(ops[1..])[k - 1];
      }
    }
  }

  /**
   After any run from agreement, some of whose transactions failed: every version is the
   payload saved under it, and a process that opens the same database with the same key
   finds exactly the caches of the old one.
   */
  lemma RunAgrees(s: Store, key: int, ops: seq<Op>, version: nat)
    requires Agree(s, key)
    ensures var r := Run(s, key, ops); var n := |s.tables.history|;
      && Agree(r, key) && Loaded(r.tables, key) == Some(r) && r.activeVersion == n + |Payloads(ops)|
      && (1 <= version <= n ==> Lookup(r.tables.history, version) == Lookup(s.tables.history, version))
      && (n < version <= n + |Payloads(ops)| ==> Lookup(r.tables.history, version) == Some(Payloads(ops)[version - n - 1]))
      && (version == 0 || version > n + |Payloads(ops)| ==> Lookup(r.tables.history, version) == None)
  {
    hide UpstreamRows, Run;
    RunKeeps(s, key, ops);
    var r := Run(s, key, ops);
    HistoryLookup(r.tables.history, 1, version);
    HistoryLookup(s.tables.history, 1, version);
    LoadRestores(r, key);
    if 1 <= version <= |s.tables.history| {
      assert r.tables.history[..|s.tables.history|][version - 1] == r.tables.history[version - 1];
    }
  }

  lemma LoadRestores(s: Store, key: int)
    requires Agree(s, key)
    ensures Loaded(s.tables, key) == Some(s)
  {
    hide UpstreamRows;
    assert Opened(s.tables.secrets, key).value == s.secrets;
  }

  /** With another key the database opens only if it holds no secret. */
  lemma WrongKeyLoadsIff(s: Store, key: int, other: int)
    requires Agree(s, key) && other != key
    ensures Loaded(s.tables, other).Some? <==> s.secrets == map[]
  {
    hide UpstreamRows;
    if s.secrets != map[] {
      var n :| n in s.secrets;
      assert n in s.tables.secrets;
    }
  }
}
