/**
 Reconciling the config with a drop directory: `FileDropWatcher` of
 src/mcpxy_proxy/discovery/registration.py.
 */
module FileDropWatchers {
  import opened Prelude
  import opened ConfigTrees
  import opened Registrations

  /** An exception that the scan does not expect from reading or parsing a file. */
  datatype Surprise = NotUtf8 | HugeInteger | TooDeep | Other

  /** What a file gives: a value, an `OSError` or `JSONDecodeError`, or any other exception. */
  datatype File = Unreadable | Surprising(what: Surprise) | Json(tree: Tree)

  /** A file of the directory, by its name without `.json`. */
  datatype Entry = Entry(stem: string, mtime: real)

  /** What listing the directory gives: the directory may be gone, or a look at a file may raise something else. */
  datatype Listing = Listed(present: seq<Entry>) | Vanished | Raises

  /** The world during one scan; `show` is Python's `str` on a value that is not a string. */
  datatype World = World(files: string -> File, adds: string -> Answer, removes: string -> Answer, show: Tree -> string)

  datatype Watch = Watch(raw: Payload, known: map<string, real>, attempts: nat)

  /** The name and the definition that a file stands for. */
  function Normalize(stem: string, payload: Tree, show: Tree -> string): (r: (string, Option<Tree>)) {
    if !payload.Dict? then (stem, None)
    else if "type" in payload.entries && "config" !in payload.entries then (stem, Some(payload))
    else
      var p := payload.entries;
      var name :=
        if "name" !in p || Falsy(p["name"]) then stem else if p["name"].Text? then p["name"].text else show(p["name"]);
      (name, if "config" in p && p["config"].Dict? then Some(p["config"]) else None)
  }

  /** A stem that is no longer there: forgotten first, removed if that succeeds. */
  function DropOne(w: Watch, stem: string, world: World): (r: Watch) {
    var c := RemoveCandidate(w.raw, stem);
    Watch(AfterApply(w.raw, c, world.removes(stem)), w.known - {stem}, w.attempts + if c.Ok? then 1 else 0)
  }

  predicate Seen(w: Watch, e: Entry) {
    e.stem in w.known && w.known[e.stem] == e.mtime
  }

  /** What a readable file leads to. */
  function AddFile(w: Watch, e: Entry, tree: Tree, world: World): (r: Watch) {
    var (name, definition) := Normalize(e.stem, tree, world.show);
    if definition.None? then w
    else
      var c := AddCandidate(w.raw, name, definition.value, true);
      if c.Err? then w
      else if world.adds(e.stem).Applied? then Watch(c.value, w.known[e.stem := e.mtime], w.attempts + 1)
      else w.(attempts := w.attempts + 1)
  }

  function AddOne(w: Watch, e: Entry, world: World): (r: Watch) {
    if Seen(w, e) || !world.files(e.stem).Json? then w else AddFile(w, e, world.files(e.stem).tree, world)
  }

  /** The exception is not one of those the scan expects, and ends the watcher. */
  predicate Crashes(w: Watch, e: Entry, world: World) {
    !Seen(w, e) && world.files(e.stem).Surprising?
  }

  function DropFrom(w: Watch, stems: seq<string>, i: nat, present: seq<Entry>, world: World): (r: Watch)
    requires i <= |stems|
    decreases |stems| - i
  {
    if i == |stems| then w
    else DropFrom(if IsPresent(present, stems[i]) then w else DropOne(w, stems[i], world), stems, i + 1, present, world)
  }

  /** The state after the additions, and whether the watcher survived them. */
  function AddFrom(w: Watch, present: seq<Entry>, i: nat, world: World): (r: (Watch, bool))
    requires i <= |present|
    decreases |present| - i
  {
    if i == |present| then (w, true)
    else if Crashes(w, present[i], world) then (w, false)
    else AddFrom(AddOne(w, present[i], world), present, i + 1, world)
  }

  predicate IsPresent(present: seq<Entry>, stem: string) {
    exists k | 0 <= k < |present| :: present[k].stem == stem
  }

  /** One scan of a listing in its arbitrary order, and whether the watcher survived it. */
  function Scan(w: Watch, stems: seq<string>, listing: Listing, world: World): (r: (Watch, bool)) {
    match listing
    case Listed(present) => AddFrom(DropFrom(w, stems, 0, present, world), present, 0, world)
    case Vanished => (w, true)
    case Raises => (w, false)
  }

  class FileDropWatcher {
    const service: RegistrationService
    var known: map<string, real>

    function State(): (w: Watch)
      reads this, service
    {
      Watch(service.raw, known, service.attempts)
    }

    constructor (service: RegistrationService)
      ensures this.service == service && known == map[]
    {
      this.service, known := service, map[];
    }

    /** `stems` lists what is known when the scan begins, in the order of that dictionary. */
    method ScanOnce(stems: seq<string>, listing: Listing, world: World) returns (survived: bool)
      modifies this, service
      ensures (State(), survived) == Scan(old(State()), stems, listing, world)
    {
      if !listing.Listed? {
        return listing.Vanished?;
      }
      hide RemoveCandidate, AddFile, IsPresent;
      var present := listing.present;
      for i := 0 to |stems|
        invariant DropFrom(State(), stems, i, present, world) == DropFrom(old(State()), stems, 0, present, world)
      {
        if !IsPresent(present, stems[i]) {
          known := known - {stems[i]};
          var ignored := service.Remove(stems[i], world.removes(stems[i]));
        }
      }
      for i := 0 to |present|
        invariant AddFrom(State(), present, i, world) == Scan(old(State()), stems, listing, world)
      {
        var e := present[i];
        if e.stem in known && known[e.stem] == e.mtime {
          continue;
        }
        var file := world.files(e.stem);
        if file.Surprising? {
          return false;
        }
        if file.Unreadable? {
          continue;
        }
        LoadFile(e, file.tree, world);
      }
      return true;
    }

    method LoadFile(e: Entry, tree: Tree, world: World)
      modifies this, service
      ensures State() == AddFile(old(State()), e, tree, world)
    {
      hide AddCandidate, Normalize;
      var (name, definition) := Normalize(e.stem, tree, world.show);
      if definition.None? {
        return;
      }
      var result := service.Add(name, definition.value, true, world.adds(e.stem));
      if result.Ok? && result.value {
        known := known[e.stem := e.mtime];
      }
    }
  }

  // ---- What a scan leaves ----

  predicate Distinct(present: seq<Entry>) {
    forall j, k | 0 <= j < k < |present| :: present[j].stem != present[k].stem
  }

  /** `stems` lists exactly the known stems, each once. */
  ghost predicate Lists(stems: seq<string>, known: map<string, real>) {
    && (forall s :: s in stems <==> s in known)
    && (forall j, k | 0 <= j < k < |stems| :: stems[j] != stems[k])
  }

  function Registered(w: Watch, name: string): (d: Option<Tree>) {
    if Upstreams(w.raw).Some? && name in Upstreams(w.raw).value then Some(Upstreams(w.raw).value[name]) else None
  }

  /** A file that an add takes, under the name it gives. */
  predicate Registers(e: Entry, world: World) {
    && world.files(e.stem).Json? && world.adds(e.stem).Applied?
    && var (name, d) := Normalize(e.stem, world.files(e.stem).tree, world.show);
       ValidName(name) && d.Some? && IsDefinition(d.value)
  }

  function NameOf(e: Entry, world: World): (name: string)
    requires world.files(e.stem).Json?
  {
    Normalize(e.stem, world.files(e.stem).tree, world.show).0
  }

  function DefinitionOf(e: Entry, world: World): (d: Tree)
    requires Registers(e, world)
  {
    Normalize(e.stem, world.files(e.stem).tree, world.show).1.value
  }

  /**
   The two shapes of a drop file, and nothing else: a bare definition, named by its stem, or a
   definition under `config`, named by what stands under `name`, or by the stem if that is
   missing or false.
   */
  lemma DocumentedShapes(stem: string, payload: Tree, show: Tree -> string)
    ensures var (name, definition) := Normalize(stem, payload, show);
      var bare := payload.Dict? && "type" in payload.entries && "config" !in payload.entries;
      var wrapped := payload.Dict? && "config" in payload.entries && payload.entries["config"].Dict?;
      && (bare ==> name == stem && definition == Some(payload))
      && (wrapped ==> definition == Some(payload.entries["config"]))
      && (!bare && !wrapped ==> definition == None)
      && (wrapped && "name" !in payload.entries ==> name == stem)
      && (wrapped && "name" in payload.entries ==>
            var given := payload.entries["name"];
            name == if given.Text? && given.text != "" then given.text else if Falsy(given) then stem else show(given))
  {
  }

  /** What dropping one stem does to every name. */
  lemma DropEffect(w: Watch, stem: string, world: World)
    requires Upstreams(w.raw).Some? && stem != ""
    ensures var r := DropOne(w, stem, world);
      && Upstreams(r.raw).Some? && r.known == w.known - {stem}
      && (forall n | n != stem :: Registered(r, n) == Registered(w, n))
      && Registered(r, stem) == if world.removes(stem).Applied? then None else Registered(w, stem)
  {
  }

  ghost predicate Dropped(w: Watch, r: Watch, gone: set<string>, world: World) {
    && Upstreams(r.raw).Some?
    && r.known == w.known - gone
    && (forall n | n !in gone :: Registered(r, n) == Registered(w, n))
    && (forall n | n in gone :: Registered(r, n) == if world.removes(n).Applied? then None else Registered(w, n))
  }

  function GoneFrom(stems: seq<string>, i: nat, present: seq<Entry>): (gone: set<string>)
    requires i <= |stems|
    decreases |stems| - i
  {
    if i == |stems| then {}
    else GoneFrom(stems, i + 1, present) + if IsPresent(present, stems[i]) then {} else {stems[i]}
  }

  lemma {:induction false} GoneFromIs(stems: seq<string>, i: nat, present: seq<Entry>)
    requires i <= |stems|
    ensures forall s :: s in GoneFrom(stems, i, present) <==> s in stems[i..] && !IsPresent(present, s)
    decreases |stems| - i
  {
    hide IsPresent;
    if i < |stems| {
      GoneFromIs(stems, i + 1, present);
      assert stems[i..] == [stems[i]] + stems[i + 1..];
    }
  }

  lemma {:induction false} DropFromEffect(w: Watch, stems: seq<string>, i: nat, present: seq<Entry>, world: World)
    requires i <= |stems| && Upstreams(w.raw).Some? && "" !in stems
    requires forall j, k | 0 <= j < k < |stems| :: stems[j] != stems[k]
    ensures Dropped(w, DropFrom(w, stems, i, present, world), GoneFrom(stems, i, present), world)
    decreases |stems| - i
  {
    hide Registered, DropOne, IsPresent;
    if i < |stems| {
      var next := if IsPresent(present, stems[i]) then w else DropOne(w, stems[i], world);
      if !IsPresent(present, stems[i]) { DropEffect(w, stems[i], world); }
      DropFromEffect(next, stems, i + 1, present, world);
      GoneFromIs(stems, i + 1, present);
      assert stems[i] !in stems[i + 1..];
    }
  }

  /** What looking at one file does, when its stem and its name are the same or not. */
  lemma AddEffect(w: Watch, e: Entry, world: World)
    requires Upstreams(w.raw).Some?
    ensures var r := AddOne(w, e, world);
      && Upstreams(r.raw).Some?
      && (Seen(r, e) <==> Seen(w, e) || Registers(e, world))
      && (forall s | s != e.stem :: (s in r.known <==> s in w.known) && (s in w.known ==> r.known[s] == w.known[s]))
      && (Seen(w, e) || !Registers(e, world) ==> r.raw == w.raw)
      && (!Seen(w, e) && Registers(e, world) ==>
            && Registered(r, NameOf(e, world)) == Some(DefinitionOf(e, world))
            && forall n | n != NameOf(e, world) :: Registered(r, n) == Registered(w, n))
  {
    hide ValidName, Normalize;
    var r := AddOne(w, e, world);
    if !Seen(w, e) && world.files(e.stem).Json? {
      var (name, definition) := Normalize(e.stem, world.files(e.stem).tree, world.show);
      if Registers(e, world) {
        assert r == Watch(AddCandidate(w.raw, name, definition.value, true).value, w.known[e.stem := e.mtime], w.attempts + 1);
      } else {
        assert r == w.(attempts := r.attempts);
      }
    }
  }

  lemma CrashApart(w: Watch, r: Watch, e: Entry, world: World)
    requires Seen(r, e) == Seen(w, e)
    ensures Crashes(r, e, world) == Crashes(w, e, world)
  {
  }

  ghost predicate KnownAlike(w: Watch, r: Watch, s: string) {
    (s in r.known <==> s in w.known) && (s in w.known ==> r.known[s] == w.known[s])
  }

  lemma AddKnown(w: Watch, e: Entry, world: World, s: string)
    requires s != e.stem
    ensures KnownAlike(w, AddOne(w, e, world), s)
  {
    hide Normalize, AddCandidate;
  }

  lemma {:induction false} DropKnown(w: Watch, stems: seq<string>, i: nat, present: seq<Entry>, world: World, s: string)
    requires i <= |stems| && IsPresent(present, s)
    ensures KnownAlike(w, DropFrom(w, stems, i, present, world), s)
    decreases |stems| - i
  {
    hide IsPresent;
    if i < |stems| {
      DropKnown(if IsPresent(present, stems[i]) then w else DropOne(w, stems[i], world), stems, i + 1, present, world, s);
    }
  }

  lemma {:induction false} AddFromSurvivesIff(w: Watch, present: seq<Entry>, i: nat, world: World)
    requires i <= |present| && Distinct(present)
    ensures AddFrom(w, present, i, world).1 <==> forall k | i <= k < |present| :: !Crashes(w, present[k], world)
    decreases |present| - i
  {
    hide AddOne, Crashes;
    if i < |present| && !Crashes(w, present[i], world) {
      var next := AddOne(w, present[i], world);
      AddFromSurvivesIff(next, present, i + 1, world);
      forall k | i < k < |present| ensures Crashes(next, present[k], world) == Crashes(w, present[k], world) {
        AddKnown(w, present[i], world, present[k].stem);
        CrashApart(w, next, present[k], world);
      }
    }
  }

  /** One look at the directory: what is known in the order of its dictionary, the listing, the files. */
  datatype Look = Look(stems: seq<string>, listing: Listing, world: World)

  /** Listing raises, or reading or parsing a new or changed file does, and not as the scan expects. */
  ghost predicate Fatal(w: Watch, look: Look) {
    || look.listing.Raises?
    || (look.listing.Listed? &&
        exists k | 0 <= k < |look.listing.present| :: Crashes(w, look.listing.present[k], look.world))
  }

  predicate Clear(look: Look) {
    look.listing.Listed? ==> Distinct(look.listing.present)
  }

  /** The watcher survives a scan exactly when nothing in it is fatal. */
  lemma ScanSurvivesIff(w: Watch, look: Look)
    requires Clear(look)
    ensures Scan(w, look.stems, look.listing, look.world).1 <==> !Fatal(w, look)
  {
    hide Crashes, IsPresent;
    if look.listing.Listed? {
      var present := look.listing.present;
      var d := DropFrom(w, look.stems, 0, present, look.world);
      forall k | 0 <= k < |present| ensures Crashes(d, present[k], look.world) == Crashes(w, present[k], look.world) {
        ListedIsPresent(present, k);
        DropKnown(w, look.stems, 0, present, look.world, present[k].stem);
        CrashApart(w, d, present[k], look.world);
      }
      AddFromSurvivesIff(d, present, 0, look.world);
    }
  }

  /** The polling loop: it catches nothing, so the first scan that raises is its last. */
  function Watching(w: Watch, looks: seq<Look>, n: nat): (r: (Watch, bool))
    requires n <= |looks|
  {
    if n == 0 then (w, true)
    else
      var (v, alive) := Watching(w, looks, n - 1);
      if !alive then (v, false) else Scan(v, looks[n - 1].stems, looks[n - 1].listing, looks[n - 1].world)
  }

  /** Once the watcher is not alive, no file that is dropped, changed or removed does anything. */
  lemma {:induction false} DeadStays(w: Watch, looks: seq<Look>, k: nat, n: nat)
    requires k <= n <= |looks| && !Watching(w, looks, k).1
    ensures Watching(w, looks, n) == Watching(w, looks, k)
    decreases n
  {
    hide Scan;
    if k < n { DeadStays(w, looks, k, n - 1); }
  }

  lemma NextLook(w: Watch, looks: seq<Look>, n: nat)
    requires 0 < n <= |looks| && Clear(looks[n - 1])
    ensures var (v, alive) := Watching(w, looks, n - 1); Watching(w, looks, n).1 <==> alive && !Fatal(v, looks[n - 1])
  {
    hide Fatal, Scan, Clear;
    ScanSurvivesIff(Watching(w, looks, n - 1).0, looks[n - 1]);
  }

  /** Over any sequence of looks the watcher is alive if and only if none was fatal when it came to it. */
  lemma {:induction false} WatcherSurvivesIff(w: Watch, looks: seq<Look>, n: nat)
    requires n <= |looks| && forall k | 0 <= k < n :: Clear(looks[k])
    ensures Watching(w, looks, n).1 <==> forall k | 0 <= k < n :: !Fatal(Watching(w, looks, k).0, looks[k])
  {
    if n == 0 {
      assert Watching(w, looks, 0).1;
    } else {
      hide Fatal, Watching, Clear, Scan;
      WatcherSurvivesIff(w, looks, n - 1);
      NextLook(w, looks, n);
    }
  }

  /** A directory with one file of which this is to be said. */
  function OneFile(file: File): (look: Look) {
    Look([], Listed([Entry("a", 1.0)]), World(_ => file, _ => Applied, _ => Applied, _ => ""))
  }

  /**
   A single new file ends a fresh watcher in each of these ways: bytes that are not UTF-8, an
   integer with too many digits, nesting too deep for the parser, or any other surprise; and
   so does a listing that raises.
   */
  lemma SurpriseEndsWatcher(raw: Payload, what: Surprise)
    ensures Fatal(Watch(raw, map[], 0), OneFile(Surprising(what)))
    ensures !Watching(Watch(raw, map[], 0), [OneFile(Surprising(what))], 1).1
    ensures !Watching(Watch(raw, map[], 0), [Look([], Listing.Raises, OneFile(Unreadable).world)], 1).1
  {
    var look := OneFile(Surprising(what));
    assert Crashes(Watch(raw, map[], 0), look.listing.present[0], look.world);
    ScanSurvivesIff(Watch(raw, map[], 0), look);
  }

  /**
   When every file registers under its own stem: afterwards each is known with its time,
   each that was new or changed is registered with its definition, each other is as it was.
   */
  ghost predicate Reconciled(w: Watch, r: Watch, present: seq<Entry>, i: nat, world: World)
    requires i <= |present| && forall k | i <= k < |present| :: Registers(present[k], world)
  {
    && Upstreams(r.raw).Some?
    && (forall k | i <= k < |present| ::
          && Seen(r, present[k])
          && Registered(r, present[k].stem) ==
               if Seen(w, present[k]) then Registered(w, present[k].stem) else Some(DefinitionOf(present[k], world)))
    && (forall n | !IsPresent(present[i..], n) ::
          && Registered(r, n) == Registered(w, n)
          && (n in r.known <==> n in w.known) && (n in w.known ==> r.known[n] == w.known[n]))
  }

  /** Files whose definitions carry no name of their own, or their stem. */
  predicate StemNamed(present: seq<Entry>, world: World) {
    forall k | 0 <= k < |present| :: Registers(present[k], world) && NameOf(present[k], world) == present[k].stem
  }

  lemma {:induction false} AddFromReconciles(w: Watch, present: seq<Entry>, i: nat, world: World)
    requires i <= |present| && Distinct(present) && StemNamed(present, world) && Upstreams(w.raw).Some?
    ensures AddFrom(w, present, i, world).1
    ensures Reconciled(w, AddFrom(w, present, i, world).0, present, i, world)
    decreases |present| - i
  {
    hide AddOne, Registered, DefinitionOf, NameOf, Registers;
    if i < |present| {
      var e := present[i];
      var next := AddOne(w, e, world);
      assert Registers(e, world);
      RegistersReads(e, world);
      assert NameOf(e, world) == e.stem;
      AddEffect(w, e, world);
      if Seen(w, e) { SeenStays(w, e, world); }
      AddFromReconciles(next, present, i + 1, world);
      ReconciledStep(w, next, AddFrom(next, present, i + 1, world).0, present, i, world);
    }
  }

  lemma SeenStays(w: Watch, e: Entry, world: World)
    requires Seen(w, e)
    ensures AddOne(w, e, world) == w
  {
  }

  lemma RegistersReads(e: Entry, world: World)
    requires Registers(e, world)
    ensures world.files(e.stem).Json?
  {
  }

  lemma NotPresentLater(present: seq<Entry>, i: nat, n: string)
    requires i < |present|
    ensures IsPresent(present[i..], n) <==> n == present[i].stem || IsPresent(present[i + 1..], n)
  {
    var rest := present[i + 1..];
    assert present[i..][0] == present[i];
    if IsPresent(rest, n) {
      var k :| 0 <= k < |rest| && rest[k].stem == n;
      assert present[i..][k + 1].stem == n;
    }
    if IsPresent(present[i..], n) && n != present[i].stem {
      var k :| 0 <= k < |present[i..]| && present[i..][k].stem == n;
      assert rest[k - 1].stem == n;
    }
  }

  lemma OnlyOnce(present: seq<Entry>, i: nat)
    requires i < |present| && Distinct(present)
    ensures !IsPresent(present[i + 1..], present[i].stem)
  {
  }

  lemma ReconciledStep(w: Watch, next: Watch, r: Watch, present: seq<Entry>, i: nat, world: World)
    requires i < |present| && Distinct(present) && (forall k | i <= k < |present| :: Registers(present[k], world))
    requires Reconciled(next, r, present, i + 1, world)
    requires var e := present[i];
      && Seen(next, e)
      && (forall s | s != e.stem :: (s in next.known <==> s in w.known) && (s in w.known ==> next.known[s] == w.known[s]))
      && Registered(next, e.stem) == (if Seen(w, e) then Registered(w, e.stem) else Some(DefinitionOf(e, world)))
      && (forall n | n != e.stem :: Registered(next, n) == Registered(w, n))
    ensures Reconciled(w, r, present, i, world)
  {
    hide Registered, DefinitionOf, Registers, IsPresent;
    OnlyOnce(present, i);
    forall n | !IsPresent(present[i..], n) ensures n != present[i].stem && !IsPresent(present[i + 1..], n) {
      NotPresentLater(present, i, n);
    }
  }

  /**
   A scan whose reads and applies all succeed reconciles: what is known is the listing, each
   listed stem is registered with its file's definition or as it was if the file has not
   changed, each known stem that vanished is no longer registered, and no other name changes.
   */
  lemma ScanReconciles(w: Watch, stems: seq<string>, present: seq<Entry>, world: World)
    requires Lists(stems, w.known) && "" !in stems && Distinct(present) && Upstreams(w.raw).Some?
    requires StemNamed(present, world)
    requires forall s | s in w.known && !IsPresent(present, s) :: world.removes(s).Applied?
    ensures var (r, ok) := Scan(w, stems, Listed(present), world);
      && ok && Upstreams(r.raw).Some?
      && (forall s :: s in r.known <==> IsPresent(present, s))
      && (forall k | 0 <= k < |present| ::
            && present[k].stem in r.known && r.known[present[k].stem] == present[k].mtime
            && Registered(r, present[k].stem) ==
                 if present[k].stem in w.known && w.known[present[k].stem] == present[k].mtime
                 then Registered(w, present[k].stem) else Some(DefinitionOf(present[k], world)))
      && (forall n | n in w.known && !IsPresent(present, n) :: Registered(r, n) == None)
      && (forall n | n !in w.known && !IsPresent(present, n) :: Registered(r, n) == Registered(w, n))
  {
    hide Registered, DefinitionOf, Registers, StemNamed, IsPresent;
    assert forall k | 0 <= k < |present| :: Registers(present[k], world) by { AllRegister(present, world); }
    DropFromEffect(w, stems, 0, present, world);
    GoneFromIs(stems, 0, present);
    assert stems[0..] == stems;
    var d := DropFrom(w, stems, 0, present, world);
    AddFromReconciles(d, present, 0, world);
    assert present[0..] == present;
    forall k | 0 <= k < |present| ensures IsPresent(present, present[k].stem) { ListedIsPresent(present, k); }
    var r := Scan(w, stems, Listed(present), world).0;
    forall s | IsPresent(present, s) ensures s in r.known { PresentSeen(r, present, s); }
  }

  lemma AllRegister(present: seq<Entry>, world: World)
    requires StemNamed(present, world)
    ensures forall k | 0 <= k < |present| :: Registers(present[k], world)
  {
  }

  lemma ListedIsPresent(present: seq<Entry>, k: nat)
    requires k < |present|
    ensures IsPresent(present, present[k].stem)
  {
  }

  lemma PresentSeen(r: Watch, present: seq<Entry>, s: string)
    requires IsPresent(present, s) && forall k | 0 <= k < |present| :: Seen(r, present[k])
    ensures s in r.known
  {
  }

  // ---- Rescans ----

  lemma {:induction false} NothingDropped(w: Watch, stems: seq<string>, i: nat, present: seq<Entry>, world: World)
    requires i <= |stems| && forall k | i <= k < |stems| :: IsPresent(present, stems[k])
    ensures DropFrom(w, stems, i, present, world) == w
    decreases |stems| - i
  {
    hide IsPresent;
    if i < |stems| { NothingDropped(w, stems, i + 1, present, world); }
  }

  lemma {:induction false} NothingAdded(w: Watch, present: seq<Entry>, i: nat, world: World)
    requires i <= |present| && forall k | i <= k < |present| :: Seen(w, present[k])
    ensures AddFrom(w, present, i, world) == (w, true)
    decreases |present| - i
  {
    if i < |present| { NothingAdded(w, present, i + 1, world); }
  }

  /** Scanning an unchanged directory applies nothing, whatever its files now hold. */
  lemma RescanQuiet(w: Watch, stems: seq<string>, present: seq<Entry>, world: World)
    requires Lists(stems, w.known)
    requires forall s | s in w.known :: IsPresent(present, s)
    requires forall k | 0 <= k < |present| :: Seen(w, present[k])
    ensures Scan(w, stems, Listed(present), world) == (w, true)
  {
    hide IsPresent;
    forall k | 0 <= k < |stems| ensures IsPresent(present, stems[k]) { assert stems[k] in stems; }
    NothingDropped(w, stems, 0, present, world);
    NothingAdded(w, present, 0, world);
  }

  /** A reconciling scan is a fixpoint: the next one over the same listing changes nothing. */
  lemma ScanFixpoint(w: Watch, stems: seq<string>, present: seq<Entry>, world: World, stems2: seq<string>, world2: World)
    requires Lists(stems, w.known) && "" !in stems && Distinct(present) && Upstreams(w.raw).Some?
    requires StemNamed(present, world)
    requires forall s | s in w.known && !IsPresent(present, s) :: world.removes(s).Applied?
    requires Lists(stems2, Scan(w, stems, Listed(present), world).0.known)
    ensures var r := Scan(w, stems, Listed(present), world).0;
      Scan(r, stems2, Listed(present), world2) == (r, true)
  {
    hide Scan, Registered, Registers, StemNamed, Lists;
    ScanReconciles(w, stems, present, world);
    RescanQuiet(Scan(w, stems, Listed(present), world).0, stems2, present, world2);
  }

  // ---- What failed ----

  /** A surviving scan knows a file afterwards exactly when it knew it or just registered it. */
  lemma {:induction false} AddFromSeenIff(w: Watch, present: seq<Entry>, i: nat, world: World, k: nat)
    requires i <= k < |present| && Distinct(present) && Upstreams(w.raw).Some?
    requires AddFrom(w, present, i, world).1
    ensures Seen(AddFrom(w, present, i, world).0, present[k]) <==> Seen(w, present[k]) || Registers(present[k], world)
    decreases |present| - i
  {
    hide AddOne, Registers, Crashes;
    var next := AddOne(w, present[i], world);
    AddEffect(w, present[i], world);
    if i < k {
      AddFromSeenIff(next, present, i + 1, world, k);
    } else {
      AddFromApart(next, present, i + 1, world, present[k].stem);
    }
  }

  lemma {:induction false} AddFromApart(w: Watch, present: seq<Entry>, i: nat, world: World, s: string)
    requires i <= |present| && Upstreams(w.raw).Some? && forall k | i <= k < |present| :: present[k].stem != s
    ensures var r := AddFrom(w, present, i, world).0;
      && Upstreams(r.raw).Some? && (s in r.known <==> s in w.known) && (s in w.known ==> r.known[s] == w.known[s])
    decreases |present| - i
  {
    hide AddOne, Crashes;
    if i < |present| && !Crashes(w, present[i], world) {
      AddEffect(w, present[i], world);
      AddFromApart(AddOne(w, present[i], world), present, i + 1, world, s);
    }
  }

  /**
   A file whose add failed is tried again: not known after the first scan, it is known after
   the second exactly when the second registers it.
   */
  lemma FailedAddRetried(
      w: Watch, stems: seq<string>, present: seq<Entry>, first: World, stems2: seq<string>, second: World, k: nat)
    requires Distinct(present) && Upstreams(w.raw).Some? && k < |present| && "" !in stems && "" !in stems2
    requires Lists(stems, w.known) && Lists(stems2, Scan(w, stems, Listed(present), first).0.known)
    requires !Seen(w, present[k]) && !Registers(present[k], first)
    requires Scan(w, stems, Listed(present), first).1
    requires Scan(Scan(w, stems, Listed(present), first).0, stems2, Listed(present), second).1
    ensures var r := Scan(w, stems, Listed(present), first).0;
      && !Seen(r, present[k])
      && (Seen(Scan(r, stems2, Listed(present), second).0, present[k]) <==> Registers(present[k], second))
  {
    hide Scan, Registers;
    var r := Scan(w, stems, Listed(present), first).0;
    ScanSeenIff(w, stems, present, first, k);
    ScanSeenIff(r, stems2, present, second, k);
  }

  lemma ScanSeenIff(w: Watch, stems: seq<string>, present: seq<Entry>, world: World, k: nat)
    requires Lists(stems, w.known) && "" !in stems && Distinct(present) && Upstreams(w.raw).Some? && k < |present|
    requires Scan(w, stems, Listed(present), world).1
    ensures var r := Scan(w, stems, Listed(present), world).0;
      Upstreams(r.raw).Some? && (Seen(r, present[k]) <==> Seen(w, present[k]) || Registers(present[k], world))
  {
    hide Registers, Registered, IsPresent;
    var d := DropFrom(w, stems, 0, present, world);
    DropFromEffect(w, stems, 0, present, world);
    GoneFromIs(stems, 0, present);
    ListedIsPresent(present, k);
    assert Seen(d, present[k]) == Seen(w, present[k]);
    AddFromSeenIff(d, present, 0, world, k);
    AddFromApart(d, present, |present|, world, "");
    AddFromSome(d, present, 0, world);
  }

  lemma {:induction false} AddFromSome(w: Watch, present: seq<Entry>, i: nat, world: World)
    requires i <= |present| && Upstreams(w.raw).Some?
    ensures Upstreams(AddFrom(w, present, i, world).0.raw).Some?
    decreases |present| - i
  {
    hide AddOne, Crashes;
    if i < |present| && !Crashes(w, present[i], world) {
      AddEffect(w, present[i], world);
      AddFromSome(AddOne(w, present[i], world), present, i + 1, world);
    }
  }

  /**
   A removal that is not applied is not tried again: the stem is forgotten all the same, so
   it stays registered if it was, exactly when that one apply did not succeed.
   */
  lemma RemovalForgotten(w: Watch, stems: seq<string>, present: seq<Entry>, world: World, s: string)
    requires Lists(stems, w.known) && "" !in stems && Upstreams(w.raw).Some?
    requires s in w.known && !IsPresent(present, s)
    ensures var d := DropFrom(w, stems, 0, present, world);
      && s !in d.known
      && Registered(d, s) == if world.removes(s).Applied? then None else Registered(w, s)
  {
    hide Registered, IsPresent;
    DropFromEffect(w, stems, 0, present, world);
    GoneFromIs(stems, 0, present);
    assert stems[0..] == stems;
  }
}
