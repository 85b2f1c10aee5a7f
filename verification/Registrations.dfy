/**
 Registering upstreams at run time: src/mcpxy_proxy/discovery/registration.py. Whether an
 apply succeeds is an answer from outside; one that does replaces the raw config.
 */
module Registrations {
  import opened Prelude
  import opened ConfigTrees

  /** What `RuntimeConfigManager.apply` does with a candidate. */
  datatype Answer = Applied | Rejected | Raises

  /** `RegistrationError`, or any other exception. */
  datatype Failure = Refused | Raised

  /** The upstreams of a config; there are none where another kind of value stands. */
  function Upstreams(raw: Payload): (ups: Option<map<string, Tree>>) {
    if "upstreams" !in raw then Some(map[])
    else if raw["upstreams"].Dict? then Some(raw["upstreams"].entries)
    else None
  }

  function WithUpstreams(raw: Payload, ups: map<string, Tree>): (r: Payload)
    ensures Upstreams(r) == Some(ups)
  {
    raw["upstreams" := Dict(ups)]
  }

  predicate Inside(text: string, name: string, k: nat) {
    k + |name| <= |text| && text[k..k + |name|] == name
  }

  /** Where a string or a list stands for the upstreams, Python's `in` still answers; on any other value it raises. */
  predicate Mentions(t: Tree, name: string) {
    match t
    case Text(text) => exists k | 0 <= k <= |text| :: Inside(text, name, k)
    case List(elements) => Text(name) in elements
    case _ => false
  }

  predicate IsDefinition(t: Tree) {
    t.Dict? && "type" in t.entries
  }

  function AddCandidate(raw: Payload, name: string, definition: Tree, replace: bool): (r: Result<Payload, Failure>) {
    if !ValidName(name) || !IsDefinition(definition) then Err(Refused)
    else if Upstreams(raw).None? then Err(if !replace && Mentions(raw["upstreams"], name) then Refused else Raised)
    else
      var ups := Upstreams(raw).value;
      if !replace && name in ups then Err(Refused) else Ok(WithUpstreams(raw, ups[name := definition]))
  }

  function RemoveCandidate(raw: Payload, name: string): (r: Result<Payload, Failure>) {
    var entry := EntryOrEmpty(raw, "upstreams");
    if name == "" then Err(Refused)
    else if !entry.Dict? then Err(if entry.Other? || Mentions(entry, name) then Raised else Refused)
    else if name !in entry.entries then Err(Refused)
    else
      var rest := WithUpstreams(raw, entry.entries - {name});
      Ok(if "default_upstream" in rest && rest["default_upstream"] == Text(name)
         then rest["default_upstream" := Other("null")] else rest)
  }

  type Entries = seq<(string, Tree)>

  /** `bulk_add` puts its entries in one by one, before a single apply. */
  function BulkFrom(raw: Payload, ups: map<string, Tree>, entries: Entries, i: nat, replace: bool): (r: Result<Payload, Failure>)
    requires i <= |entries|
    decreases |entries| - i
  {
    if i == |entries| then Ok(WithUpstreams(raw, ups))
    else
      var (name, definition) := entries[i];
      if name == "" || !IsDefinition(definition) || (!replace && name in ups) then Err(Refused)
      else BulkFrom(raw, ups[name := definition], entries, i + 1, replace)
  }

  function BulkCandidate(raw: Payload, entries: Entries, replace: bool): (r: Result<Payload, Failure>)
  {
    if Upstreams(raw).None?
    then if entries == [] then Ok(raw)
         else if entries[0].0 == "" || !IsDefinition(entries[0].1) || (!replace && Mentions(raw["upstreams"], entries[0].0))
         then Err(Refused) else Err(Raised)
    else BulkFrom(raw, Upstreams(raw).value, entries, 0, replace)
  }

  /** What an apply makes of the config: the candidate, or nothing new. */
  function AfterApply(raw: Payload, candidate: Result<Payload, Failure>, answer: Answer): (r: Payload) {
    if candidate.Ok? && answer.Applied? then candidate.value else raw
  }

  class RegistrationService {
    var raw: Payload
    var attempts: nat

    constructor (raw: Payload)
      ensures this.raw == raw && attempts == 0
    {
      this.raw, attempts := raw, 0;
    }

    /** The runtime applies a candidate, refuses it, or raises. */
    method Apply(candidate: Payload, answer: Answer) returns (r: Result<bool, Failure>)
      modifies this
      ensures raw == (if answer.Applied? then candidate else old(raw)) && attempts == old(attempts) + 1
      ensures r == if answer.Raises? then Err(Raised) else Ok(answer.Applied?)
    {
      attempts := attempts + 1;
      if answer.Applied? {
        raw := candidate;
      }
      r := if answer.Raises? then Err(Raised) else Ok(answer.Applied?);
    }

    method Add(name: string, definition: Tree, replace: bool, answer: Answer) returns (r: Result<bool, Failure>)
      modifies this
      ensures var c := AddCandidate(old(raw), name, definition, replace);
        && raw == (if c.Ok? && answer.Applied? then c.value else old(raw))
        && r == (if c.Err? then Err(c.error) else if answer.Raises? then Err(Raised) else Ok(answer.Applied?))
        && attempts == old(attempts) + if c.Ok? then 1 else 0
    {
      if !ValidName(name) {
        return Err(Refused);
      }
      if !definition.Dict? || "type" !in definition.entries {
        return Err(Refused);
      }
      var upstreams := Upstreams(raw);
      if upstreams.None? {
        return Err(if !replace && Mentions(raw["upstreams"], name) then Refused else Raised);
      }
      if !replace && name in upstreams.value {
        return Err(Refused);
      }
      r := Apply(WithUpstreams(raw, upstreams.value[name := definition]), answer);
    }

    method Remove(name: string, answer: Answer) returns (r: Result<bool, Failure>)
      modifies this
      ensures var c := RemoveCandidate(old(raw), name);
        && raw == (if c.Ok? && answer.Applied? then c.value else old(raw))
        && r == (if c.Err? then Err(c.error) else if answer.Raises? then Err(Raised) else Ok(answer.Applied?))
        && attempts == old(attempts) + if c.Ok? then 1 else 0
    {
      if name == "" {
        return Err(Refused);
      }
      var entry := EntryOrEmpty(raw, "upstreams");
      if !entry.Dict? {
        return Err(if entry.Other? || Mentions(entry, name) then Raised else Refused);
      }
      if name !in entry.entries {
        return Err(Refused);
      }
      var candidate := WithUpstreams(raw, entry.entries - {name});
      if "default_upstream" in candidate && candidate["default_upstream"] == Text(name) {
        candidate := candidate["default_upstream" := Other("null")];
      }
      r := Apply(candidate, answer);
    }

    method BulkAdd(entries: Entries, replace: bool, answer: Answer) returns (r: Result<bool, Failure>)
      modifies this
      ensures var c := BulkCandidate(old(raw), entries, replace);
        && raw == (if c.Ok? && answer.Applied? then c.value else old(raw))
        && r == (if c.Err? then Err(c.error) else if answer.Raises? then Err(Raised) else Ok(answer.Applied?))
        && attempts == old(attempts) + if c.Ok? then 1 else 0
    {
      var start := Upstreams(raw);
      if start.None? {
        if entries == [] {
          r := Apply(raw, answer);
        } else if entries[0].0 == "" || !IsDefinition(entries[0].1) || (!replace && Mentions(raw["upstreams"], entries[0].0)) {
          r := Err(Refused);
        } else {
          r := Err(Raised);
        }
        return;
      }
      var ups := start.value;
      for i := 0 to |entries|
        invariant raw == old(raw) && attempts == old(attempts)
        invariant BulkFrom(raw, ups, entries, i, replace) == BulkCandidate(raw, entries, replace)
      {
        var (name, definition) := entries[i];
        if name == "" {
          return Err(Refused);
        }
        if !IsDefinition(definition) {
          return Err(Refused);
        }
        if !replace && name in ups {
          return Err(Refused);
        }
        ups := ups[name := definition];
      }
      r := Apply(WithUpstreams(raw, ups), answer);
    }
  }

  // ---- When a candidate is refused, and what it is ----

  /** A mapping with a type: what counts as a definition of an upstream. */
  ghost predicate Defines(t: Tree) {
    t.Dict? && "type" in t.entries.Keys
  }

  /** A candidate changes the entry of one name, and nothing outside the upstreams but, perhaps, the default. */
  ghost predicate ChangesOnly(raw: Payload, c: Payload, name: string) {
    && (forall k | k != "upstreams" && k != "default_upstream" :: k in c <==> k in raw)
    && (forall k | k != "upstreams" && k != "default_upstream" && k in raw :: c[k] == raw[k])
    && "upstreams" in c && c["upstreams"].Dict?
    && var ups := if "upstreams" in raw && raw["upstreams"].Dict? then raw["upstreams"].entries else map[];
       && (forall n | n != name :: n in c["upstreams"].entries <==> n in ups)
       && (forall n | n != name && n in ups :: c["upstreams"].entries[n] == ups[n])
  }

  /** Another kind of value than a mapping stands for the upstreams. */
  ghost predicate OddUpstreams(raw: Payload) {
    "upstreams" in raw && !raw["upstreams"].Dict?
  }

  /** The name is taken; a string or a list says so as well. */
  ghost predicate Taken(raw: Payload, name: string) {
    && "upstreams" in raw
    && match raw["upstreams"]
       case Dict(entries) => name in entries.Keys
       case List(elements) => exists k :: 0 <= k < |elements| && elements[k] == Text(name)
       case Text(text) => exists a, b :: text == a + name + b
       case Other(_) => false
  }

  lemma MentionsIff(raw: Payload, name: string)
    requires OddUpstreams(raw)
    ensures Mentions(raw["upstreams"], name) <==> Taken(raw, name)
  {
    var t := raw["upstreams"];
    if t.Text? {
      if k :| 0 <= k <= |t.text| && Inside(t.text, name, k) {
        assert t.text == t.text[..k] + name + t.text[k + |name|..];
      }
      if a, b :| t.text == a + name + b {
        assert Inside(t.text, name, |a|) by { assert t.text[|a|..|a| + |name|] == name; }
      }
    }
  }

  /**
   An add is refused for its name, for what is no definition, or for a name that is taken; it
   raises if another kind of value stands for the upstreams; and else only its own entry changes.
   */
  lemma AddIff(raw: Payload, name: string, definition: Tree, replace: bool)
    ensures var c := AddCandidate(raw, name, definition, replace);
      && (c == Err(Refused) <==> !ValidName(name) || !Defines(definition) || (Taken(raw, name) && !replace))
      && (c == Err(Raised) <==> c != Err(Refused) && OddUpstreams(raw))
      && (c.Ok? ==>
            && ChangesOnly(raw, c.value, name) && name in c.value["upstreams"].entries
            && c.value["upstreams"].entries[name] == definition
            && ("default_upstream" in c.value <==> "default_upstream" in raw)
            && ("default_upstream" in raw ==> c.value["default_upstream"] == raw["default_upstream"]))
  {
    hide ValidName, Mentions;
    if OddUpstreams(raw) { MentionsIff(raw, name); }
  }

  /** The value of the upstreams, if there is one that Python does not take for false. */
  ghost predicate Present(raw: Payload) {
    "upstreams" in raw && !Falsy(raw["upstreams"])
  }

  /**
   A removal is refused for a name that is not there; it raises if another kind of value stands
   for the upstreams; and else the entry is gone, and the default with it if it named that.
   */
  lemma RemoveIff(raw: Payload, name: string)
    ensures var c := RemoveCandidate(raw, name);
      && (c == Err(Raised) <==> name != "" && Present(raw) && OddUpstreams(raw) && (raw["upstreams"].Other? || Taken(raw, name)))
      && (c.Ok? <==> name != "" && Taken(raw, name) && !OddUpstreams(raw))
      && (c.Err? && c != Err(Raised) ==> c == Err(Refused))
      && (c.Ok? ==> ChangesOnly(raw, c.value, name) && name !in c.value["upstreams"].entries && DefaultCleared(raw, c.value, name))
  {
    hide Mentions;
    if OddUpstreams(raw) { MentionsIff(raw, name); }
  }

  /** The default upstream is as it was, but no longer names the one that is gone. */
  ghost predicate DefaultCleared(raw: Payload, c: Payload, name: string) {
    && ("default_upstream" in c <==> "default_upstream" in raw)
    && ("default_upstream" in raw && raw["default_upstream"] == Text(name) ==> c["default_upstream"] == Other("null"))
    && ("default_upstream" in raw && raw["default_upstream"] != Text(name) ==> c["default_upstream"] == raw["default_upstream"])
  }

  /** From entry `i` on, each has a name and a definition, and only a replacing add takes a name that is in use. */
  ghost predicate AllAddable(ups: map<string, Tree>, entries: Entries, i: nat, replace: bool) {
    && (forall k | i <= k < |entries| :: entries[k].0 != "" && Defines(entries[k].1))
    && (!replace ==> forall k | i <= k < |entries| :: entries[k].0 !in ups)
    && (!replace ==> forall j, k | i <= j < k < |entries| :: entries[j].0 != entries[k].0)
  }

  lemma AllAddableNext(ups: map<string, Tree>, entries: Entries, i: nat, replace: bool)
    requires i < |entries|
    ensures AllAddable(ups, entries, i, replace) <==>
      && entries[i].0 != "" && Defines(entries[i].1) && (!replace ==> entries[i].0 !in ups)
      && AllAddable(ups[entries[i].0 := entries[i].1], entries, i + 1, replace)
  {
    hide Defines;
    var next := ups[entries[i].0 := entries[i].1];
    assert forall n :: n in next <==> n in ups || n == entries[i].0;
  }

  /** The last entry of a name is the one that counts. */
  ghost predicate LastOf(entries: Entries, i: nat, k: nat) {
    i <= k < |entries| && forall j | k < j < |entries| :: entries[j].0 != entries[k].0
  }

  ghost predicate Unnamed(entries: Entries, i: nat, n: string) {
    forall k | i <= k < |entries| :: entries[k].0 != n
  }

  /** The upstreams after all entries from `i` on: the last of each name, and else what was there. */
  ghost predicate Overlaid(ups: map<string, Tree>, after: map<string, Tree>, entries: Entries, i: nat) {
    && (forall k: nat | LastOf(entries, i, k) :: entries[k].0 in after && after[entries[k].0] == entries[k].1)
    && (forall n | Unnamed(entries, i, n) :: n in after <==> n in ups)
    && (forall n | Unnamed(entries, i, n) && n in ups :: after[n] == ups[n])
  }

  lemma OverlaidNext(ups: map<string, Tree>, after: map<string, Tree>, entries: Entries, i: nat)
    requires i < |entries| && Overlaid(ups[entries[i].0 := entries[i].1], after, entries, i + 1)
    ensures Overlaid(ups, after, entries, i)
  {
    forall k: nat | LastOf(entries, i, k) ensures entries[k].0 in after && after[entries[k].0] == entries[k].1 {
      if k > i { assert LastOf(entries, i + 1, k); } else { assert Unnamed(entries, i + 1, entries[i].0); }
    }
    forall n | Unnamed(entries, i, n) ensures Unnamed(entries, i + 1, n) && n != entries[i].0 {
    }
  }

  lemma {:induction false} BulkFromIff(raw: Payload, ups: map<string, Tree>, entries: Entries, i: nat, replace: bool)
    requires i <= |entries|
    ensures var c := BulkFrom(raw, ups, entries, i, replace);
      && (c.Ok? <==> AllAddable(ups, entries, i, replace)) && (c.Err? ==> c.error == Refused)
      && (c.Ok? ==>
            && "upstreams" in c.value && c.value["upstreams"].Dict? && c.value - {"upstreams"} == raw - {"upstreams"}
            && Overlaid(ups, c.value["upstreams"].entries, entries, i))
    decreases |entries| - i
  {
    hide AllAddable, Overlaid, Defines;
    if i < |entries| {
      AllAddableNext(ups, entries, i, replace);
      DefinesIff(entries[i].1);
      hide IsDefinition;
      BulkFromIff(raw, ups[entries[i].0 := entries[i].1], entries, i + 1, replace);
      var c := BulkFrom(raw, ups, entries, i, replace);
      if c.Ok? { OverlaidNext(ups, c.value["upstreams"].entries, entries, i); }
    } else {
      NoneLeft(raw, ups, entries, replace);
    }
  }

  lemma DefinesIff(t: Tree)
    ensures IsDefinition(t) <==> Defines(t)
  {
  }

  lemma NoneLeft(raw: Payload, ups: map<string, Tree>, entries: Entries, replace: bool)
    ensures AllAddable(ups, entries, |entries|, replace) && Overlaid(ups, ups, entries, |entries|)
    ensures WithUpstreams(raw, ups) - {"upstreams"} == raw - {"upstreams"}
  {
    assert forall n :: Unnamed(entries, |entries|, n);
  }

  /**
   A bulk add takes all its entries or none: it is refused if and only if one has no name or no
   definition, or, unless it replaces, a name that is there or comes before; and in what it makes
   of the config the last entry of each name stands, and all other names are as they were.
   */
  lemma BulkIff(raw: Payload, entries: Entries, replace: bool)
    requires !OddUpstreams(raw)
    ensures var ups := if "upstreams" in raw then raw["upstreams"].entries else map[];
      var c := BulkCandidate(raw, entries, replace);
      && (c.Ok? <==> AllAddable(ups, entries, 0, replace)) && (c.Err? ==> c.error == Refused)
      && (c.Ok? ==>
            && "upstreams" in c.value && c.value["upstreams"].Dict? && c.value - {"upstreams"} == raw - {"upstreams"}
            && Overlaid(ups, c.value["upstreams"].entries, entries, 0))
  {
    hide AllAddable, Overlaid, BulkFrom;
    BulkFromIff(raw, Upstreams(raw).value, entries, 0, replace);
  }

  /** Where another kind of value stands for the upstreams, the first entry decides how a bulk add fails. */
  lemma OddBulk(raw: Payload, entries: Entries, replace: bool)
    requires OddUpstreams(raw) && entries != []
    ensures BulkCandidate(raw, entries, replace) == Err(
      if entries[0].0 == "" || !Defines(entries[0].1) || (Taken(raw, entries[0].0) && !replace) then Refused else Raised)
    ensures BulkCandidate(raw, [], replace) == Ok(raw)
  {
    hide Mentions, Taken;
    MentionsIff(raw, entries[0].0);
  }

  // ---- What adding and removing mean ----

  /** Removing what was added gives the config back, save that no default names it any more. */
  lemma AddThenRemove(raw: Payload, name: string, definition: Tree)
    requires AddCandidate(raw, name, definition, false).Ok?
    ensures var c := AddCandidate(raw, name, definition, false).value;
      && RemoveCandidate(c, name).Ok?
      && Upstreams(RemoveCandidate(c, name).value) == Upstreams(raw)
      && forall k | k in raw && k != "upstreams" && raw[k] != Text(name) ::
           k in RemoveCandidate(c, name).value && RemoveCandidate(c, name).value[k] == raw[k]
  {
    var ups := Upstreams(raw).value;
    assert ups[name := definition] - {name} == ups;
  }

  /** What a config must keep to stay valid: its default upstream, if it has one, is one of its upstreams. */
  predicate DefaultExists(raw: Payload) {
    "default_upstream" in raw && raw["default_upstream"].Text? && raw["default_upstream"].text != "" ==>
      Upstreams(raw).Some? && raw["default_upstream"].text in Upstreams(raw).value
  }

  /** Adding and removing keep the default upstream valid; removing leaves the name nowhere. */
  lemma DefaultStaysValid(raw: Payload, name: string, definition: Tree, replace: bool)
    requires DefaultExists(raw)
    ensures var c := AddCandidate(raw, name, definition, replace);
      c.Ok? ==> DefaultExists(c.value) && Upstreams(c.value).value[name] == definition
    ensures var c := RemoveCandidate(raw, name);
      c.Ok? ==> DefaultExists(c.value) && Upstreams(c.value).Some? && name !in Upstreams(c.value).value
  {
    hide ValidName;
  }

  /** Adding the entries one after another, each on what the one before left. */
  function AddsFrom(raw: Payload, entries: Entries, i: nat, replace: bool): (r: Result<Payload, Failure>)
    requires i <= |entries|
    decreases |entries| - i
  {
    if i == |entries| then Ok(raw)
    else
      var c := AddCandidate(raw, entries[i].0, entries[i].1, replace);
      if c.Err? then c else AddsFrom(c.value, entries, i + 1, replace)
  }

  lemma {:induction false} BulkAddsFrom(raw: Payload, ups: map<string, Tree>, entries: Entries, i: nat, replace: bool)
    requires i <= |entries| && forall k | i <= k < |entries| :: ValidName(entries[k].0)
    ensures BulkFrom(raw, ups, entries, i, replace) == AddsFrom(WithUpstreams(raw, ups), entries, i, replace)
    decreases |entries| - i
  {
    hide ValidName;
    if i < |entries| {
      var (name, definition) := entries[i];
      assert ValidName(entries[i].0);
      assert name != "" by { NameNotEmpty(name); }
      var next := ups[name := definition];
      BulkAddsFrom(raw, next, entries, i + 1, replace);
      assert WithUpstreams(WithUpstreams(raw, ups), next) == WithUpstreams(raw, next);
    }
  }

  lemma NameNotEmpty(name: string)
    requires ValidName(name)
    ensures name != ""
  {
  }

  /**
   With names that `add` would take, one bulk add is the adds one by one: the same config,
   or the same refusal. Other names it lets in, because it does not check them.
   */
  lemma BulkIsAdds(raw: Payload, entries: Entries, replace: bool)
    requires Upstreams(raw).Some? && entries != []
    requires forall k | 0 <= k < |entries| :: ValidName(entries[k].0)
    ensures BulkCandidate(raw, entries, replace) == AddsFrom(raw, entries, 0, replace)
  {
    hide ValidName;
    var ups := Upstreams(raw).value;
    BulkAddsFrom(raw, ups, entries, 0, replace);
    var (name, definition) := entries[0];
    assert WithUpstreams(WithUpstreams(raw, ups), ups[name := definition]) == WithUpstreams(raw, ups[name := definition]);
  }

  lemma BulkSkipsNameCheck(raw: Payload, name: string, definition: Tree, replace: bool)
    requires BulkCandidate(raw, [(name, definition)], replace).Ok?
    ensures AddCandidate(raw, name, definition, replace).Ok? <==> ValidName(name)
  {
    hide ValidName;
    assert [(name, definition)][0] == (name, definition);
  }
}
