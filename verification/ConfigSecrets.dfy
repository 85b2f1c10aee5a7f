/**
 Placeholders in configuration values: `_expand_env`, `_expand_secrets`, `_apply_expansions`
 and `find_secret_references` in src/mcpxy_proxy/config.py.
 */
module ConfigSecrets {
  import opened Prelude
  import opened ConfigTrees

  /** `${env:NAME}` or `${secret:NAME}`. */
  datatype Kind = Env | Secret

  type Resolver = string -> Option<string>

  function Opening(kind: Kind): string {
    if kind == Env then "${env:" else "${secret:"
  }

  predicate EnvChar(c: char) {
    'A' <= c <= 'Z' || '0' <= c <= '9' || c == '_'
  }

  predicate CharOf(kind: Kind, c: char, first: bool) {
    if kind == Env then EnvChar(c) else if first then NameStart(c) else NameChar(c)
  }

  /** The end of the run of name characters at `s[i..]`. */
  function NameEnd(s: string, i: nat, kind: Kind): (j: nat)
    requires i <= |s|
    ensures i <= j <= |s|
    decreases |s| - i
  {
    if i < |s| && CharOf(kind, s[i], false) then NameEnd(s, i + 1, kind) else i
  }

  /** The name of the placeholder at `s[i..]`, if one stands there. */
  function NameAt(s: string, i: nat, kind: Kind): (name: Option<string>)
    requires i <= |s|
    ensures name.Some? ==> i + |Opening(kind)| + |name.value| + 1 <= |s|
  {
    var start := i + |Opening(kind)|;
    if start < |s| && s[i..start] == Opening(kind) && CharOf(kind, s[start], true) then
      var end := NameEnd(s, start, kind);
      if end < |s| && s[end] == '}' then Some(s[start..end]) else None
    else None
  }

  lemma NameAtMeans(s: string, i: nat, kind: Kind)
    requires i <= |s| && NameAt(s, i, kind).Some?
    ensures var name := NameAt(s, i, kind).value;
      s[i..i + |Opening(kind)| + |name| + 1] == Opening(kind) + name + "}"
  {
    hide NameEnd, CharOf, Opening;
    var start := i + |Opening(kind)|;
    ThreeParts(s, i, start, NameEnd(s, start, kind));
  }

  lemma ThreeParts(s: string, i: nat, j: nat, k: nat)
    requires i <= j <= k < |s|
    ensures s[i..k + 1] == s[i..j] + s[j..k] + [s[k]]
  {
  }

  datatype Piece = Plain(c: char) | Ref(name: string)

  /** The matches of the pattern in a text, leftmost first and not overlapping, and what is between. */
  function Scan(s: string, i: nat, kind: Kind): (ps: seq<Piece>)
    requires i <= |s|
    decreases |s| - i
  {
    if i == |s| then []
    else if NameAt(s, i, kind).Some? then
      var name := NameAt(s, i, kind).value;
      [Ref(name)] + Scan(s, i + |Opening(kind)| + |name| + 1, kind)
    else [Plain(s[i])] + Scan(s, i + 1, kind)
  }

  function Refs(ps: seq<Piece>): (names: set<string>)
  {
    if ps == [] then {} else (if ps[0].Ref? then {ps[0].name} else {}) + Refs(ps[1..])
  }

  /** The pieces with every reference replaced; `fallback` stands in for a miss. */
  function Fill(ps: seq<Piece>, resolve: Resolver, fallback: string): (t: string)
  {
    if ps == [] then ""
    else
      var head := match ps[0]
        case Plain(c) => [c]
        case Ref(name) => if resolve(name).Some? then resolve(name).value else fallback;
      head + Fill(ps[1..], resolve, fallback)
  }

  /** The text the pieces were cut from. */
  function Written(ps: seq<Piece>, kind: Kind): (t: string)
  {
    if ps == [] then ""
    else (if ps[0].Plain? then [ps[0].c] else Opening(kind) + ps[0].name + "}") + Written(ps[1..], kind)
  }

  /** Expansion of a whole value; keys of dicts are left alone. */
  function Expand(t: Tree, kind: Kind, resolve: Resolver, fallback: string): (r: Tree)
    decreases t
  {
    match t
    case Other(_) => t
    case Text(s) => Text(Fill(Scan(s, 0, kind), resolve, fallback))
    case List(es) => List(seq(|es|, k requires 0 <= k < |es| => Expand(es[k], kind, resolve, fallback)))
    case Dict(m) => Dict(map k | k in m :: Expand(m[k], kind, resolve, fallback))
  }

  /** The code's expansions: the environment first, then secrets; a miss is the empty string. */
  function ApplyExpansions(t: Tree, env: Resolver, secrets: Resolver): (r: Tree)
  {
    Expand(Expand(t, Env, env, ""), Secret, secrets, "")
  }

  /** The names referenced anywhere in a value. */
  ghost function Names(t: Tree, kind: Kind): (names: set<string>)
    decreases t
  {
    match t
    case Other(_) => {}
    case Text(s) => Refs(Scan(s, 0, kind))
    case List(es) => set k, n | 0 <= k < |es| && n in Names(es[k], kind) :: n
    case Dict(m) => set k, n | k in m && n in Names(m[k], kind) :: n
  }

  lemma NamesOfList(t: Tree, kind: Kind, name: string)
    requires t.List?
    ensures name in Names(t, kind) <==> exists k | 0 <= k < |t.elements| :: name in Names(t.elements[k], kind)
  {
  }

  lemma NamesOfDict(t: Tree, kind: Kind, name: string)
    requires t.Dict?
    ensures name in Names(t, kind) <==> exists k | k in t.entries :: name in Names(t.entries[k], kind)
  {
  }

  // ---- The finder ----

  /** `walk`: adds the secret names of `t` to `found`. */
  method Walk(t: Tree, found: set<string>) returns (out: set<string>)
    ensures out == found + Names(t, Secret)
    decreases t, 1
  {
    out := found;
    match t {
      case Other(_) =>
      case Text(s) => out := WalkText(s, found);
      case List(es) => out := WalkList(t, found);
      case Dict(m) => out := WalkDict(t, found);
    }
  }

  method WalkText(s: string, found: set<string>) returns (out: set<string>)
    ensures out == found + Refs(Scan(s, 0, Secret))
  {
    hide Scan;
    out := found;
    var ps := Scan(s, 0, Secret);
    for k := 0 to |ps|
      invariant out + Refs(ps[k..]) == found + Refs(ps)
    {
      assert ps[k..][1..] == ps[k + 1..];
      if ps[k].Ref? { out := out + {ps[k].name}; }
    }
  }

  method WalkList(t: Tree, found: set<string>) returns (out: set<string>)
    requires t.List?
    ensures out == found + Names(t, Secret)
    decreases t, 0
  {
    out := found;
    for k := 0 to |t.elements|
      invariant out == found + set j, n | 0 <= j < k && n in Names(t.elements[j], Secret) :: n
    {
      out := Walk(t.elements[k], out);
    }
    forall n ensures n in out <==> n in found + Names(t, Secret) { NamesOfList(t, Secret, n); }
  }

  method WalkDict(t: Tree, found: set<string>) returns (out: set<string>)
    requires t.Dict?
    ensures out == found + Names(t, Secret)
    decreases t, 0
  {
    out := found;
    var rest := t.entries.Keys;
    while rest != {}
      invariant rest <= t.entries.Keys
      invariant out == found + set k, n | k in t.entries.Keys - rest && n in Names(t.entries[k], Secret) :: n
      decreases |rest|
    {
      var key :| key in rest;
      out := Walk(t.entries[key], out);
      rest := rest - {key};
    }
    forall n ensures n in out <==> n in found + Names(t, Secret) { NamesOfDict(t, Secret, n); }
  }

  method FindSecretReferences(t: Tree) returns (names: set<string>)
    ensures names == Names(t, Secret)
  {
    names := Walk(t, {});
  }

  // ---- What the two patterns match ----

  /** The names that stand in a placeholder, character class by character class. */
  predicate GoodName(name: string, kind: Kind) {
    && name != ""
    && match kind
       case Env => forall k | 0 <= k < |name| :: name[k] in UPPER || name[k] in NUMERALS || name[k] == '_'
       case Secret =>
         && name[0] != '-'
         && forall k | 0 <= k < |name| ::
              name[k] in UPPER || name[k] in LOWER || name[k] in NUMERALS || name[k] == '_' || name[k] == '-'
  }

  function Placeholder(name: string, kind: Kind): (t: string) {
    match kind
    case Env => "${env:" + name + "}"
    case Secret => "${secret:" + name + "}"
  }

  predicate GoodChar(c: char, kind: Kind) {
    c in UPPER || c in NUMERALS || c == '_' || (kind == Secret && (c in LOWER || c == '-'))
  }

  lemma CharIff(c: char, kind: Kind)
    ensures CharOf(kind, c, false) <==> GoodChar(c, kind)
    ensures CharOf(kind, c, true) <==> GoodChar(c, kind) && c != '-'
    ensures GoodChar(c, kind) ==> c != '}'
  {
    UpperIff(c);
    LowerIff(c);
    NumeralIff(c);
  }

  lemma GoodNameIff(name: string, kind: Kind)
    ensures GoodName(name, kind) <==>
      name != "" && CharOf(kind, name[0], true) && forall k | 0 <= k < |name| :: CharOf(kind, name[k], false)
  {
    forall k | 0 <= k < |name| ensures CharOf(kind, name[k], false) <==> GoodChar(name[k], kind) { CharIff(name[k], kind); }
    if name != "" {
      CharIff(name[0], kind);
      UpperIff('-');
      NumeralIff('-');
    }
    hide CharOf;
  }

  lemma {:induction false} NameEndIs(s: string, i: nat, j: nat, kind: Kind)
    requires i <= j < |s| && (forall k | i <= k < j :: CharOf(kind, s[k], false)) && !CharOf(kind, s[j], false)
    ensures NameEnd(s, i, kind) == j
    decreases j - i
  {
    if i < j { NameEndIs(s, i + 1, j, kind); }
  }

  lemma {:induction false} NameEndChars(s: string, i: nat, kind: Kind)
    requires i <= |s|
    ensures forall k | i <= k < NameEnd(s, i, kind) :: CharOf(kind, s[k], false)
    decreases |s| - i
  {
    if i < |s| && CharOf(kind, s[i], false) { NameEndChars(s, i + 1, kind); }
  }

  predicate StandsAt(s: string, i: nat, t: string) {
    i + |t| <= |s| && s[i..i + |t|] == t
  }

  lemma PlaceholderIs(name: string, kind: Kind)
    ensures Placeholder(name, kind) == Opening(kind) + name + "}"
  {
  }

  lemma PartsOf(s: string, i: nat, open: string, name: string)
    requires StandsAt(s, i, open + name + "}")
    ensures var start := i + |open|; var end := start + |name|;
      end < |s| && s[i..start] == open && s[start..end] == name && s[end] == '}'
  {
    var whole := open + name + "}";
    assert whole[..|open|] == open && whole[|open|..|open| + |name|] == name && whole[|open| + |name|] == '}';
    var got := s[i..i + |whole|];
    SliceOfSlice(s, i, i + |whole|, 0, |open|);
    SliceOfSlice(s, i, i + |whole|, |open|, |open| + |name|);
    assert got[|open| + |name|] == s[i + |open| + |name|];
  }

  lemma SliceOfSlice(s: string, i: nat, n: nat, a: nat, b: nat)
    requires i <= n <= |s| && a <= b <= n - i
    ensures s[i..n][a..b] == s[i + a..i + b]
  {
    var l, r := s[i..n][a..b], s[i + a..i + b];
    forall k | 0 <= k < |l| ensures l[k] == r[k] { assert l[k] == s[i..n][a + k] == s[i + a + k]; }
  }

  lemma NameAtIs(s: string, i: nat, kind: Kind, name: string)
    requires i <= |s| && GoodName(name, kind) && StandsAt(s, i, Opening(kind) + name + "}")
    ensures NameAt(s, i, kind) == Some(name)
  {
    hide NameEnd, CharOf, GoodName, StandsAt, Opening;
    GoodNameIff(name, kind);
    PartsOf(s, i, Opening(kind), name);
    var start := i + |Opening(kind)|;
    var end := start + |name|;
    forall k | start <= k < end ensures CharOf(kind, s[k], false) { assert s[start..end][k - start] == s[k]; }
    assert s[start..end][0] == s[start];
    CharIff('}', kind);
    NameEndIs(s, start, end, kind);
  }

  lemma NameAtGood(s: string, i: nat, kind: Kind)
    requires i <= |s| && NameAt(s, i, kind).Some?
    ensures GoodName(NameAt(s, i, kind).value, kind)
  {
    hide NameEnd, CharOf, GoodName, Opening;
    var start := i + |Opening(kind)|;
    var end := NameEnd(s, start, kind);
    GoodNameIff(s[start..end], kind);
    NameEndChars(s, start, kind);
    NameStarts(s, start, kind);
    forall k | 0 <= k < end - start ensures s[start..end][k] == s[start + k] { }
  }

  /** A placeholder stands somewhere if and only if its text does, with a name of the pattern. */
  lemma NameAtIff(s: string, i: nat, kind: Kind, name: string)
    requires i <= |s|
    ensures NameAt(s, i, kind) == Some(name) <==> GoodName(name, kind) && StandsAt(s, i, Placeholder(name, kind))
  {
    hide NameAt, GoodName, Placeholder;
    PlaceholderIs(name, kind);
    if NameAt(s, i, kind) == Some(name) {
      NameAtMeans(s, i, kind);
      NameAtGood(s, i, kind);
    }
    if GoodName(name, kind) && StandsAt(s, i, Placeholder(name, kind)) { NameAtIs(s, i, kind, name); }
  }

  lemma NameStarts(s: string, i: nat, kind: Kind)
    requires i < |s| && CharOf(kind, s[i], true)
    ensures NameEnd(s, i, kind) > i
  {
    CharIff(s[i], kind);
  }

  /** Some placeholder stands at the start of the text. */
  ghost predicate Starts(t: string, kind: Kind) {
    exists name :: GoodName(name, kind) && IsPrefix(Placeholder(name, kind), t)
  }

  /** The pieces are the leftmost matches, one after another, and the characters at which none starts. */
  ghost predicate Pieces(ps: seq<Piece>, t: string, kind: Kind)
    decreases |ps|
  {
    if ps == [] then t == ""
    else match ps[0]
      case Plain(c) => t != "" && t[0] == c && !Starts(t, kind) && Pieces(ps[1..], t[1..], kind)
      case Ref(name) =>
        && GoodName(name, kind) && IsPrefix(Placeholder(name, kind), t)
        && Pieces(ps[1..], t[|Placeholder(name, kind)|..], kind)
  }

  lemma PrefixAt(s: string, i: nat, t: string)
    requires i <= |s|
    ensures IsPrefix(t, s[i..]) <==> StandsAt(s, i, t)
  {
    if |t| <= |s[i..]| { assert s[i..][..|t|] == s[i..i + |t|]; }
  }

  lemma StartsIff(s: string, i: nat, kind: Kind)
    requires i <= |s|
    ensures Starts(s[i..], kind) <==> NameAt(s, i, kind).Some?
  {
    hide NameAt, GoodName, Placeholder, IsPrefix;
    if NameAt(s, i, kind).Some? {
      var name := NameAt(s, i, kind).value;
      NameAtIff(s, i, kind, name);
      PrefixAt(s, i, Placeholder(name, kind));
    }
    forall name | GoodName(name, kind) && IsPrefix(Placeholder(name, kind), s[i..]) ensures NameAt(s, i, kind).Some? {
      NameAtIff(s, i, kind, name);
      PrefixAt(s, i, Placeholder(name, kind));
    }
  }

  /** So cutting a text is matching it against the pattern from left to right, in this one way. */
  lemma {:induction false} ScanIff(s: string, i: nat, kind: Kind, ps: seq<Piece>)
    requires i <= |s|
    ensures Scan(s, i, kind) == ps <==> Pieces(ps, s[i..], kind)
    decreases |ps|
  {
    hide Pieces, Scan, NameAt, Starts, GoodName, IsPrefix, StandsAt, Placeholder;
    ScanStep(s, i, kind, ps);
    PiecesStep(s, i, kind, ps);
    if ps != [] && i < |s| {
      if ps[0].Plain? {
        ScanIff(s, i + 1, kind, ps[1..]);
      } else if StandsAt(s, i, Placeholder(ps[0].name, kind)) {
        StandsInside(s, i, Placeholder(ps[0].name, kind));
        ScanIff(s, i + |Placeholder(ps[0].name, kind)|, kind, ps[1..]);
      }
    }
  }

  lemma StandsInside(s: string, i: nat, t: string)
    requires StandsAt(s, i, t)
    ensures i + |t| <= |s|
  {
  }

  lemma ScanStep(s: string, i: nat, kind: Kind, ps: seq<Piece>)
    requires i <= |s|
    ensures ps == [] || i == |s| ==> (Scan(s, i, kind) == ps <==> ps == [] && i == |s|)
    ensures ps != [] && i < |s| && ps[0].Plain? ==>
      (Scan(s, i, kind) == ps <==> s[i] == ps[0].c && NameAt(s, i, kind).None? && Scan(s, i + 1, kind) == ps[1..])
    ensures ps != [] && i < |s| && ps[0].Ref? ==>
      (Scan(s, i, kind) == ps <==>
        && NameAt(s, i, kind) == Some(ps[0].name) && i + |Opening(kind)| + |ps[0].name| + 1 <= |s|
        && Scan(s, i + |Opening(kind)| + |ps[0].name| + 1, kind) == ps[1..])
  {
    hide NameAt, Opening;
    if ps != [] { assert ps == [ps[0]] + ps[1..]; }
  }

  lemma PiecesStep(s: string, i: nat, kind: Kind, ps: seq<Piece>)
    requires i <= |s|
    ensures ps == [] || i == |s| ==> (Pieces(ps, s[i..], kind) <==> ps == [] && i == |s|)
    ensures ps != [] && i < |s| && ps[0].Plain? ==>
      (Pieces(ps, s[i..], kind) <==> s[i] == ps[0].c && NameAt(s, i, kind).None? && Pieces(ps[1..], s[i + 1..], kind))
    ensures ps != [] && i < |s| && ps[0].Ref? ==>
      |Placeholder(ps[0].name, kind)| == |Opening(kind)| + |ps[0].name| + 1
      && (NameAt(s, i, kind) == Some(ps[0].name) ==> StandsAt(s, i, Placeholder(ps[0].name, kind)))
      && (Pieces(ps, s[i..], kind) <==>
        && NameAt(s, i, kind) == Some(ps[0].name) && i + |Placeholder(ps[0].name, kind)| <= |s|
        && Pieces(ps[1..], s[i + |Placeholder(ps[0].name, kind)|..], kind))
  {
    hide NameAt, Starts, GoodName, IsPrefix, Placeholder, Opening;
    if ps != [] && ps[0].Plain? {
      StartsIff(s, i, kind);
      if i < |s| { assert s[i..][1..] == s[i + 1..]; }
    } else if ps != [] {
      var name := ps[0].name;
      NameAtIff(s, i, kind, name);
      PrefixAt(s, i, Placeholder(name, kind));
      PlaceholderLength(name, kind);
      if i == |s| { NothingAtEnd(name, kind); }
      if StandsAt(s, i, Placeholder(name, kind)) {
        assert s[i..][|Placeholder(name, kind)|..] == s[i + |Placeholder(name, kind)|..];
      }
    }
  }

  lemma PlaceholderLength(name: string, kind: Kind)
    ensures |Placeholder(name, kind)| == |Opening(kind)| + |name| + 1
  {
  }

  lemma NothingAtEnd(name: string, kind: Kind)
    ensures !IsPrefix(Placeholder(name, kind), "")
  {
  }

  /** A placeholder with any valid name is found wherever none before it reaches into it, and replaced. */
  lemma PlaceholderReplaced(name: string, after: string, kind: Kind, resolve: Resolver, fallback: string)
    requires GoodName(name, kind)
    ensures var t := Placeholder(name, kind) + after;
      && name in Refs(Scan(t, 0, kind))
      && Fill(Scan(t, 0, kind), resolve, fallback)
           == (if resolve(name).Some? then resolve(name).value else fallback) + Fill(Scan(after, 0, kind), resolve, fallback)
  {
    hide GoodName, Scan, Starts, Pieces;
    var t := Placeholder(name, kind) + after;
    var rest := Scan(after, 0, kind);
    assert after[0..] == after && t[0..] == t;
    ScanIff(after, 0, kind, rest);
    assert t[|Placeholder(name, kind)|..] == after && IsPrefix(Placeholder(name, kind), t);
    RefInFront(name, rest, t, kind);
    ScanIff(t, 0, kind, [Ref(name)] + rest);
    assert ([Ref(name)] + rest)[1..] == rest;
  }

  lemma RefInFront(name: string, rest: seq<Piece>, t: string, kind: Kind)
    requires GoodName(name, kind) && IsPrefix(Placeholder(name, kind), t) && Pieces(rest, t[|Placeholder(name, kind)|..], kind)
    ensures Pieces([Ref(name)] + rest, t, kind)
  {
    hide GoodName, Starts, IsPrefix, Placeholder;
    assert ([Ref(name)] + rest)[1..] == rest;
  }

  /** A value that is just a placeholder expands to what it stands for, and to nothing if there is nothing. */
  lemma PlaceholderExpands(name: string, kind: Kind, resolve: Resolver)
    requires GoodName(name, kind)
    ensures Expand(Text(Placeholder(name, kind)), kind, resolve, "")
      == Text(if resolve(name).Some? then resolve(name).value else "")
  {
    hide GoodName, Scan, Placeholder;
    var t := Placeholder(name, kind);
    assert t + "" == t;
    PlaceholderReplaced(name, "", kind, resolve, "");
    assert Fill(Scan("", 0, kind), resolve, "") == "" by { NothingScanned(kind); }
  }

  lemma NothingScanned(kind: Kind)
    ensures Scan("", 0, kind) == []
  {
  }

  lemma DollarFirst(s: string, i: nat, kind: Kind)
    requires i <= |s| && NameAt(s, i, kind).Some?
    ensures i + 2 < |s| && s[i] == '$' && s[i + 2] == if kind == Env then 'e' else 's'
  {
    var start := i + |Opening(kind)|;
    assert s[i..start][0] == s[i] && s[i..start][2] == s[i + 2];
    hide NameAt;
  }

  /** Text without a dollar sign has no placeholder. */
  lemma {:induction false} NoDollar(s: string, i: nat, kind: Kind)
    requires i <= |s| && forall k | i <= k < |s| :: s[k] != '$'
    ensures Refs(Scan(s, i, kind)) == {}
    decreases |s| - i
  {
    hide NameAt;
    if i < |s| {
      if NameAt(s, i, kind).Some? { DollarFirst(s, i, kind); }
      NoDollar(s, i + 1, kind);
    }
  }

  lemma NoDollarExpands(s: string, kind: Kind, resolve: Resolver)
    requires forall c | c in s :: c != '$'
    ensures Expand(Text(s), kind, resolve, "") == Text(s)
  {
    hide Scan;
    assert forall k | 0 <= k < |s| :: s[k] in s;
    NoDollar(s, 0, kind);
    ExpandNothing(Text(s), kind, resolve, "");
  }

  lemma PlaceholderChars(name: string, kind: Kind)
    requires GoodName(name, kind)
    ensures var t := Placeholder(name, kind);
      && |t| > 2 && t[0] == '$' && t[2] == (if kind == Env then 'e' else 's')
      && forall k | 1 <= k < |t| :: t[k] != '$'
  {
    NoDollarInNames(name, kind);
    hide GoodName;
  }

  /** A placeholder of one kind is no placeholder of the other. */
  lemma OtherKind(name: string, kind: Kind, other: Kind)
    requires GoodName(name, kind) && kind != other
    ensures Refs(Scan(Placeholder(name, kind), 0, other)) == {}
  {
    hide GoodName, Placeholder, NameAt;
    var t := Placeholder(name, kind);
    PlaceholderChars(name, kind);
    if NameAt(t, 0, other).Some? { DollarFirst(t, 0, other); }
    NoDollar(t, 1, other);
  }

  lemma NoDollarInNames(name: string, kind: Kind)
    requires GoodName(name, kind)
    ensures forall k | 0 <= k < |name| :: name[k] != '$'
  {
    var c := '$';
    UpperIff(c);
    LowerIff(c);
    NumeralIff(c);
  }

  // ---- The finder finds what the expander asks for ----

  lemma {:induction false} ScanWritten(s: string, i: nat, kind: Kind)
    requires i <= |s|
    ensures Written(Scan(s, i, kind), kind) == s[i..]
    decreases |s| - i
  {
    hide NameAt;
    if i < |s| {
      var name := NameAt(s, i, kind);
      if name.Some? { NameAtMeans(s, i, kind); }
      var next := if name.Some? then i + |Opening(kind)| + |name.value| + 1 else i + 1;
      ScanWritten(s, next, kind);
      assert s[i..] == s[i..next] + s[next..];
    }
  }

  /** Without references, filling writes the text back. */
  lemma {:induction false} FillNothing(ps: seq<Piece>, kind: Kind, resolve: Resolver, fallback: string)
    requires Refs(ps) == {}
    ensures Fill(ps, resolve, fallback) == Written(ps, kind)
  {
    if ps != [] {
      FillNothing(ps[1..], kind, resolve, fallback);
    }
  }

  lemma {:induction false} ExpandNothing(t: Tree, kind: Kind, resolve: Resolver, fallback: string)
    requires Names(t, kind) == {}
    ensures Expand(t, kind, resolve, fallback) == t
    decreases t
  {
    match t
    case Other(_) =>
    case Text(s) =>
      FillNothing(Scan(s, 0, kind), kind, resolve, fallback);
      ScanWritten(s, 0, kind);
    case List(es) =>
      forall k | 0 <= k < |es| ensures Expand(es[k], kind, resolve, fallback) == es[k] {
        assert forall n | n in Names(es[k], kind) :: n in Names(t, kind);
        ExpandNothing(es[k], kind, resolve, fallback);
      }
    case Dict(m) =>
      forall k | k in m ensures Expand(m[k], kind, resolve, fallback) == m[k] {
        assert forall n | n in Names(m[k], kind) :: n in Names(t, kind);
        ExpandNothing(m[k], kind, resolve, fallback);
      }
  }

  /** Two resolvers with two fallbacks give `name` the same text. */
  predicate Alike(a: Resolver, fa: string, b: Resolver, fb: string, name: string) {
    (if a(name).Some? then a(name).value else fa) == (if b(name).Some? then b(name).value else fb)
  }

  lemma {:induction false} FillAlike(ps: seq<Piece>, a: Resolver, fa: string, b: Resolver, fb: string)
    requires forall n | n in Refs(ps) :: Alike(a, fa, b, fb, n)
    ensures Fill(ps, a, fa) == Fill(ps, b, fb)
  {
    if ps != [] {
      assert ps[0].Ref? ==> ps[0].name in Refs(ps);
      FillAlike(ps[1..], a, fa, b, fb);
    }
  }

  /** Nothing but the names found is asked for. */
  lemma {:induction false} ExpandAlike(t: Tree, kind: Kind, a: Resolver, fa: string, b: Resolver, fb: string)
    requires forall n | n in Names(t, kind) :: Alike(a, fa, b, fb, n)
    ensures Expand(t, kind, a, fa) == Expand(t, kind, b, fb)
    decreases t
  {
    hide Alike;
    match t
    case Other(_) =>
    case Text(s) => FillAlike(Scan(s, 0, kind), a, fa, b, fb);
    case List(es) =>
      forall k | 0 <= k < |es| ensures Expand(es[k], kind, a, fa) == Expand(es[k], kind, b, fb) {
        assert forall n | n in Names(es[k], kind) :: n in Names(t, kind);
        ExpandAlike(es[k], kind, a, fa, b, fb);
      }
    case Dict(m) =>
      forall k | k in m ensures Expand(m[k], kind, a, fa) == Expand(m[k], kind, b, fb) {
        assert forall n | n in Names(m[k], kind) :: n in Names(t, kind);
        ExpandAlike(m[k], kind, a, fa, b, fb);
      }
  }

  // ---- Every name found is asked for ----

  const NOBODY: Resolver := (name: string) => None

  /** A resolver that knows one name only. */
  function Only(name: string): Resolver {
    (n: string) => if n == name then Some("x") else None
  }

  lemma {:induction false} FillLonger(ps: seq<Piece>, name: string)
    ensures |Fill(ps, Only(name), "")| >= |Fill(ps, NOBODY, "")|
    ensures name in Refs(ps) ==> |Fill(ps, Only(name), "")| > |Fill(ps, NOBODY, "")|
  {
    if ps != [] {
      FillLonger(ps[1..], name);
    }
  }

  lemma {:induction false} ExpandDiffers(t: Tree, kind: Kind, name: string)
    requires name in Names(t, kind)
    ensures Expand(t, kind, Only(name), "") != Expand(t, kind, NOBODY, "")
    decreases t
  {
    match t
    case Text(s) => FillLonger(Scan(s, 0, kind), name);
    case List(es) =>
      var k :| 0 <= k < |es| && name in Names(es[k], kind);
      ExpandDiffers(es[k], kind, name);
      assert Expand(t, kind, Only(name), "").elements[k] != Expand(t, kind, NOBODY, "").elements[k];
    case Dict(m) =>
      var k :| k in m && name in Names(m[k], kind);
      ExpandDiffers(m[k], kind, name);
      assert Expand(t, kind, Only(name), "").entries[k] != Expand(t, kind, NOBODY, "").entries[k];
  }

  /** Expansion depends on what the resolver says about `name`. */
  ghost predicate DependsOn(t: Tree, kind: Kind, name: string) {
    exists a: Resolver, b: Resolver :: SameBut(a, b, name) && Expand(t, kind, a, "") != Expand(t, kind, b, "")
  }

  ghost predicate SameBut(a: Resolver, b: Resolver, name: string) {
    forall n | n != name :: a(n) == b(n)
  }

  /** The names found are exactly the names the expander asks for. */
  lemma FoundIffAskedFor(t: Tree, kind: Kind, name: string)
    ensures name in Names(t, kind) <==> DependsOn(t, kind, name)
  {
    if name in Names(t, kind) {
      ExpandDiffers(t, kind, name);
      assert SameBut(Only(name), NOBODY, name);
    } else {
      forall a: Resolver, b: Resolver | SameBut(a, b, name)
        ensures Expand(t, kind, a, "") == Expand(t, kind, b, "")
      {
        ExpandAlike(t, kind, a, "", b, "");
      }
    }
  }

  // ---- The check before an apply ----

  /** The check before an apply: every secret found in the candidate exists. */
  ghost predicate PreChecked(t: Tree, secrets: Resolver) {
    forall n | n in Names(t, Secret) :: secrets(n).Some?
  }

  /** The expansion of `t` never uses the empty text it has for a missing secret. */
  ghost predicate NeverFallsBack(t: Tree, env: Resolver, secrets: Resolver) {
    forall n | n in Names(Expand(t, Env, env, ""), Secret) :: secrets(n).Some?
  }

  /** What never falling back means: the text put in for a miss makes no difference. */
  lemma NeverFallsBackMeans(t: Tree, env: Resolver, secrets: Resolver, fallback: string)
    requires NeverFallsBack(t, env, secrets)
    ensures Expand(Expand(t, Env, env, ""), Secret, secrets, fallback) == ApplyExpansions(t, env, secrets)
  {
    ExpandAlike(Expand(t, Env, env, ""), Secret, secrets, fallback, secrets, "");
  }

  /** On a value without `${env:}` placeholders the check passes only if no miss is papered over. */
  lemma PreCheckSuffices(t: Tree, env: Resolver, secrets: Resolver)
    requires Names(t, Env) == {}
    ensures PreChecked(t, secrets) <==> NeverFallsBack(t, env, secrets)
  {
    ExpandNothing(t, Env, env, "");
  }

  /**
   In general the check is reliable, whatever secrets exist, exactly when the environment
   brings no secret reference of its own.
   */
  lemma PreCheckReliableIff(t: Tree, env: Resolver)
    ensures (forall secrets: Resolver :: PreChecked(t, secrets) ==> NeverFallsBack(t, env, secrets))
      <==> Names(Expand(t, Env, env, ""), Secret) <= Names(t, Secret)
  {
    var known := Names(t, Secret);
    var exactly: Resolver := (n: string) => if n in known then Some("") else None;
    if forall secrets: Resolver :: PreChecked(t, secrets) ==> NeverFallsBack(t, env, secrets) {
      assert PreChecked(t, exactly);
      assert NeverFallsBack(t, env, exactly);
    }
  }

  /** An environment that holds a secret placeholder. */
  const SMUGGLER: Resolver := (name: string) => Some("${secret:B}")

  /** The check can fail: such a variable slips through. */
  lemma EnvironmentSlipsThrough()
    ensures PreChecked(Text("${env:A}"), NOBODY) && !NeverFallsBack(Text("${env:A}"), SMUGGLER, NOBODY)
  {
    var t, s := "${env:A}", "${secret:B}";
    NoSecretHere(t, 0);
    OneEnv();
    OneSecret();
    assert Expand(Text(t), Env, SMUGGLER, "") == Text(s);
    assert "B" in Names(Text(s), Secret);
  }

  lemma OneEnv()
    ensures Fill(Scan("${env:A}", 0, Env), SMUGGLER, "") == "${secret:B}"
  {
    var t := "${env:A}";
    assert NameEnd(t, 6, Env) == NameEnd(t, 7, Env) == 7;
    assert t[0..6] == "${env:" && t[6..7] == "A";
    assert NameAt(t, 0, Env) == Some("A");
    assert Scan(t, 8, Env) == [];
    assert Scan(t, 0, Env) == [Ref("A")];
    assert [Ref("A")][1..] == [];
    assert "${secret:B}" + "" == "${secret:B}";
  }

  lemma OneSecret()
    ensures "B" in Refs(Scan("${secret:B}", 0, Secret))
  {
    var s := "${secret:B}";
    assert NameEnd(s, 9, Secret) == NameEnd(s, 10, Secret) == 10;
    assert s[0..9] == "${secret:" && s[9..10] == "B";
    assert NameAt(s, 0, Secret) == Some("B");
  }

  lemma {:induction false} NoSecretHere(s: string, i: nat)
    requires i <= |s| < |Opening(Secret)|
    ensures Refs(Scan(s, i, Secret)) == {}
    decreases |s| - i
  {
    if i < |s| { NoSecretHere(s, i + 1); }
  }
}
