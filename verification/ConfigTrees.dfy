/** JSON-shaped configuration values, and the rule for names in them. */
module ConfigTrees {

  /** A JSON value; `Other` is a number, a boolean or null. */
  datatype Tree = Other(literal: string) | Text(text: string) | List(elements: seq<Tree>) | Dict(entries: map<string, Tree>)

  type Payload = map<string, Tree>

  const MAX_NAME := 128

  predicate NameStart(c: char) {
    'A' <= c <= 'Z' || 'a' <= c <= 'z' || '0' <= c <= '9' || c == '_'
  }

  predicate NameChar(c: char) {
    NameStart(c) || c == '-'
  }

  /** `[A-Za-z0-9_][A-Za-z0-9_-]*` between `^` and `$`, where `$` lets one last line break pass. */
  predicate ValidName(name: string) {
    var body := if name != "" && name[|name| - 1] == '\n' then name[..|name| - 1] else name;
    0 < |name| <= MAX_NAME && NameBody(body)
  }

  predicate NameBody(body: string) {
    body != "" && NameStart(body[0]) && forall k | 0 <= k < |body| :: NameChar(body[k])
  }

  const UPPER := "ABCDEFGHIJKLMNOPQRSTUVWXYZ"
  const LOWER := "abcdefghijklmnopqrstuvwxyz"
  const NUMERALS := "0123456789"

  lemma UpperIff(c: char)
    ensures c in UPPER <==> 'A' <= c <= 'Z'
  {
    var letters := UPPER;
    if 'A' <= c <= 'Z' { assert letters[c as int - 'A' as int] == c; }
  }

  lemma LowerIff(c: char)
    ensures c in LOWER <==> 'a' <= c <= 'z'
  {
    if 'a' <= c <= 'z' { assert LOWER[c as int - 'a' as int] == c; }
  }

  lemma NumeralIff(c: char)
    ensures c in NUMERALS <==> '0' <= c <= '9'
  {
    if '0' <= c <= '9' { assert NUMERALS[c as int - '0' as int] == c; }
  }

  predicate Spelled(c: char) {
    c in UPPER || c in LOWER || c in NUMERALS || c == '_' || c == '-'
  }

  lemma SpelledIff(c: char)
    ensures NameChar(c) <==> Spelled(c)
    ensures NameStart(c) <==> Spelled(c) && c != '-'
    ensures Spelled(c) ==> c != '\n'
  {
    UpperIff(c);
    LowerIff(c);
    NumeralIff(c);
  }

  /** The letters, digits, underscores and hyphens of a name, the last of which may not come first. */
  predicate Word(body: string) {
    body != "" && body[0] != '-' && forall k | 0 <= k < |body| :: Spelled(body[k])
  }

  /** The rule lets exactly such words through, of up to 128 characters, and one line break after them. */
  lemma ValidNameIff(name: string)
    ensures ValidName(name) <==>
      |name| <= 128 && (Word(name) || (name != "" && name[|name| - 1] == '\n' && Word(name[..|name| - 1])))
  {
    hide NameBody, NameChar, NameStart, Spelled;
    var ends := name != "" && name[|name| - 1] == '\n';
    var body := if ends then name[..|name| - 1] else name;
    WordIff(body);
    assert ValidName(name) <==> 0 < |name| <= 128 && Word(body);
    if ends {
      SpelledIff('\n');
      assert !Word(name);
    }
  }

  lemma WordIff(body: string)
    ensures Word(body) <==> NameBody(body)
  {
    forall k | 0 <= k < |body| ensures NameChar(body[k]) <==> Spelled(body[k]) { SpelledIff(body[k]); }
    if body != "" { SpelledIff(body[0]); }
    hide NameChar, NameStart, Spelled;
  }

  predicate ZerosTo(literal: string, n: nat)
    requires n <= |literal|
  {
    forall k | 0 <= k < n :: literal[k] == '0' || literal[k] == '.' || literal[k] == '-'
  }

  /** The text of a number that is zero: no other digit before its exponent. */
  predicate IsZero(literal: string) {
    exists n | 0 < n <= |literal| :: ZerosTo(literal, n) && (n == |literal| || literal[n] == 'e' || literal[n] == 'E')
  }

  /** What Python takes for false. */
  predicate Falsy(t: Tree) {
    match t
    case Other(literal) => literal == "null" || literal == "false" || IsZero(literal)
    case Text(text) => text == ""
    case List(elements) => elements == []
    case Dict(entries) => entries == map[]
  }

  /** Nothing that holds something is false, nor is a number with another digit first. */
  lemma FalsyIff(t: Tree)
    ensures Falsy(t) <==>
      || t == Other("null") || t == Other("false") || t == Text("") || t == List([]) || t == Dict(map[])
      || (t.Other? && IsZero(t.literal))
    ensures Falsy(Other("0")) && Falsy(Other("0.0")) && Falsy(Other("-0.0e1"))
    ensures t.Other? && t.literal != "" && ('1' <= t.literal[0] <= '9' || t.literal == "true") ==> !Falsy(t)
  {
    assert ZerosTo("0", 1) && ZerosTo("0.0", 3) && ZerosTo("-0.0e1", 4);
  }

  /** A number is zero if and only if it has no other digit before its exponent, if it has one. */
  lemma ZeroIff(mantissa: string, exponent: string)
    requires mantissa != "" && forall k | 0 <= k < |mantissa| :: mantissa[k] in "-.0123456789"
    requires exponent != "" ==> exponent[0] in "eE"
    ensures IsZero(mantissa + exponent) <==> forall k | 0 <= k < |mantissa| :: mantissa[k] in "-.0"
  {
    var t, n := mantissa + exponent, |mantissa|;
    assert forall k | 0 <= k < n :: t[k] == mantissa[k];
    if forall k | 0 <= k < n :: mantissa[k] in "-.0" {
      assert ZerosTo(t, n);
    }
    if IsZero(t) {
      var m :| 0 < m <= |t| && ZerosTo(t, m) && (m == |t| || t[m] == 'e' || t[m] == 'E');
      assert m >= n;
    }
  }

  /** The entry `key`, or an empty dict where Python's `or {}` puts one. */
  function EntryOrEmpty(p: Payload, key: string): (t: Tree)
  {
    if key !in p || Falsy(p[key]) then Dict(map[]) else p[key]
  }
}
