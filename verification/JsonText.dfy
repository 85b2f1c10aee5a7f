/**
 The texts accepted by Python's `json.JSONDecoder.raw_decode`, as a recogniser that gives
 the length of the value a text starts with. The decoded value is a function of that part
 of the text, so a message is represented by its own text.
 */
module JsonText {
  import opened Prelude

  type Text = string

  /** RFC 8259 white space, the only white space the decoder skips inside a value. */
  predicate JsonSpace(c: char) {
    c == ' ' || c == '\t' || c == '\n' || c == '\r'
  }

  predicate Digit(c: char) {
    '0' <= c <= '9'
  }

  predicate HexDigit(c: char) {
    Digit(c) || 'a' <= c <= 'f' || 'A' <= c <= 'F'
  }

  /** The length of the white space at `s[i..]`, added to `i`. */
  function Skip(s: Text, i: nat): (j: nat)
    requires i <= |s|
    ensures i <= j <= |s|
    ensures j < |s| ==> !JsonSpace(s[j])
    decreases |s| - i
  {
    if i < |s| && JsonSpace(s[i]) then Skip(s, i + 1) else i
  }

  /** The index after the closing quote; `i` is inside the string. */
  function StringBody(s: Text, i: nat): (r: Option<nat>)
    requires i <= |s|
    ensures r.Some? ==> i < r.value <= |s|
    decreases |s| - i
  {
    if i == |s| || s[i] < ' ' then None
    else if s[i] == '"' then Some(i + 1)
    else if s[i] != '\\' then StringBody(s, i + 1)
    else if i + 1 == |s| then None
    else if s[i + 1] in "\"\\/bfnrt" then StringBody(s, i + 2)
    else if s[i + 1] == 'u' && i + 6 <= |s| && Hex4(s, i + 2) then StringBody(s, i + 6)
    else None
  }

  predicate Hex4(s: Text, i: nat)
    requires i + 4 <= |s|
  {
    HexDigit(s[i]) && HexDigit(s[i + 1]) && HexDigit(s[i + 2]) && HexDigit(s[i + 3])
  }

  function Digits(s: Text, i: nat): (j: nat)
    requires i <= |s|
    ensures i <= j <= |s|
    ensures i < |s| && Digit(s[i]) ==> i < j
    decreases |s| - i
  {
    if i < |s| && Digit(s[i]) then Digits(s, i + 1) else i
  }

  /** The optional fraction of a number: taken only when a digit follows the point. */
  function Fraction(s: Text, i: nat): (j: nat)
    requires i <= |s|
    ensures i <= j <= |s|
  {
    if i + 1 < |s| && s[i] == '.' && Digit(s[i + 1]) then Digits(s, i + 1) else i
  }

  /** The optional exponent of a number: taken only when it has a digit. */
  function Exponent(s: Text, i: nat): (j: nat)
    requires i <= |s|
    ensures i <= j <= |s|
  {
    if i + 1 < |s| && s[i] in "eE" && Digit(s[i + 1]) then Digits(s, i + 1)
    else if i + 2 < |s| && s[i] in "eE" && s[i + 1] in "+-" && Digit(s[i + 2]) then Digits(s, i + 2)
    else i
  }

  function Number(s: Text, i: nat): (r: Option<nat>)
    requires i <= |s|
    ensures r.Some? ==> i < r.value <= |s|
  {
    var body := if i < |s| && s[i] == '-' then i + 1 else i;
    if body == |s| || !Digit(s[body]) then None
    else
      var whole := if s[body] == '0' then body + 1 else Digits(s, body);
      Some(Exponent(s, Fraction(s, whole)))
  }

  /** Whether `word` stands at `s[i..]`. */
  predicate At(s: Text, i: nat, word: Text) {
    i + |word| <= |s| && forall k | 0 <= k < |word| :: s[i + k] == word[k]
  }

  /** The bare words the decoder knows, RFC 8259's three and Python's three, by first letter. */
  function WordFor(c: char): (word: Text)
    ensures word != "" ==> word[0] == c
  {
    match c
    case 'n' => "null"
    case 't' => "true"
    case 'f' => "false"
    case 'N' => "NaN"
    case 'I' => "Infinity"
    case '-' => "-Infinity"
    case _ => ""
  }

  function Word(s: Text, i: nat): (r: Option<nat>)
    requires i < |s|
    ensures r.Some? ==> i < r.value <= |s|
  {
    var word := WordFor(s[i]);
    if word != "" && At(s, i, word) then Some(i + |word|) else None
  }

  /** The index after the value that starts at `i`, if there is one. */
  function Value(s: Text, i: nat): (r: Option<nat>)
    requires i <= |s|
    ensures r.Some? ==> i < r.value <= |s|
    decreases |s| - i, 1
  {
    if i == |s| then None
    else if s[i] == '"' then StringBody(s, i + 1)
    else if s[i] == '{' then
      var j := Skip(s, i + 1);
      if j < |s| && s[j] == '}' then Some(j + 1) else Members(s, j)
    else if s[i] == '[' then
      var j := Skip(s, i + 1);
      if j < |s| && s[j] == ']' then Some(j + 1) else Elements(s, j)
    else if Word(s, i).Some? then Word(s, i)
    else Number(s, i)
  }

  /** The index of what follows one member, its value and the white space after it. */
  function Member(s: Text, i: nat): (r: Option<nat>)
    requires i <= |s|
    ensures r.Some? ==> i < r.value < |s|
    decreases |s| - i, 0
  {
    if i == |s| || s[i] != '"' || StringBody(s, i + 1).None? then None
    else
      var colon := Skip(s, StringBody(s, i + 1).value);
      if colon == |s| || s[colon] != ':' then None
      else Item(s, Skip(s, colon + 1))
  }

  /** The index of what follows one value and the white space after it. */
  function Item(s: Text, i: nat): (r: Option<nat>)
    requires i <= |s|
    ensures r.Some? ==> i < r.value < |s|
    decreases |s| - i, 2
  {
    var value := Value(s, i);
    if value.Some? && Skip(s, value.value) < |s| then Some(Skip(s, value.value)) else None
  }

  /** The index after one or more members and the closing brace of an object. */
  function Members(s: Text, i: nat): (r: Option<nat>)
    requires i <= |s|
    ensures r.Some? ==> i < r.value <= |s|
    decreases |s| - i, 1
  {
    var next := Member(s, i);
    if next.None? then None
    else if s[next.value] == '}' then Some(next.value + 1)
    else if s[next.value] == ',' then Members(s, Skip(s, next.value + 1))
    else None
  }

  /** The index after one or more elements and the closing bracket of an array. */
  function Elements(s: Text, i: nat): (r: Option<nat>)
    requires i <= |s|
    ensures r.Some? ==> i < r.value <= |s|
    decreases |s| - i, 3
  {
    var next := Item(s, i);
    if next.None? then None
    else if s[next.value] == ']' then Some(next.value + 1)
    else if s[next.value] == ',' then Elements(s, Skip(s, next.value + 1))
    else None
  }

  // ---- A value that is complete stays what it is, whatever the text is a window of ----

  /**
   From `i` on, `s` is a window of `w`: `s[k]` stands at `w[d + k]`. The decoder sees such
   windows: its buffer starts where an earlier buffer was dropped and ends where a chunk ends.
   */
  ghost predicate Window(s: Text, w: Text, d: int, i: nat) {
    i <= |s| && 0 <= d + i && d + |s| <= |w| && forall k | i <= k < |s| :: s[k] == w[d + k]
  }

  /** A character that no number goes on with: what follows a value in a container. */
  predicate Stops(c: char) {
    JsonSpace(c) || c == ',' || c == '}' || c == ']'
  }

  lemma {:induction false} SkipInWindow(s: Text, w: Text, d: int, i: nat)
    requires Window(s, w, d, i) && Skip(s, i) < |s|
    ensures Skip(w, d + i) == d + Skip(s, i)
    decreases |s| - i
  {
    if JsonSpace(s[i]) { SkipInWindow(s, w, d, i + 1); }
  }

  lemma {:induction false} StringInWindow(s: Text, w: Text, d: int, i: nat)
    requires Window(s, w, d, i) && StringBody(s, i).Some?
    ensures StringBody(w, d + i) == Some(d + StringBody(s, i).value)
    decreases |s| - i
  {
    if s[i] == '"' {
    } else if s[i] != '\\' {
      StringInWindow(s, w, d, i + 1);
    } else if s[i + 1] != 'u' {
      StringInWindow(s, w, d, i + 2);
    } else {
      StringInWindow(s, w, d, i + 6);
    }
  }

  /** Nothing at `e` can prolong a number. */
  predicate Stopped(s: Text, e: int) {
    0 <= e && (e >= |s| || Stops(s[e]))
  }

  /** `s[i..e]` also stands at `w[d + i..]`. */
  ghost predicate Same(s: Text, w: Text, d: int, i: nat, e: nat) {
    i <= e <= |s| && 0 <= d + i && d + e <= |w| && forall k | i <= k < e :: s[k] == w[d + k]
  }

  lemma {:induction false} DigitsAgree(s: Text, w: Text, d: int, i: nat)
    requires i <= |s| && Same(s, w, d, i, Digits(s, i))
    requires d + Digits(s, i) == |w| || !Digit(w[d + Digits(s, i)])
    ensures Digits(w, d + i) == d + Digits(s, i)
    decreases |s| - i
  {
    if i < |s| && Digit(s[i]) {
      DigitsAgree(s, w, d, i + 1);
    }
  }

  lemma FractionAgrees(s: Text, w: Text, d: int, i: nat)
    requires i <= |s| && Same(s, w, d, i, Fraction(s, i))
    requires Stopped(w, d + Fraction(s, i)) || w[d + Fraction(s, i)] in "eE"
    ensures Fraction(w, d + i) == d + Fraction(s, i)
  {
    if Fraction(s, i) != i {
      DigitsAgree(s, w, d, i + 1);
    }
  }

  lemma ExponentAgrees(s: Text, w: Text, d: int, i: nat)
    requires i <= |s| && Same(s, w, d, i, Exponent(s, i)) && Stopped(w, d + Exponent(s, i))
    ensures Exponent(w, d + i) == d + Exponent(s, i)
  {
    if Exponent(s, i) != i {
      DigitsAgree(s, w, d, if Digit(s[i + 1]) then i + 1 else i + 2);
    }
  }

  /** A number is the same number wherever it stands and nothing prolongs it. */
  lemma NumberAgrees(s: Text, w: Text, d: int, i: nat)
    requires i <= |s| && Number(s, i).Some? && Same(s, w, d, i, Number(s, i).value)
    requires Stopped(w, d + Number(s, i).value)
    ensures Number(w, d + i) == Some(d + Number(s, i).value)
  {
    hide Digits, Fraction, Exponent;
    var body := if s[i] == '-' then i + 1 else i;
    var whole := if s[body] == '0' then body + 1 else Digits(s, body);
    var point := Fraction(s, whole);
    ExponentAgrees(s, w, d, point);
    ExponentStart(s, w, d, point);
    FractionAgrees(s, w, d, whole);
    FractionStart(s, w, d, whole);
    if s[body] != '0' {
      DigitsAgree(s, w, d, body);
    }
    assert w[d + i] == s[i] && w[d + body] == s[body];
  }

  lemma ExponentStart(s: Text, w: Text, d: int, i: nat)
    requires i <= |s| && Same(s, w, d, i, Exponent(s, i)) && Stopped(w, d + Exponent(s, i))
    ensures Stopped(w, d + i) || w[d + i] in "eE"
  {
  }

  lemma FractionStart(s: Text, w: Text, d: int, i: nat)
    requires i <= |s| && Same(s, w, d, i, Fraction(s, i))
    requires Stopped(w, d + Fraction(s, i)) || w[d + Fraction(s, i)] in "eE"
    ensures d + i >= |w| || !Digit(w[d + i])
  {
  }

  /**
   Stability: a value found in a window is the value the whole text has there, provided
   the window shows where a number ends.
   */
  lemma {:induction false} ValueInWindow(s: Text, w: Text, d: int, i: nat)
    requires Window(s, w, d, i) && Value(s, i).Some?
    requires s[i] == '{' || (Value(s, i).value < |s| && Stops(s[Value(s, i).value]))
    ensures Value(w, d + i) == Some(d + Value(s, i).value)
    decreases |s| - i, 1
  {
    hide Skip, StringBody, Elements, Members, Number, Word;
    if s[i] == '"' {
      StringInWindow(s, w, d, i + 1);
    } else if s[i] == '{' || s[i] == '[' {
      SkipInWindow(s, w, d, i + 1);
      var j := Skip(s, i + 1);
      if s[i] == '{' && s[j] != '}' { MembersInWindow(s, w, d, j); }
      if s[i] == '[' && s[j] != ']' { ElementsInWindow(s, w, d, j); }
    } else {
      WordInWindow(s, w, d, i);
      if Word(s, i).None? { NumberAgrees(s, w, d, i); }
    }
  }

  /** A word is found as it is, and the digit after a minus sign rules `-Infinity` out. */
  lemma WordInWindow(s: Text, w: Text, d: int, i: nat)
    requires i < |s| && Window(s, w, d, i)
    requires Word(s, i).Some? || Number(s, i).Some?
    ensures Word(w, d + i) == if Word(s, i).Some? then Some(d + Word(s, i).value) else None
  {
    hide Digits, Fraction, Exponent;
    var word := WordFor(s[i]);
    if Word(s, i).Some? {
      assert At(w, d + i, word) by {
        forall k | 0 <= k < |word| ensures w[d + i + k] == word[k] { assert s[i + k] == word[k]; }
      }
    } else if s[i] == '-' {
      assert word[1] == 'I';
    }
  }

  lemma {:induction false} ItemInWindow(s: Text, w: Text, d: int, i: nat)
    requires Window(s, w, d, i) && Item(s, i).Some? && Stops(s[Item(s, i).value])
    ensures Item(w, d + i) == Some(d + Item(s, i).value)
    decreases |s| - i, 2
  {
    hide Value, Skip;
    var value := Value(s, i).value;
    SkipStops(s, value);
    ValueInWindow(s, w, d, i);
    SkipInWindow(s, w, d, value);
  }

  lemma {:induction false} MemberInWindow(s: Text, w: Text, d: int, i: nat)
    requires Window(s, w, d, i) && Member(s, i).Some? && Stops(s[Member(s, i).value])
    ensures Member(w, d + i) == Some(d + Member(s, i).value)
    decreases |s| - i, 0
  {
    hide Item, Skip, StringBody;
    StringInWindow(s, w, d, i + 1);
    var name := StringBody(s, i + 1).value;
    SkipInWindow(s, w, d, name);
    var colon := Skip(s, name);
    var start := Skip(s, colon + 1);
    SkipInWindow(s, w, d, colon + 1);
    ItemInWindow(s, w, d, start);
  }

  lemma {:induction false} MembersInWindow(s: Text, w: Text, d: int, i: nat)
    requires Window(s, w, d, i) && Members(s, i).Some?
    ensures Members(w, d + i) == Some(d + Members(s, i).value)
    decreases |s| - i, 1
  {
    hide Member, Skip;
    var next := Member(s, i).value;
    MemberInWindow(s, w, d, i);
    if s[next] == ',' {
      SkipInWindow(s, w, d, next + 1);
      MembersInWindow(s, w, d, Skip(s, next + 1));
    }
  }

  lemma {:induction false} ElementsInWindow(s: Text, w: Text, d: int, i: nat)
    requires Window(s, w, d, i) && Elements(s, i).Some?
    ensures Elements(w, d + i) == Some(d + Elements(s, i).value)
    decreases |s| - i, 3
  {
    hide Item, Skip;
    var next := Item(s, i).value;
    ItemInWindow(s, w, d, i);
    if s[next] == ',' {
      SkipInWindow(s, w, d, next + 1);
      ElementsInWindow(s, w, d, Skip(s, next + 1));
    }
  }

  lemma SkipStops(s: Text, i: nat)
    requires i <= |s| && Skip(s, i) < |s| && Stops(s[Skip(s, i)])
    ensures Stops(s[i])
  {
  }

  // ---- And it is that value still when the text ends right after it ----

  /** `t` is `s`, cut off somewhere. */
  ghost predicate Cut(t: Text, s: Text) {
    |t| <= |s| && forall k | 0 <= k < |t| :: t[k] == s[k]
  }

  lemma {:induction false} SkipCut(s: Text, t: Text, i: nat)
    requires Cut(t, s) && i <= |t| && Skip(s, i) <= |t|
    ensures Skip(t, i) == Skip(s, i)
    decreases |t| - i
  {
    if i < |t| && JsonSpace(t[i]) { SkipCut(s, t, i + 1); }
  }

  lemma {:induction false} StringCut(s: Text, t: Text, i: nat)
    requires Cut(t, s) && i <= |t| && StringBody(s, i).Some? && StringBody(s, i).value <= |t|
    ensures StringBody(t, i) == StringBody(s, i)
    decreases |t| - i
  {
    if s[i] == '"' {
    } else if s[i] != '\\' {
      StringCut(s, t, i + 1);
    } else if s[i + 1] != 'u' {
      StringCut(s, t, i + 2);
    } else {
      StringCut(s, t, i + 6);
    }
  }

  lemma WordCut(s: Text, t: Text, i: nat)
    requires Cut(t, s) && i < |t|
    ensures Word(s, i).Some? && Word(s, i).value <= |t| ==> Word(t, i) == Word(s, i)
    ensures Word(s, i).None? ==> Word(t, i).None?
  {
    var word := WordFor(s[i]);
    if word != "" && At(t, i, word) { assert At(s, i, word); }
  }

  lemma NumberCut(s: Text, t: Text, i: nat)
    requires Cut(t, s) && i < |t| && Number(s, i).Some?
    requires Number(s, i).value == |t| || (Number(s, i).value < |t| && Stops(s[Number(s, i).value]))
    ensures Number(t, i) == Number(s, i)
  {
    hide Number;
    NumberAgrees(s, t, 0, i);
  }

  lemma {:induction false} ValueCut(s: Text, t: Text, i: nat)
    requires Cut(t, s) && i < |t| && Value(s, i).Some? && Value(s, i).value <= |t|
    requires s[i] == '{' || Value(s, i).value == |t| || Stops(s[Value(s, i).value])
    ensures Value(t, i) == Value(s, i)
    decreases |t| - i, 1
  {
    hide Skip, StringBody, Elements, Members, Number, Word;
    if s[i] == '"' {
      StringCut(s, t, i + 1);
    } else if s[i] == '{' || s[i] == '[' {
      SkipCut(s, t, i + 1);
      var j := Skip(s, i + 1);
      if s[i] == '{' && s[j] != '}' { MembersCut(s, t, j); }
      if s[i] == '[' && s[j] != ']' { ElementsCut(s, t, j); }
    } else {
      WordCut(s, t, i);
      if Word(s, i).None? { NumberCut(s, t, i); }
    }
  }

  /** What ends an element or a member. */
  predicate Closes(c: char) {
    c == ',' || c == '}' || c == ']'
  }

  lemma {:induction false} ItemCut(s: Text, t: Text, i: nat)
    requires Cut(t, s) && i < |t| && Item(s, i).Some? && Item(s, i).value < |t| && Closes(s[Item(s, i).value])
    ensures Item(t, i) == Item(s, i)
    decreases |t| - i, 2
  {
    hide Value, Skip;
    var e := Value(s, i).value;
    SkipStops(s, e);
    ValueCut(s, t, i);
    SkipCut(s, t, e);
  }

  lemma {:induction false} MemberCut(s: Text, t: Text, i: nat)
    requires Cut(t, s) && i < |t| && Member(s, i).Some? && Member(s, i).value < |t| && Closes(s[Member(s, i).value])
    ensures Member(t, i) == Member(s, i)
    decreases |t| - i, 0
  {
    hide Item, StringBody, Skip;
    StringCut(s, t, i + 1);
    var e := StringBody(s, i + 1).value;
    SkipCut(s, t, e);
    var colon := Skip(s, e);
    SkipCut(s, t, colon + 1);
    ItemCut(s, t, Skip(s, colon + 1));
  }

  lemma {:induction false} MembersCut(s: Text, t: Text, i: nat)
    requires Cut(t, s) && i <= |t| && Members(s, i).Some? && Members(s, i).value <= |t|
    ensures Members(t, i) == Members(s, i)
    decreases |t| - i, 1
  {
    hide Member, Skip;
    var next := Member(s, i).value;
    MemberCut(s, t, i);
    if s[next] == ',' {
      SkipCut(s, t, next + 1);
      MembersCut(s, t, Skip(s, next + 1));
    }
  }

  lemma {:induction false} ElementsCut(s: Text, t: Text, i: nat)
    requires Cut(t, s) && i <= |t| && Elements(s, i).Some? && Elements(s, i).value <= |t|
    ensures Elements(t, i) == Elements(s, i)
    decreases |t| - i, 3
  {
    hide Item, Skip;
    var next := Item(s, i).value;
    ItemCut(s, t, i);
    if s[next] == ',' {
      SkipCut(s, t, next + 1);
      ElementsCut(s, t, Skip(s, next + 1));
    }
  }
}
