/** What `json.dumps` writes: texts of the grammar, which the decoder reads back, each on one line. */
module JsonDump {
  import opened Prelude
  import opened JsonText
  import opened DigitLimits
  import opened JsonGrammar

  /** A value to dump; an integer has no more digits than Python prints. */
  datatype Json =
    | JWord(word: Text)
    | JNumber(numeral: Numeral)
    | JString(chars: Text)
    | JArray(elements: seq<Json>)
    | JObject(members: seq<Field>)

  datatype Field = Field(name: Text, value: Json)

  predicate WellFormed(j: Json)
    decreases j, 1
  {
    match j
    case JWord(t) => GoodWord(t)
    case JNumber(n) => GoodNumeral(n) && !LongNumeral(n)
    case JString(_) => true
    case JArray(es) => AllWellFormed(es)
    case JObject(ms) => MembersWellFormed(ms)
  }

  predicate AllWellFormed(es: seq<Json>)
    decreases es, 0
  {
    es == [] || (WellFormed(es[0]) && AllWellFormed(es[1..]))
  }

  predicate MembersWellFormed(ms: seq<Field>)
    decreases ms, 0
  {
    ms == [] || (WellFormed(ms[0].value) && MembersWellFormed(ms[1..]))
  }

  // ---- Strings ----

  /** The four hexadecimal digits of a code unit. */
  function HexOf(n: int): (h: Text)
    requires 0 <= n < 0x1_0000
    ensures |h| == 4
  {
    var digits := "0123456789abcdef";
    [digits[n / 0x1000], digits[n / 0x100 % 0x10], digits[n / 0x10 % 0x10], digits[n % 0x10]]
  }

  /** The two surrogates of a character beyond the basic plane. */
  function Beyond(n: int): (xs: seq<Char>)
    requires 0x1_0000 <= n < 0x11_0000
    ensures |xs| == 2
  {
    [Hex(HexOf(0xD800 + (n - 0x1_0000) / 0x400 % 0x400)), Hex(HexOf(0xDC00 + (n - 0x1_0000) % 0x400))]
  }

  /** One character as `json.dumps` escapes it with `ensure_ascii`. */
  function Escape(c: char): (xs: seq<Char>)
    ensures xs != []
  {
    var n := c as int;
    if c == '"' then [Short('"')]
    else if c == '\\' then [Short('\\')]
    else if c == '\n' then [Short('n')]
    else if c == '\r' then [Short('r')]
    else if c == '\t' then [Short('t')]
    else if n == 8 then [Short('b')]
    else if n == 12 then [Short('f')]
    else if ' ' <= c <= '~' then [Plain(c)]
    else if n < 0x1_0000 then [Hex(HexOf(n))]
    else Beyond(n)
  }

  function EscapeAll(s: Text): (xs: seq<Char>)
  {
    if s == "" then [] else Escape(s[0]) + EscapeAll(s[1..])
  }

  function Quoted(s: Text): (t: Text) {
    WriteString(EscapeAll(s))
  }

  /** What an escape stands for, as section 7 of RFC 8259 says: a UTF-16 code unit. */
  function Unit(x: Char): (n: int) {
    match x
    case Plain(c) => c as int
    case Short(c) => if c == 'b' then 8 else if c == 'f' then 12 else if c == 'n' then 10 else if c == 'r' then 13
      else if c == 't' then 9 else c as int
    case Hex(h) => if |h| == 4 then Digit16(h[0]) * 0x1000 + Digit16(h[1]) * 0x100 + Digit16(h[2]) * 0x10 + Digit16(h[3]) else 0
  }

  function Digit16(c: char): (n: int) {
    if '0' <= c <= '9' then c as int - '0' as int
    else if 'a' <= c <= 'f' then c as int - 'a' as int + 10
    else if 'A' <= c <= 'F' then c as int - 'A' as int + 10
    else 0
  }

  /** A pair of code units that stands for one character beyond the basic plane. */
  predicate IsPair(units: seq<int>, n: int) {
    && |units| == 2 && 0xD800 <= units[0] < 0xDC00 && 0xDC00 <= units[1] < 0xE000
    && n == 0x1_0000 + (units[0] - 0xD800) * 0x400 + (units[1] - 0xDC00)
  }

  function Units(xs: seq<Char>): (ns: seq<int>)
  {
    if xs == [] then [] else [Unit(xs[0])] + Units(xs[1..])
  }

  lemma DigitMeans(k: int)
    requires 0 <= k < 16
    ensures Digit16("0123456789abcdef"[k]) == k && "0123456789abcdef"[k] in HEX
  {
    assert "0123456789abcdef"[k] == HEX[k];
  }

  lemma FourDigits(n: int)
    requires 0 <= n < 0x1_0000
    ensures 0 <= n / 0x1000 < 16
    ensures n == n / 0x1000 * 0x1000 + n / 0x100 % 0x10 * 0x100 + n / 0x10 % 0x10 * 0x10 + n % 0x10
  {
  }

  lemma HexMeans(n: int)
    requires 0 <= n < 0x1_0000
    ensures Unit(Hex(HexOf(n))) == n && AllIn(HexOf(n), HEX)
  {
    hide Digit16;
    FourDigits(n);
    DigitMeans(n / 0x1000);
    DigitMeans(n / 0x100 % 0x10);
    DigitMeans(n / 0x10 % 0x10);
    DigitMeans(n % 0x10);
  }

  lemma BeyondMeans(n: int)
    requires 0x1_0000 <= n < 0x11_0000
    ensures GoodChars(Beyond(n)) && IsPair(Units(Beyond(n)), n) && Beyond(n)[0].Hex? && Beyond(n)[1].Hex?
  {
    hide HexOf, Unit, AllIn;
    var high, low := 0xD800 + (n - 0x1_0000) / 0x400 % 0x400, 0xDC00 + (n - 0x1_0000) % 0x400;
    HexMeans(high);
    HexMeans(low);
    assert Units(Beyond(n)) == [high, low] by { UnitsTwo(Beyond(n)); }
    assert (n - 0x1_0000) / 0x400 < 0x400;
  }

  lemma UnitsOne(xs: seq<Char>)
    requires |xs| == 1
    ensures Units(xs) == [Unit(xs[0])]
  {
    hide Unit;
    assert xs[1..] == [];
  }

  lemma UnitsTwo(xs: seq<Char>)
    requires |xs| == 2
    ensures Units(xs) == [Unit(xs[0]), Unit(xs[1])]
  {
    hide Unit;
    UnitsOne(xs[1..]);
  }

  /** An escaped character is written well and stands for that character. */
  lemma EscapeMeans(c: char)
    ensures GoodChars(Escape(c))
    ensures Units(Escape(c)) == [c as int] || IsPair(Units(Escape(c)), c as int)
  {
    hide HexOf, Units, Beyond, AllIn, Digit16;
    var n := c as int;
    if n >= 0x1_0000 {
      BeyondMeans(n);
    } else {
      UnitsOne(Escape(c));
      if Escape(c)[0].Hex? { HexMeans(n); }
    }
  }

  lemma {:induction false} EscapeAllGood(s: Text)
    ensures GoodChars(EscapeAll(s))
    decreases |s|
  {
    if s != "" {
      hide Escape;
      EscapeMeans(s[0]);
      EscapeAllGood(s[1..]);
    }
  }

  /** The units `ns` stand for the characters of `s`, one after another. */
  ghost predicate StandFor(ns: seq<int>, s: Text)
    decreases |s|
  {
    if s == "" then ns == []
    else exists k | 0 < k <= |ns| ::
      (ns[..k] == [s[0] as int] || IsPair(ns[..k], s[0] as int)) && StandFor(ns[k..], s[1..])
  }

  lemma {:induction false} UnitsSplit(a: seq<Char>, b: seq<Char>)
    ensures Units(a + b) == Units(a) + Units(b) && |Units(a)| == |a|
    decreases |a|
  {
    hide Unit;
    if a == [] {
      assert a + b == b;
    } else {
      UnitsSplit(a[1..], b);
      assert (a + b)[0] == a[0] && (a + b)[1..] == a[1..] + b;
      assert Units(a + b) == [Unit(a[0])] + Units(a[1..] + b);
      assert Units(a) == [Unit(a[0])] + Units(a[1..]);
      hide Units;
      assert [Unit(a[0])] + (Units(a[1..]) + Units(b)) == ([Unit(a[0])] + Units(a[1..])) + Units(b);
    }
  }

  /** What a string is dumped as means that string. */
  lemma {:induction false} DumpedMeans(s: Text)
    ensures StandFor(Units(EscapeAll(s)), s)
    decreases |s|
  {
    if s != "" {
      hide Escape, IsPair, Units;
      var first, rest := Escape(s[0]), EscapeAll(s[1..]);
      EscapeMeans(s[0]);
      DumpedMeans(s[1..]);
      UnitsSplit(first, rest);
      var ns := Units(first + rest);
      assert ns[..|first|] == Units(first) && ns[|first|..] == Units(rest);
    } else {
      assert Units(EscapeAll(s)) == [];
    }
  }

  // ---- Values ----

  function Dump(j: Json): (t: Text)
    decreases j, 1
  {
    match j
    case JWord(t) => t
    case JNumber(n) => WriteNumeral(n)
    case JString(s) => Quoted(s)
    case JArray(es) => "[" + DumpElements(es) + "]"
    case JObject(ms) => "{" + DumpMembers(ms) + "}"
  }

  function DumpElements(es: seq<Json>): (t: Text)
    decreases es, 0
  {
    if es == [] then ""
    else Dump(es[0]) + (if |es| == 1 then "" else ", " + DumpElements(es[1..]))
  }

  function DumpMembers(ms: seq<Field>): (t: Text)
    decreases ms, 0
  {
    if ms == [] then ""
    else Quoted(ms[0].name) + (": " + (Dump(ms[0].value) + (if |ms| == 1 then "" else ", " + DumpMembers(ms[1..]))))
  }

  /** The dumped value as a text of the grammar: one space after each comma and colon. */
  function Laid(j: Json): (v: Syntax)
    decreases j, 1
  {
    match j
    case JWord(t) => SWord(t)
    case JNumber(n) => SNumber(n)
    case JString(s) => SString(EscapeAll(s))
    case JArray(es) => SArray(LaidElements(es, ""), "")
    case JObject(ms) => SObject(LaidPairs(ms, ""), "")
  }

  function LaidElements(es: seq<Json>, lead: Text): (xs: seq<Element>)
    ensures |xs| == |es|
    decreases es, 0
  {
    if es == [] then [] else [Element(lead, Laid(es[0]), "")] + LaidElements(es[1..], " ")
  }

  function LaidPairs(ms: seq<Field>, lead: Text): (ps: seq<Pair>)
    ensures |ps| == |ms|
    decreases ms, 0
  {
    if ms == [] then []
    else [Pair(lead, EscapeAll(ms[0].name), "", Element(" ", Laid(ms[0].value), ""))] + LaidPairs(ms[1..], " ")
  }

  lemma {:induction false} LaidIsDump(j: Json)
    requires WellFormed(j)
    ensures Write(Laid(j)) == Dump(j) && Good(Laid(j)) && !Long(Laid(j))
    decreases j, 1
  {
    hide Dump, Laid, Write, Good, Long, LaidElements, LaidPairs;
    match j
    case JWord(_) => AtomLaid(j);
    case JNumber(_) => AtomLaid(j);
    case JString(_) => AtomLaid(j);
    case JArray(es) =>
      if es != [] { ElementsLaid(es, ""); } else { NothingDumped(); }
      ArrayLaid(es);
      ArrayWritten(LaidElements(es, ""), DumpElements(es));
    case JObject(ms) =>
      if ms != [] { PairsLaid(ms, ""); } else { NothingDumped(); }
      ObjectLaid(ms);
      ObjectWritten(LaidPairs(ms, ""), DumpMembers(ms));
  }

  lemma ArrayLaid(es: seq<Json>)
    ensures Laid(JArray(es)) == SArray(LaidElements(es, ""), "") && Dump(JArray(es)) == "[" + DumpElements(es) + "]"
  {
    hide LaidElements, DumpElements;
  }

  lemma ObjectLaid(ms: seq<Field>)
    ensures Laid(JObject(ms)) == SObject(LaidPairs(ms, ""), "") && Dump(JObject(ms)) == "{" + DumpMembers(ms) + "}"
  {
    hide LaidPairs, DumpMembers;
  }

  lemma ArrayWritten(xs: seq<Element>, t: Text)
    requires if xs == [] then t == "" else WriteElements(xs) == t && GoodElements(xs)
    requires forall k | 0 <= k < |xs| :: !Long(xs[k].value)
    ensures var v := SArray(xs, ""); Write(v) == "[" + t + "]" && Good(v) && !Long(v)
  {
    if xs == [] { NoElements(); }
    hide WriteElements, GoodElements;
  }

  lemma ObjectWritten(ps: seq<Pair>, t: Text)
    requires if ps == [] then t == "" else WritePairs(ps) == t && GoodPairs(ps)
    requires forall k | 0 <= k < |ps| :: !Long(ps[k].element.value)
    ensures var v := SObject(ps, ""); Write(v) == "{" + t + "}" && Good(v) && !Long(v)
  {
    if ps == [] { NoElements(); }
    hide WritePairs, GoodPairs;
  }

  lemma NoElements()
    ensures GoodElements([]) && GoodPairs([])
  {
  }

  lemma AtomLaid(j: Json)
    requires WellFormed(j) && !j.JArray? && !j.JObject?
    ensures Write(Laid(j)) == Dump(j) && Good(Laid(j)) && !Long(Laid(j))
  {
    hide GoodNumeral, LongNumeral, GoodChars, EscapeAll, WriteString;
    if j.JString? { EscapeAllGood(j.chars); }
  }

  lemma NothingDumped()
    ensures DumpElements([]) == "" && DumpMembers([]) == ""
  {
  }

  predicate IsLead(lead: Text) {
    lead == "" || lead == " "
  }

  lemma {:induction false} ElementsLaid(es: seq<Json>, lead: Text)
    requires AllWellFormed(es) && es != [] && IsLead(lead)
    ensures WriteElements(LaidElements(es, lead)) == lead + DumpElements(es) && GoodElements(LaidElements(es, lead))
    ensures forall k | 0 <= k < |es| :: !Long(LaidElements(es, lead)[k].value)
    decreases es, 0
  {
    hide WellFormed, Dump, Laid, Write, Good, Long;
    var xs := LaidElements(es, lead);
    LaidIsDump(es[0]);
    assert GoodElement(xs[0]) && WriteElement(xs[0]) == lead + Dump(es[0]);
    if |es| > 1 {
      ElementsLaid(es[1..], " ");
      assert xs[1..] == LaidElements(es[1..], " ");
      assert ", " == "," + " ";
      assert WriteElements(xs) == (lead + Dump(es[0])) + ("," + (" " + DumpElements(es[1..])));
    } else {
      assert xs[1..] == [];
    }
  }

  lemma {:induction false} PairsLaid(ms: seq<Field>, lead: Text)
    requires MembersWellFormed(ms) && ms != [] && IsLead(lead)
    ensures WritePairs(LaidPairs(ms, lead)) == lead + DumpMembers(ms) && GoodPairs(LaidPairs(ms, lead))
    ensures forall k | 0 <= k < |ms| :: !Long(LaidPairs(ms, lead)[k].element.value)
    decreases ms, 0
  {
    hide WellFormed, Dump, Laid, Write, Good, Long, EscapeAll, WriteString, GoodChars;
    var ps := LaidPairs(ms, lead);
    LaidIsDump(ms[0].value);
    EscapeAllGood(ms[0].name);
    var name, value := Quoted(ms[0].name), Dump(ms[0].value);
    assert GoodPair(ps[0]);
    assert WritePair(ps[0]) == lead + (name + (": " + value));
    if |ms| > 1 {
      PairsLaid(ms[1..], " ");
      assert ps[1..] == LaidPairs(ms[1..], " ");
      assert WritePairs(ps) == (lead + (name + (": " + value))) + ("," + (" " + DumpMembers(ms[1..])));
      assert DumpMembers(ms) == name + (": " + (value + (", " + DumpMembers(ms[1..]))));
    } else {
      assert ps[1..] == [];
      assert DumpMembers(ms) == name + (": " + (value + ""));
    }
  }

  /** Round trip: the decoder reads a dumped value, and stops exactly at its end. */
  lemma DumpAccepted(w: Text, i: nat, j: Json)
    requires WellFormed(j) && At(w, i, Dump(j)) && Stopped(w, i + |Dump(j)|)
    ensures Value(w, i) == Some(i + |Dump(j)|) && !Trips(w, i)
  {
    hide Value, Trips, Dump, Laid, Good, Long, Write;
    LaidIsDump(j);
    SyntaxRead(w, i, Laid(j));
  }

  // ---- A dumped value is one printable line ----

  ghost predicate Printable(t: Text) {
    forall k | 0 <= k < |t| :: ' ' <= t[k] <= '~'
  }

  lemma {:induction false} CharsPrintable(xs: seq<Char>)
    requires forall k | 0 <= k < |xs| :: Printable(WriteChar(xs[k]))
    ensures Printable(WriteChars(xs))
    decreases |xs|
  {
    if xs != [] {
      hide WriteChar;
      CharsPrintable(xs[1..]);
    }
  }

  lemma EscapePrintable(c: char)
    ensures forall k | 0 <= k < |Escape(c)| :: Printable(WriteChar(Escape(c)[k]))
  {
    hide Units, IsPair;
    EscapeMeans(c);
    forall k | 0 <= k < |Escape(c)| ensures Printable(WriteChar(Escape(c)[k])) {
      EscapeAscii(c, k);
      if Escape(c)[k].Hex? { HexPrintable(Escape(c)[k]); }
    }
  }

  lemma EscapeAscii(c: char, k: nat)
    requires k < |Escape(c)|
    ensures Escape(c)[k].Hex? || Printable(WriteChar(Escape(c)[k]))
  {
    hide HexOf;
  }

  lemma HexPrintable(x: Char)
    requires x.Hex? && AllIn(x.digits, HEX)
    ensures Printable(WriteChar(x))
  {
  }

  lemma {:induction false} QuotedPrintable(s: Text)
    ensures forall k | 0 <= k < |EscapeAll(s)| :: Printable(WriteChar(EscapeAll(s)[k]))
  {
    if s != "" {
      hide Escape, WriteChar;
      QuotedPrintable(s[1..]);
      EscapePrintable(s[0]);
    }
  }

  lemma WordPrintable(t: Text)
    requires GoodWord(t)
    ensures Printable(t)
  {
  }

  lemma NumeralPrintable(n: Numeral)
    requires GoodNumeral(n)
    ensures Printable(WriteNumeral(n))
  {
    hide WritePower, WriteFraction, GoodPower;
    DigitsPrintable(n.whole);
    FractionPrintable(n.fraction);
    PowerPrintable(n.power);
  }

  lemma DigitsPrintable(t: Text)
    requires AllIn(t, DIGITS)
    ensures Printable(t)
  {
  }

  lemma FractionPrintable(f: Option<Text>)
    requires f.Some? ==> AllIn(f.value, DIGITS)
    ensures Printable(WriteFraction(f))
  {
    if f.Some? { DigitsPrintable(f.value); }
  }

  lemma PowerPrintable(p: Option<Power>)
    requires p.Some? ==> GoodPower(p.value)
    ensures Printable(WritePower(p))
  {
    if p.Some? { DigitsPrintable(p.value.digits); }
  }

  /** `json.dumps` writes no line break, so a dumped value fits one `data:` line. */
  lemma {:induction false} DumpPrintable(j: Json)
    requires WellFormed(j)
    ensures Printable(Dump(j))
    decreases j, 1
  {
    hide EscapeAll, DumpElements, DumpMembers, GoodWord, GoodNumeral, LongNumeral, WriteNumeral, WriteChars;
    match j
    case JWord(t) => WordPrintable(t);
    case JNumber(n) => NumeralPrintable(n);
    case JString(s) => QuotedPrintable(s); CharsPrintable(EscapeAll(s));
    case JArray(es) => ElementsPrintable(es);
    case JObject(ms) => MembersPrintable(ms);
  }

  lemma {:induction false} ElementsPrintable(es: seq<Json>)
    requires AllWellFormed(es)
    ensures Printable(DumpElements(es))
    decreases es, 0
  {
    hide Dump, WellFormed;
    if es != [] {
      DumpPrintable(es[0]);
      ElementsPrintable(es[1..]);
    }
  }

  lemma {:induction false} MembersPrintable(ms: seq<Field>)
    requires MembersWellFormed(ms)
    ensures Printable(DumpMembers(ms))
    decreases ms, 0
  {
    hide Dump, WellFormed, EscapeAll, WriteChars;
    if ms != [] {
      QuotedPrintable(ms[0].name);
      CharsPrintable(EscapeAll(ms[0].name));
      DumpPrintable(ms[0].value);
      MembersPrintable(ms[1..]);
    }
  }
}
