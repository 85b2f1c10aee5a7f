/**
 JSON text as sections 2 to 7 of RFC 8259 lay it out, with the three words that Python adds, and
 that the decoder reads exactly these texts: with any blanks between tokens, and any way to
 write a string or a number.
 */
module JsonGrammar {
  import opened Prelude
  import opened JsonText
  import opened DigitLimits

  const BLANKS := " \t\n\r"
  const DIGITS := "0123456789"
  const HEX := "0123456789abcdefABCDEF"

  predicate AllIn(t: Text, cs: Text) {
    forall k | 0 <= k < |t| :: t[k] in cs
  }

  // ---- The grammar ----

  datatype Power = Power(e: char, sign: Text, digits: Text)

  datatype Numeral = Numeral(minus: bool, whole: Text, fraction: Option<Text>, power: Option<Power>)

  predicate GoodPower(p: Power) {
    && (p.e == 'e' || p.e == 'E') && (p.sign == "" || p.sign == "+" || p.sign == "-")
    && p.digits != "" && AllIn(p.digits, DIGITS)
  }

  predicate GoodNumeral(n: Numeral) {
    && n.whole != "" && AllIn(n.whole, DIGITS) && (n.whole[0] == '0' ==> n.whole == "0")
    && (n.fraction.Some? ==> n.fraction.value != "" && AllIn(n.fraction.value, DIGITS))
    && (n.power.Some? ==> GoodPower(n.power.value))
  }

  function WriteFraction(f: Option<Text>): (t: Text) {
    if f.Some? then "." + f.value else ""
  }

  function WritePower(p: Option<Power>): (t: Text) {
    if p.Some? then [p.value.e] + p.value.sign + p.value.digits else ""
  }

  function WriteNumeral(n: Numeral): (t: Text) {
    (if n.minus then "-" else "") + (n.whole + (WriteFraction(n.fraction) + WritePower(n.power)))
  }

  /** An integer of more than 4300 digits. */
  predicate LongNumeral(n: Numeral) {
    n.fraction.None? && n.power.None? && |n.whole| > 4300
  }

  datatype Char = Plain(c: char) | Short(c: char) | Hex(digits: Text)

  predicate GoodChar(x: Char) {
    match x
    case Plain(c) => c as int >= 0x20 && c != '"' && c != '\\'
    case Short(c) => c in "\"\\/bfnrt"
    case Hex(h) => |h| == 4 && AllIn(h, HEX)
  }

  function WriteChar(x: Char): (t: Text) {
    match x
    case Plain(c) => [c]
    case Short(c) => ['\\', c]
    case Hex(h) => "\\u" + h
  }

  predicate GoodChars(xs: seq<Char>) {
    forall k | 0 <= k < |xs| :: GoodChar(xs[k])
  }

  function WriteChars(xs: seq<Char>): (t: Text) {
    if xs == [] then "" else WriteChar(xs[0]) + WriteChars(xs[1..])
  }

  function WriteString(xs: seq<Char>): (t: Text) {
    "\"" + (WriteChars(xs) + "\"")
  }

  datatype Syntax =
    | SWord(word: Text)
    | SNumber(numeral: Numeral)
    | SString(chars: seq<Char>)
    | SArray(elements: seq<Element>, blank: Text)
    | SObject(pairs: seq<Pair>, blank: Text)

  /** A value and the blanks around it. */
  datatype Element = Element(before: Text, value: Syntax, after: Text)

  /** A name, the blanks around it, and its value; `blank` in an array or object is for an empty one. */
  datatype Pair = Pair(before: Text, name: seq<Char>, after: Text, element: Element)

  predicate GoodWord(t: Text) {
    t == "null" || t == "true" || t == "false" || t == "NaN" || t == "Infinity" || t == "-Infinity"
  }

  predicate Good(v: Syntax)
    decreases v, 1
  {
    match v
    case SWord(t) => GoodWord(t)
    case SNumber(n) => GoodNumeral(n)
    case SString(xs) => GoodChars(xs)
    case SArray(es, blank) => GoodElements(es) && AllIn(blank, BLANKS)
    case SObject(ps, blank) => GoodPairs(ps) && AllIn(blank, BLANKS)
  }

  predicate GoodElement(x: Element)
    decreases x, 0
  {
    AllIn(x.before, BLANKS) && Good(x.value) && AllIn(x.after, BLANKS)
  }

  predicate GoodElements(es: seq<Element>)
    decreases es, 0
  {
    es == [] || (GoodElement(es[0]) && GoodElements(es[1..]))
  }

  predicate GoodPair(p: Pair)
    decreases p, 0
  {
    AllIn(p.before, BLANKS) && GoodChars(p.name) && AllIn(p.after, BLANKS) && GoodElement(p.element)
  }

  predicate GoodPairs(ps: seq<Pair>)
    decreases ps, 0
  {
    ps == [] || (GoodPair(ps[0]) && GoodPairs(ps[1..]))
  }

  function Write(v: Syntax): (t: Text)
    decreases v, 1
  {
    match v
    case SWord(t) => t
    case SNumber(n) => WriteNumeral(n)
    case SString(xs) => WriteString(xs)
    case SArray(es, blank) => "[" + ((if es == [] then blank else WriteElements(es)) + "]")
    case SObject(ps, blank) => "{" + ((if ps == [] then blank else WritePairs(ps)) + "}")
  }

  function WriteElement(x: Element): (t: Text)
    decreases x, 0
  {
    x.before + (Write(x.value) + x.after)
  }

  function WriteElements(es: seq<Element>): (t: Text)
    requires es != []
    decreases es, 0
  {
    WriteElement(es[0]) + if |es| == 1 then "" else "," + WriteElements(es[1..])
  }

  function WritePair(p: Pair): (t: Text)
    decreases p, 0
  {
    p.before + (WriteString(p.name) + (p.after + (":" + WriteElement(p.element))))
  }

  function WritePairs(ps: seq<Pair>): (t: Text)
    requires ps != []
    decreases ps, 0
  {
    WritePair(ps[0]) + if |ps| == 1 then "" else "," + WritePairs(ps[1..])
  }

  /** An integer of too many digits stands somewhere in the value. */
  predicate Long(v: Syntax)
    decreases v, 1
  {
    match v
    case SNumber(n) => LongNumeral(n)
    case SArray(es, _) => exists k | 0 <= k < |es| :: Long(es[k].value)
    case SObject(ps, _) => exists k | 0 <= k < |ps| :: Long(ps[k].element.value)
    case _ => false
  }

  // ---- The decoder reads every such text, to its end ----

  lemma AtSplit(w: Text, i: nat, a: Text, b: Text)
    requires At(w, i, a + b)
    ensures At(w, i, a) && At(w, i + |a|, b)
  {
    forall k | 0 <= k < |a| ensures w[i + k] == a[k] { assert (a + b)[k] == a[k]; }
    forall k | 0 <= k < |b| ensures w[i + |a| + k] == b[k] { assert (a + b)[|a| + k] == b[k]; }
  }

  lemma {:induction false} DigitsRun(s: Text, i: nat, n: nat)
    requires i <= n <= |s| && (forall k | i <= k < n :: Digit(s[k])) && (n == |s| || !Digit(s[n]))
    ensures Digits(s, i) == n
    decreases n - i
  {
    if i < n { DigitsRun(s, i + 1, n); }
  }

  lemma DigitsAt(w: Text, i: nat, t: Text)
    requires AllIn(t, DIGITS) && At(w, i, t) && (i + |t| == |w| || !Digit(w[i + |t|]))
    ensures Digits(w, i) == i + |t|
    ensures t != "" ==> Digit(w[i])
  {
    forall k | i <= k < i + |t| ensures Digit(w[k]) { assert w[i + (k - i)] == t[k - i]; }
    DigitsRun(w, i, i + |t|);
  }

  lemma PowerRead(w: Text, i: nat, p: Option<Power>)
    requires (p.Some? ==> GoodPower(p.value)) && At(w, i, WritePower(p)) && Stopped(w, i + |WritePower(p)|)
    ensures Exponent(w, i) == i + |WritePower(p)|
    ensures i == |w| || (!Digit(w[i]) && w[i] != '.')
    ensures p.Some? ==> Exponent(w, i) > i
  {
    hide Digits, AllIn;
    if p.Some? {
      var q := p.value;
      var head := [q.e] + q.sign;
      AtSplit(w, i, head, q.digits);
      DigitsAt(w, i + |head|, q.digits);
      assert w[i] == head[0] && (q.sign != "" ==> w[i + 1] == head[1]);
    }
  }

  lemma FractionRead(w: Text, i: nat, f: Option<Text>)
    requires (f.Some? ==> f.value != "" && AllIn(f.value, DIGITS)) && At(w, i, WriteFraction(f))
    requires var j := i + |WriteFraction(f)|; j == |w| || (!Digit(w[j]) && w[j] != '.')
    ensures Fraction(w, i) == i + |WriteFraction(f)|
    ensures i == |w| || !Digit(w[i])
    ensures f.Some? ==> Fraction(w, i) > i
  {
    hide Digits, AllIn;
    if f.Some? {
      AtSplit(w, i, ".", f.value);
      assert w[i] == "."[0];
      DigitsAt(w, i + 1, f.value);
    }
  }

  lemma WholeRead(w: Text, i: nat, whole: Text)
    requires whole != "" && AllIn(whole, DIGITS) && (whole[0] == '0' ==> whole == "0")
    requires At(w, i, whole) && (i + |whole| == |w| || !Digit(w[i + |whole|]))
    ensures Digit(w[i]) && Whole(w, i) == i + |whole|
  {
    hide Digits;
    DigitsAt(w, i, whole);
    assert w[i] == whole[0];
  }

  /** A number is read whole, unless something prolongs it. */
  lemma NumeralRead(w: Text, i: nat, n: Numeral)
    requires GoodNumeral(n) && At(w, i, WriteNumeral(n)) && Stopped(w, i + |WriteNumeral(n)|)
    ensures Number(w, i) == Some(i + |WriteNumeral(n)|) && (TooLong(w, i) <==> LongNumeral(n))
    ensures w[i] == '-' || Digit(w[i])
    ensures w[i] == '-' ==> i + 1 < |w| && Digit(w[i + 1])
  {
    hide Digits, AllIn, Fraction, Exponent, WriteFraction, WritePower, GoodPower;
    var sign := if n.minus then "-" else "";
    var tail := WriteFraction(n.fraction) + WritePower(n.power);
    AtSplit(w, i, sign, n.whole + tail);
    AtSplit(w, i + |sign|, n.whole, tail);
    var j := i + |sign| + |n.whole|;
    AtSplit(w, j, WriteFraction(n.fraction), WritePower(n.power));
    PowerRead(w, j + |WriteFraction(n.fraction)|, n.power);
    FractionRead(w, j, n.fraction);
    WholeRead(w, i + |sign|, n.whole);
    if n.minus { assert w[i] == sign[0]; }
    assert Exponent(w, Fraction(w, j)) == j <==> n.fraction.None? && n.power.None? by { NoTail(n); }
  }

  lemma NoTail(n: Numeral)
    ensures |WriteFraction(n.fraction) + WritePower(n.power)| == 0 <==> n.fraction.None? && n.power.None?
  {
  }

  lemma CharRead(w: Text, i: nat, x: Char)
    requires GoodChar(x) && At(w, i, WriteChar(x))
    ensures StringBody(w, i) == StringBody(w, i + |WriteChar(x)|)
  {
    match x
    case Plain(c) => assert w[i] == [c][0];
    case Short(c) =>
      var t := ['\\', c];
      assert w[i] == t[0] && w[i + 1] == t[1];
    case Hex(h) => HexRead(w, i, h);
  }

  lemma HexRead(w: Text, i: nat, h: Text)
    requires |h| == 4 && AllIn(h, HEX) && At(w, i, "\\u" + h)
    ensures StringBody(w, i) == StringBody(w, i + 6)
  {
    HexIn(h);
    hide AllIn, HexDigit;
    AtSplit(w, i, "\\u", h);
    assert w[i] == "\\u"[0] && w[i + 1] == "\\u"[1];
    assert w[i + 2] == h[0] && w[i + 2 + 1] == h[1] && w[i + 2 + 2] == h[2] && w[i + 2 + 3] == h[3];
  }

  lemma HexIn(t: Text)
    requires AllIn(t, HEX)
    ensures forall k | 0 <= k < |t| :: HexDigit(t[k])
  {
  }

  lemma {:induction false} CharsRead(w: Text, i: nat, xs: seq<Char>)
    requires GoodChars(xs) && At(w, i, WriteChars(xs) + "\"")
    ensures StringBody(w, i) == Some(i + |WriteChars(xs)| + 1)
    decreases |xs|
  {
    hide GoodChar, WriteChar;
    if xs == [] {
      assert w[i] == (WriteChars(xs) + "\"")[0];
    } else {
      assert WriteChars(xs) + "\"" == WriteChar(xs[0]) + (WriteChars(xs[1..]) + "\"");
      AtSplit(w, i, WriteChar(xs[0]), WriteChars(xs[1..]) + "\"");
      CharRead(w, i, xs[0]);
      CharsRead(w, i + |WriteChar(xs[0])|, xs[1..]);
    }
  }

  lemma StringRead(w: Text, i: nat, xs: seq<Char>)
    requires GoodChars(xs) && At(w, i, WriteString(xs))
    ensures i < |w| && w[i] == '"' && StringBody(w, i + 1) == Some(i + |WriteString(xs)|)
    ensures Value(w, i) == Some(i + |WriteString(xs)|) && !Trips(w, i)
  {
    hide StringBody, WriteChars;
    AtSplit(w, i, "\"", WriteChars(xs) + "\"");
    assert w[i] == "\""[0];
    CharsRead(w, i + 1, xs);
  }

  lemma WordRead(w: Text, i: nat, t: Text)
    requires GoodWord(t) && At(w, i, t)
    ensures Value(w, i) == Some(i + |t|) && !Trips(w, i)
  {
    hide TooLong;
    assert w[i] == t[0];
  }

  lemma NumberRead(w: Text, i: nat, n: Numeral)
    requires GoodNumeral(n) && At(w, i, WriteNumeral(n)) && Stopped(w, i + |WriteNumeral(n)|)
    ensures Value(w, i) == Some(i + |WriteNumeral(n)|) && (Trips(w, i) <==> LongNumeral(n))
  {
    hide Members, Elements, StringBody, Number, TooLong, WriteNumeral, GoodNumeral, LongNumeral;
    NumeralRead(w, i, n);
    assert WordFor('-')[1] == 'I';
  }

  /** What a value starts with. */
  lemma WriteStart(v: Syntax)
    requires Good(v)
    ensures Write(v) != "" && Write(v)[0] !in BLANKS && Write(v)[0] !in ",]}:"
  {
    if v.SNumber? {
      var n := v.numeral;
      assert Write(v)[0] == if n.minus then '-' else n.whole[0];
    }
  }

  lemma {:induction false} SkipBlanks(w: Text, i: nat, t: Text)
    requires AllIn(t, BLANKS) && At(w, i, t) && i + |t| < |w| && w[i + |t|] !in BLANKS
    ensures Skip(w, i) == i + |t|
    decreases |t|
  {
    if t != "" {
      assert w[i] == t[0];
      assert forall k | 0 <= k < |t| - 1 :: t[1..][k] == t[k + 1] == w[i + 1 + k];
      SkipBlanks(w, i + 1, t[1..]);
    }
  }

  /** What is read may be followed by a comma, a colon or the end of an array or object. */
  predicate Closing(t: Text) {
    t != "" && (t[0] == ',' || t[0] == ']' || t[0] == '}')
  }

  lemma ElementParts(w: Text, i: nat, x: Element, more: Text)
    requires GoodElement(x) && At(w, i, WriteElement(x) + more) && Closing(more)
    ensures var start := i + |x.before|; var end := start + |Write(x.value)|;
      && Skip(w, i) == start && At(w, start, Write(x.value)) && Stopped(w, end)
      && end <= |w| && Skip(w, end) == i + |WriteElement(x)|
      && At(w, i + |WriteElement(x)|, more) && i + |WriteElement(x)| < |w| && w[i + |WriteElement(x)|] == more[0]
  {
    hide Write, Skip, Good;
    var v := Write(x.value);
    assert WriteElement(x) + more == x.before + (v + (x.after + more));
    AtSplit(w, i, x.before, v + (x.after + more));
    var start := i + |x.before|;
    AtSplit(w, start, v, x.after + more);
    var end := start + |v|;
    AtSplit(w, end, x.after, more);
    WriteStart(x.value);
    assert w[start] == v[0] && w[end + |x.after|] == more[0];
    SkipBlanks(w, i, x.before);
    SkipBlanks(w, end, x.after);
    if x.after != "" { assert w[end] == x.after[0] && x.after[0] in BLANKS; }
  }

  /** Completeness: every text of the grammar is read to its end, where nothing prolongs it. */
  lemma {:induction false} SyntaxRead(w: Text, i: nat, v: Syntax)
    requires Good(v) && At(w, i, Write(v)) && Stopped(w, i + |Write(v)|)
    ensures Value(w, i) == Some(i + |Write(v)|) && (Trips(w, i) <==> Long(v))
    decreases v, 1
  {
    hide Value, Trips, GoodWord, GoodNumeral, GoodChars, GoodElements, GoodPairs, WriteNumeral, WriteString, WriteElements, WritePairs;
    match v
    case SWord(t) => WordRead(w, i, t);
    case SNumber(n) => NumberRead(w, i, n);
    case SString(xs) => StringRead(w, i, xs);
    case SArray(es, blank) => ArrayRead(w, i, es, blank);
    case SObject(ps, blank) => ObjectRead(w, i, ps, blank);
  }

  lemma {:induction false} ElementRead(w: Text, i: nat, x: Element, more: Text)
    requires GoodElement(x) && At(w, i, WriteElement(x) + more) && Closing(more)
    ensures var start := Skip(w, i);
      && Item(w, start) == Some(i + |WriteElement(x)|) && (Trips(w, start) <==> Long(x.value))
      && At(w, i + |WriteElement(x)|, more) && w[i + |WriteElement(x)|] == more[0] && start < |w| && w[start] !in ",]}"
    decreases x, 0
  {
    hide Write, Value, Trips, Long, Skip, Good;
    ElementParts(w, i, x, more);
    SyntaxRead(w, i + |x.before|, x.value);
    WriteStart(x.value);
    assert w[i + |x.before|] == Write(x.value)[0];
  }

  lemma {:induction false} ElementsRead(w: Text, i: nat, es: seq<Element>)
    requires es != [] && GoodElements(es) && At(w, i, WriteElements(es) + "]")
    ensures var start := Skip(w, i);
      && Elements(w, start) == Some(i + |WriteElements(es)| + 1) && start < |w| && w[start] != ']'
      && (TripsInElements(w, start) <==> exists k | 0 <= k < |es| :: Long(es[k].value))
    decreases es, 0
  {
    hide WriteElement, Item, Skip, Trips, Long, GoodElement;
    var start := Skip(w, i);
    var next := i + |WriteElement(es[0])|;
    if |es| == 1 {
      assert WriteElements(es) + "]" == WriteElement(es[0]) + "]";
      ElementRead(w, i, es[0], "]");
    } else {
      var more := WriteElements(es[1..]) + "]";
      assert WriteElements(es) + "]" == WriteElement(es[0]) + ("," + more);
      ElementRead(w, i, es[0], "," + more);
      AtSplit(w, next, ",", more);
      ElementsRead(w, next + 1, es[1..]);
      LongSplit(es);
    }
  }

  lemma LongSplit(es: seq<Element>)
    requires es != []
    ensures (exists k | 0 <= k < |es| :: Long(es[k].value)) <==>
      Long(es[0].value) || exists k | 0 <= k < |es[1..]| :: Long(es[1..][k].value)
  {
    hide Long;
    if k :| 0 < k < |es| && Long(es[k].value) { assert es[1..][k - 1] == es[k]; }
  }

  lemma {:induction false} ArrayRead(w: Text, i: nat, es: seq<Element>, blank: Text)
    requires GoodElements(es) && AllIn(blank, BLANKS) && At(w, i, Write(SArray(es, blank)))
    ensures Value(w, i) == Some(i + |Write(SArray(es, blank))|) && (Trips(w, i) <==> Long(SArray(es, blank)))
    decreases es, 1
  {
    hide Elements, TripsInElements, Members, TripsInMembers, Number, TooLong, Word, StringBody, Skip, AllIn, WriteElements;
    hide GoodElements;
    var inner := (if es == [] then blank else WriteElements(es)) + "]";
    AtSplit(w, i, "[", inner);
    assert w[i] == "["[0];
    if es == [] {
      AtSplit(w, i + 1, blank, "]");
      assert w[i + 1 + |blank|] == "]"[0];
      SkipBlanks(w, i + 1, blank);
    } else {
      ElementsRead(w, i + 1, es);
    }
  }

  lemma {:induction false} PairRead(w: Text, i: nat, p: Pair, more: Text)
    requires GoodPair(p) && At(w, i, WritePair(p) + more) && Closing(more)
    ensures var start := Skip(w, i);
      && Member(w, start) == Some(i + |WritePair(p)|) && (TripsInMember(w, start) <==> Long(p.element.value))
      && At(w, i + |WritePair(p)|, more) && w[i + |WritePair(p)|] == more[0] && start < |w| && w[start] == '"'
    decreases p, 0
  {
    hide WriteElement, WriteString, Item, Skip, Trips, Long, GoodElement, GoodChars, AllIn, Value;
    var name := WriteString(p.name);
    var rest := ":" + (WriteElement(p.element) + more);
    assert WritePair(p) + more == p.before + (name + (p.after + rest));
    AtSplit(w, i, p.before, name + (p.after + rest));
    var start := i + |p.before|;
    AtSplit(w, start, name, p.after + rest);
    StringRead(w, start, p.name);
    SkipBlanks(w, i, p.before);
    var colon := start + |name| + |p.after|;
    AtSplit(w, start + |name|, p.after, rest);
    assert w[colon] == rest[0];
    SkipBlanks(w, start + |name|, p.after);
    AtSplit(w, colon, ":", WriteElement(p.element) + more);
    ElementRead(w, colon + 1, p.element, more);
  }

  lemma {:induction false} PairsRead(w: Text, i: nat, ps: seq<Pair>)
    requires ps != [] && GoodPairs(ps) && At(w, i, WritePairs(ps) + "}")
    ensures var start := Skip(w, i);
      && Members(w, start) == Some(i + |WritePairs(ps)| + 1) && start < |w| && w[start] != '}'
      && (TripsInMembers(w, start) <==> exists k | 0 <= k < |ps| :: Long(ps[k].element.value))
    decreases ps, 0
  {
    hide WritePair, Member, Skip, TripsInMember, Long, GoodPair;
    var start := Skip(w, i);
    var next := i + |WritePair(ps[0])|;
    if |ps| == 1 {
      assert WritePairs(ps) + "}" == WritePair(ps[0]) + "}";
      PairRead(w, i, ps[0], "}");
    } else {
      var more := WritePairs(ps[1..]) + "}";
      assert WritePairs(ps) + "}" == WritePair(ps[0]) + ("," + more);
      PairRead(w, i, ps[0], "," + more);
      AtSplit(w, next, ",", more);
      PairsRead(w, next + 1, ps[1..]);
      LongSplitPairs(ps);
    }
  }

  lemma LongSplitPairs(ps: seq<Pair>)
    requires ps != []
    ensures (exists k | 0 <= k < |ps| :: Long(ps[k].element.value)) <==>
      Long(ps[0].element.value) || exists k | 0 <= k < |ps[1..]| :: Long(ps[1..][k].element.value)
  {
    hide Long;
    if k :| 0 < k < |ps| && Long(ps[k].element.value) { assert ps[1..][k - 1] == ps[k]; }
  }

  lemma {:induction false} ObjectRead(w: Text, i: nat, ps: seq<Pair>, blank: Text)
    requires GoodPairs(ps) && AllIn(blank, BLANKS) && At(w, i, Write(SObject(ps, blank)))
    ensures Value(w, i) == Some(i + |Write(SObject(ps, blank))|) && (Trips(w, i) <==> Long(SObject(ps, blank)))
    decreases ps, 1
  {
    hide Elements, TripsInElements, Members, TripsInMembers, Number, TooLong, Word, StringBody, Skip, AllIn, WritePairs;
    hide GoodPairs;
    var inner := (if ps == [] then blank else WritePairs(ps)) + "}";
    AtSplit(w, i, "{", inner);
    assert w[i] == "{"[0];
    if ps == [] {
      AtSplit(w, i + 1, blank, "}");
      assert w[i + 1 + |blank|] == "}"[0];
      SkipBlanks(w, i + 1, blank);
    } else {
      PairsRead(w, i + 1, ps);
    }
  }

  // ---- And no other text ----

  lemma Slices(s: Text, a: nat, b: nat, c: nat)
    requires a <= b <= c <= |s|
    ensures s[a..c] == s[a..b] + s[b..c]
  {
  }

  lemma {:induction false} BlanksFound(s: Text, i: nat)
    requires i <= |s|
    ensures AllIn(s[i..Skip(s, i)], BLANKS)
    decreases |s| - i
  {
    if i < |s| && JsonSpace(s[i]) {
      BlanksFound(s, i + 1);
      assert s[i..Skip(s, i)] == [s[i]] + s[i + 1..Skip(s, i)];
    }
  }

  lemma {:induction false} DigitsFound(s: Text, i: nat)
    requires i <= |s|
    ensures AllIn(s[i..Digits(s, i)], DIGITS)
    decreases |s| - i
  {
    if i < |s| && Digit(s[i]) {
      DigitsFound(s, i + 1);
      assert s[i] in DIGITS by { DigitIn(s[i]); }
      assert s[i..Digits(s, i)] == [s[i]] + s[i + 1..Digits(s, i)];
    }
  }

  lemma DigitIn(c: char)
    requires Digit(c)
    ensures c in DIGITS
  {
    assert DIGITS[c as int - '0' as int] == c;
  }

  lemma WholeFound(s: Text, i: nat)
    requires i < |s| && Digit(s[i])
    ensures var t := s[i..Whole(s, i)]; t != "" && AllIn(t, DIGITS) && (t[0] == '0' ==> t == "0")
  {
    hide Digits;
    DigitsFound(s, i);
    if s[i] == '0' { assert s[i..i + 1] == "0"; }
  }

  lemma FractionFound(s: Text, i: nat) returns (f: Option<Text>)
    requires i <= |s|
    ensures f.Some? ==> f.value != "" && AllIn(f.value, DIGITS)
    ensures WriteFraction(f) == s[i..Fraction(s, i)]
  {
    hide Digits;
    var j := Fraction(s, i);
    if j == i {
      f := None;
    } else {
      f := Some(s[i + 1..j]);
      DigitsFound(s, i + 1);
      assert s[i..j] == "." + s[i + 1..j];
    }
  }

  lemma PowerFound(s: Text, i: nat) returns (p: Option<Power>)
    requires i <= |s|
    ensures p.Some? ==> GoodPower(p.value)
    ensures WritePower(p) == s[i..Exponent(s, i)]
  {
    hide Digits;
    var j := Exponent(s, i);
    if j == i {
      p := None;
    } else {
      var start := if Digit(s[i + 1]) then i + 1 else i + 2;
      var sign := s[i + 1..start];
      p := Some(Power(s[i], sign, s[start..j]));
      DigitsFound(s, start);
      if start == i + 2 { assert sign == [s[i + 1]]; }
      assert s[i..j] == [s[i]] + sign + s[start..j];
    }
  }

  lemma NumeralFound(s: Text, i: nat) returns (n: Numeral)
    requires i <= |s| && Number(s, i).Some?
    ensures GoodNumeral(n) && WriteNumeral(n) == s[i..Number(s, i).value]
  {
    hide Digits, Fraction, Exponent, GoodPower, WriteFraction, WritePower;
    var first := if s[i] == '-' then i + 1 else i;
    var whole := Whole(s, first);
    var point := Fraction(s, whole);
    WholeFound(s, first);
    var f := FractionFound(s, whole);
    var p := PowerFound(s, point);
    n := Numeral(s[i] == '-', s[first..whole], f, p);
    Slices(s, whole, point, Number(s, i).value);
    Slices(s, first, whole, Number(s, i).value);
    Slices(s, i, first, Number(s, i).value);
    assert s[i..first] == if n.minus then "-" else "";
  }

  lemma CharFound(s: Text, i: nat) returns (x: Char)
    requires i < |s| && s[i] != '"' && StringBody(s, i).Some?
    ensures GoodChar(x) && i + |WriteChar(x)| <= |s| && WriteChar(x) == s[i..i + |WriteChar(x)|]
    ensures StringBody(s, i) == StringBody(s, i + |WriteChar(x)|)
  {
    if s[i] != '\\' {
      x := Plain(s[i]);
    } else if s[i + 1] != 'u' {
      x := Short(s[i + 1]);
    } else {
      hide AllIn;
      x := Hex(s[i + 2..i + 6]);
      HexFound(s, i + 2);
      Slices(s, i, i + 2, i + 6);
      assert s[i..i + 2] == "\\u";
    }
  }

  lemma HexFound(s: Text, i: nat)
    requires i + 4 <= |s| && Hex4(s, i)
    ensures AllIn(s[i..i + 4], HEX)
  {
    var t := s[i..i + 4];
    forall k | 0 <= k < |t| ensures t[k] in HEX { HexDigitIn(s[i + k]); }
  }

  lemma HexDigitIn(c: char)
    requires HexDigit(c)
    ensures c in HEX
  {
    var n := c as int;
    assert HEX[if Digit(c) then n - '0' as int else if 'a' <= c then n - 'a' as int + 10 else n - 'A' as int + 16] == c;
  }

  lemma {:induction false} CharsFound(s: Text, i: nat) returns (xs: seq<Char>)
    requires i <= |s| && StringBody(s, i).Some?
    ensures GoodChars(xs) && WriteChars(xs) + "\"" == s[i..StringBody(s, i).value]
    decreases |s| - i
  {
    var end := StringBody(s, i).value;
    if s[i] == '"' {
      xs := [];
      assert s[i..end] == "\"";
    } else {
      var x := CharFound(s, i);
      hide StringBody, GoodChar;
      var j := i + |WriteChar(x)|;
      assert j > i by { CharNotEmpty(x); }
      var rest := CharsFound(s, j);
      xs := [x] + rest;
      CharInFront(x, rest);
      hide WriteChars, GoodChars;
      Slices(s, i, j, end);
      assert WriteChars(xs) + "\"" == WriteChar(x) + (WriteChars(rest) + "\"");
    }
  }

  lemma CharInFront(x: Char, rest: seq<Char>)
    requires GoodChar(x) && GoodChars(rest)
    ensures GoodChars([x] + rest) && WriteChars([x] + rest) == WriteChar(x) + WriteChars(rest)
  {
    hide GoodChar, WriteChar;
    assert ([x] + rest)[1..] == rest;
  }

  lemma CharNotEmpty(x: Char)
    ensures WriteChar(x) != ""
  {
  }

  lemma StringFound(s: Text, i: nat) returns (xs: seq<Char>)
    requires i < |s| && s[i] == '"' && StringBody(s, i + 1).Some?
    ensures GoodChars(xs) && WriteString(xs) == s[i..StringBody(s, i + 1).value]
  {
    hide StringBody, GoodChars, WriteChars;
    xs := CharsFound(s, i + 1);
    assert s[i..StringBody(s, i + 1).value] == "\"" + s[i + 1..StringBody(s, i + 1).value];
  }

  lemma WordFound(s: Text, i: nat)
    requires i < |s| && Word(s, i).Some?
    ensures GoodWord(s[i..Word(s, i).value])
  {
    assert s[i..Word(s, i).value] == WordFor(s[i]);
  }

  /** Soundness: what is read is a text of the grammar. */
  lemma {:induction false} SyntaxFound(s: Text, i: nat) returns (v: Syntax)
    requires i <= |s| && Value(s, i).Some?
    ensures Good(v) && Write(v) == s[i..Value(s, i).value]
    decreases |s| - i, 1
  {
    hide Skip, StringBody, Elements, Members, Number, Word, GoodWord, GoodNumeral, GoodChars, GoodElements, GoodPairs;
    hide WriteNumeral, WriteString, WriteElements, WritePairs, AllIn;
    if s[i] == '"' {
      var xs := StringFound(s, i);
      v := SString(xs);
    } else if s[i] == '{' {
      v := ObjectFound(s, i);
    } else if s[i] == '[' {
      v := ArrayFound(s, i);
    } else if Word(s, i).Some? {
      WordFound(s, i);
      v := SWord(s[i..Value(s, i).value]);
    } else {
      var n := NumeralFound(s, i);
      v := SNumber(n);
    }
  }

  lemma {:induction false} ArrayFound(s: Text, i: nat) returns (v: Syntax)
    requires i < |s| && s[i] == '[' && Value(s, i).Some?
    ensures Good(v) && Write(v) == s[i..Value(s, i).value]
    decreases |s| - i, 0
  {
    hide Skip, StringBody, Elements, Members, Number, Word, WriteElements, AllIn, GoodElements;
    var j, end := Skip(s, i + 1), Value(s, i).value;
    BlanksFound(s, i + 1);
    Slices(s, i, i + 1, end);
    assert s[i..i + 1] == "[";
    if j < |s| && s[j] == ']' {
      v := SArray([], s[i + 1..j]);
      Slices(s, i + 1, j, end);
      assert s[j..end] == "]";
      assert GoodElements([]) by { NoElements(); }
    } else {
      var es := ElementsFound(s, j, s[i + 1..j]);
      v := SArray(es, "");
      Slices(s, i + 1, j, end);
      assert AllIn("", BLANKS) by { NoBlanks(); }
    }
  }

  lemma NoElements()
    ensures GoodElements([]) && GoodPairs([])
  {
  }

  lemma NoBlanks()
    ensures AllIn("", BLANKS)
  {
  }

  lemma {:induction false} ElementFound(s: Text, i: nat, lead: Text) returns (x: Element)
    requires i <= |s| && Item(s, i).Some? && AllIn(lead, BLANKS)
    ensures GoodElement(x) && WriteElement(x) == lead + s[i..Item(s, i).value]
    decreases |s| - i, 2
  {
    hide Skip, Value, AllIn, Good, Write;
    var end := Value(s, i).value;
    var v := SyntaxFound(s, i);
    BlanksFound(s, end);
    x := Element(lead, v, s[end..Skip(s, end)]);
    Slices(s, i, end, Skip(s, end));
  }

  /** What is written first, a comma, and what is written after it are together the text they stand in. */
  lemma Commas(s: Text, i: nat, next: nat, start: nat, end: nat, lead: Text, first: Text, rest: Text, close: Text)
    requires i <= next < start <= end <= |s| && s[next] == ','
    requires first == lead + s[i..next] && rest + close == s[next + 1..start] + s[start..end]
    ensures first + ("," + rest) + close == lead + s[i..end]
  {
    Slices(s, next + 1, start, end);
    assert s[next..end] == "," + s[next + 1..end];
    Slices(s, i, next, end);
    assert first + ("," + rest) + close == first + ("," + (rest + close));
  }

  lemma ElementsInFront(x: Element, rest: seq<Element>)
    requires rest != [] && GoodElement(x) && GoodElements(rest)
    ensures GoodElements([x] + rest) && WriteElements([x] + rest) == WriteElement(x) + ("," + WriteElements(rest))
  {
    hide GoodElement, WriteElement;
    assert ([x] + rest)[1..] == rest;
  }

  lemma OneElementAlone(x: Element)
    requires GoodElement(x)
    ensures GoodElements([x]) && WriteElements([x]) == WriteElement(x)
  {
    hide GoodElement, WriteElement;
  }

  lemma OnePairAlone(p: Pair)
    requires GoodPair(p)
    ensures GoodPairs([p]) && WritePairs([p]) == WritePair(p)
  {
    hide GoodPair, WritePair;
  }

  lemma {:induction false} ElementsFound(s: Text, i: nat, lead: Text) returns (es: seq<Element>)
    requires i <= |s| && Elements(s, i).Some? && AllIn(lead, BLANKS)
    ensures es != [] && GoodElements(es) && WriteElements(es) + "]" == lead + s[i..Elements(s, i).value]
    decreases |s| - i, 3
  {
    hide Skip, Item, AllIn, GoodElement, WriteElement, GoodElements, WriteElements;
    var next, end := Item(s, i).value, Elements(s, i).value;
    var x := ElementFound(s, i, lead);
    if s[next] == ']' {
      es := [x];
      OneElementAlone(x);
      Slices(s, i, next, end);
      assert s[next..end] == "]";
    } else {
      var start := Skip(s, next + 1);
      BlanksFound(s, next + 1);
      var rest := ElementsFound(s, start, s[next + 1..start]);
      es := [x] + rest;
      ElementsInFront(x, rest);
      assert end == Elements(s, start).value;
      hide Elements;
      Commas(s, i, next, start, end, lead, WriteElement(x), WriteElements(rest), "]");
    }
  }

  lemma {:induction false} ObjectFound(s: Text, i: nat) returns (v: Syntax)
    requires i < |s| && s[i] == '{' && Value(s, i).Some?
    ensures v.SObject? && Good(v) && Write(v) == s[i..Value(s, i).value]
    decreases |s| - i, 0
  {
    hide Skip, StringBody, Elements, Members, Number, Word, WritePairs, AllIn, GoodPairs;
    var j, end := Skip(s, i + 1), Value(s, i).value;
    BlanksFound(s, i + 1);
    Slices(s, i, i + 1, end);
    assert s[i..i + 1] == "{";
    if j < |s| && s[j] == '}' {
      v := SObject([], s[i + 1..j]);
      Slices(s, i + 1, j, end);
      assert s[j..end] == "}";
      NoElements();
    } else {
      var ps := PairsFound(s, j, s[i + 1..j]);
      v := SObject(ps, "");
      Slices(s, i + 1, j, end);
      NoBlanks();
    }
  }

  lemma {:induction false} PairFound(s: Text, i: nat, lead: Text) returns (p: Pair)
    requires i <= |s| && Member(s, i).Some? && AllIn(lead, BLANKS)
    ensures GoodPair(p) && WritePair(p) == lead + s[i..Member(s, i).value]
    decreases |s| - i, 0
  {
    hide Skip, StringBody, Item, AllIn, GoodChars, GoodElement, WriteString, WriteElement;
    var name := StringBody(s, i + 1).value;
    var colon := Skip(s, name);
    var start, end := Skip(s, colon + 1), Member(s, i).value;
    var xs := StringFound(s, i);
    BlanksFound(s, name);
    BlanksFound(s, colon + 1);
    var x := ElementFound(s, start, s[colon + 1..start]);
    p := Pair(lead, xs, s[name..colon], x);
    Slices(s, colon + 1, start, end);
    Slices(s, colon, colon + 1, end);
    assert s[colon..colon + 1] == ":";
    Slices(s, name, colon, end);
    Slices(s, i, name, end);
  }

  lemma PairsInFront(p: Pair, rest: seq<Pair>)
    requires rest != [] && GoodPair(p) && GoodPairs(rest)
    ensures GoodPairs([p] + rest) && WritePairs([p] + rest) == WritePair(p) + ("," + WritePairs(rest))
  {
    hide GoodPair, WritePair;
    assert ([p] + rest)[1..] == rest;
  }

  lemma {:induction false} PairsFound(s: Text, i: nat, lead: Text) returns (ps: seq<Pair>)
    requires i <= |s| && Members(s, i).Some? && AllIn(lead, BLANKS)
    ensures ps != [] && GoodPairs(ps) && WritePairs(ps) + "}" == lead + s[i..Members(s, i).value]
    decreases |s| - i, 1
  {
    hide Skip, Member, AllIn, GoodPair, WritePair, GoodPairs, WritePairs;
    var next, end := Member(s, i).value, Members(s, i).value;
    var p := PairFound(s, i, lead);
    if s[next] == '}' {
      ps := [p];
      OnePairAlone(p);
      Slices(s, i, next, end);
      assert s[next..end] == "}";
    } else {
      var start := Skip(s, next + 1);
      BlanksFound(s, next + 1);
      var rest := PairsFound(s, start, s[next + 1..start]);
      ps := [p] + rest;
      PairsInFront(p, rest);
      assert end == Members(s, start).value;
      hide Members;
      Commas(s, i, next, start, end, lead, WritePair(p), WritePairs(rest), "}");
    }
  }

  // ---- Together ----

  /** The decoder reads a text to its end if and only if the grammar has it. */
  lemma ReadIffWritten(t: Text)
    ensures Value(t, 0) == Some(|t|) <==> exists v :: Good(v) && Write(v) == t
  {
    hide Value, Good, Write;
    if Value(t, 0) == Some(|t|) {
      var v := SyntaxFound(t, 0);
      assert t[0..|t|] == t;
    }
    forall v | Good(v) && Write(v) == t ensures Value(t, 0) == Some(|t|) {
      assert At(t, 0, Write(v)) && Stopped(t, |t|);
      SyntaxRead(t, 0, v);
    }
  }

  /** The text is an object of the grammar, without an integer that is refused. */
  ghost predicate IsObject(t: Text) {
    exists v: Syntax :: v.SObject? && Good(v) && !Long(v) && Write(v) == t
  }

  /** `raw_decode` returns such an object if and only if its text is one of the grammar without too long an integer. */
  lemma DecodeIffWritten(t: Text)
    ensures t != "" && t[0] == '{' && Decode(t, 0) == Some(|t|) <==> IsObject(t)
  {
    hide Value, Trips, Good, Long;
    assert t[0..] == t;
    if t != "" && t[0] == '{' && Decode(t, 0) == Some(|t|) {
      var v := ObjectFound(t, 0);
      assert t[0..|t|] == t;
      assert At(t, 0, Write(v)) && Stopped(t, |t|);
      SyntaxRead(t, 0, v);
    }
    forall v: Syntax | v.SObject? && Good(v) && !Long(v) && Write(v) == t
      ensures t != "" && t[0] == '{' && Decode(t, 0) == Some(|t|)
    {
      assert At(t, 0, Write(v)) && Stopped(t, |t|);
      SyntaxRead(t, 0, v);
    }
  }
}
