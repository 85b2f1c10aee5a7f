/**
 Integers that Python refuses to convert. `int` raises a plain `ValueError` on more than 4300
 digits, and so does `raw_decode` when it comes to such an integer, whatever follows it.
 */
module DigitLimits {
  import opened Prelude
  import opened JsonText

  const MAX_DIGITS := 4300

  /** The index after the integer part of a number whose first digit is at `i`. */
  function Whole(s: Text, i: nat): (j: nat)
    requires i < |s|
    ensures i <= j <= |s|
  {
    if s[i] == '0' then i + 1 else Digits(s, i)
  }

  /** An integer, with neither fraction nor exponent, of too many digits. */
  predicate TooLong(s: Text, i: nat)
    requires i <= |s|
  {
    && Number(s, i).Some?
    && var first := if s[i] == '-' then i + 1 else i;
    Number(s, i).value == Whole(s, first) && Whole(s, first) - first > MAX_DIGITS
  }

  /** The decoder comes to such an integer before it finds the value at `i` ended or malformed. */
  predicate Trips(s: Text, i: nat)
    requires i <= |s|
    decreases |s| - i, 1
  {
    if i == |s| || s[i] == '"' then false
    else if s[i] == '{' then
      var j := Skip(s, i + 1);
      !(j < |s| && s[j] == '}') && TripsInMembers(s, j)
    else if s[i] == '[' then
      var j := Skip(s, i + 1);
      !(j < |s| && s[j] == ']') && TripsInElements(s, j)
    else Word(s, i).None? && TooLong(s, i)
  }

  predicate TripsInMember(s: Text, i: nat)
    requires i <= |s|
    decreases |s| - i, 0
  {
    if i == |s| || s[i] != '"' || StringBody(s, i + 1).None? then false
    else
      var colon := Skip(s, StringBody(s, i + 1).value);
      colon < |s| && s[colon] == ':' && Trips(s, Skip(s, colon + 1))
  }

  predicate TripsInMembers(s: Text, i: nat)
    requires i <= |s|
    decreases |s| - i, 1
  {
    || TripsInMember(s, i)
    || (Member(s, i).Some? && s[Member(s, i).value] == ',' && TripsInMembers(s, Skip(s, Member(s, i).value + 1)))
  }

  predicate TripsInElements(s: Text, i: nat)
    requires i <= |s|
    decreases |s| - i, 3
  {
    || Trips(s, i)
    || (Item(s, i).Some? && s[Item(s, i).value] == ',' && TripsInElements(s, Skip(s, Item(s, i).value + 1)))
  }

  // ---- In a value that is complete, the same integers stand in any larger text ----

  lemma TooLongInWindow(s: Text, w: Text, d: int, i: nat)
    requires i <= |s| && Number(s, i).Some? && Same(s, w, d, i, Number(s, i).value)
    requires Stopped(w, d + Number(s, i).value)
    ensures TooLong(w, d + i) == TooLong(s, i)
  {
    hide Digits, Fraction, Exponent;
    NumberAgrees(s, w, d, i);
    var first := if s[i] == '-' then i + 1 else i;
    var whole := Whole(s, first);
    ExponentAgrees(s, w, d, Fraction(s, whole));
    ExponentStart(s, w, d, Fraction(s, whole));
    FractionStart(s, w, d, whole);
    if s[first] != '0' { DigitsAgree(s, w, d, first); }
    assert w[d + i] == s[i] && w[d + first] == s[first];
  }

  lemma {:induction false} TripsInWindow(s: Text, w: Text, d: int, i: nat)
    requires Window(s, w, d, i) && Value(s, i).Some?
    requires s[i] == '{' || (Value(s, i).value < |s| && Stops(s[Value(s, i).value]))
    ensures Trips(w, d + i) == Trips(s, i)
    decreases |s| - i, 1
  {
    hide Skip, StringBody, Elements, Members, Number, Word, TooLong, TripsInMembers, TripsInElements;
    if s[i] == '{' || s[i] == '[' {
      SkipInWindow(s, w, d, i + 1);
      var j := Skip(s, i + 1);
      if s[i] == '{' && s[j] != '}' { MembersTripInWindow(s, w, d, j); }
      if s[i] == '[' && s[j] != ']' { ElementsTripInWindow(s, w, d, j); }
    } else if s[i] != '"' {
      WordInWindow(s, w, d, i);
      if Word(s, i).None? { TooLongInWindow(s, w, d, i); }
    }
  }

  lemma {:induction false} MemberTripInWindow(s: Text, w: Text, d: int, i: nat)
    requires Window(s, w, d, i) && Member(s, i).Some? && Stops(s[Member(s, i).value])
    ensures TripsInMember(w, d + i) == TripsInMember(s, i)
    decreases |s| - i, 0
  {
    hide Value, Skip, StringBody, Trips;
    StringInWindow(s, w, d, i + 1);
    var name := StringBody(s, i + 1).value;
    SkipInWindow(s, w, d, name);
    var colon := Skip(s, name);
    var start := Skip(s, colon + 1);
    SkipInWindow(s, w, d, colon + 1);
    SkipStops(s, Value(s, start).value);
    TripsInWindow(s, w, d, start);
  }

  lemma {:induction false} MembersTripInWindow(s: Text, w: Text, d: int, i: nat)
    requires Window(s, w, d, i) && Members(s, i).Some?
    ensures TripsInMembers(w, d + i) == TripsInMembers(s, i)
    decreases |s| - i, 1
  {
    hide Member, Skip, TripsInMember;
    var next := Member(s, i).value;
    MemberInWindow(s, w, d, i);
    MemberTripInWindow(s, w, d, i);
    if s[next] == ',' {
      SkipInWindow(s, w, d, next + 1);
      MembersTripInWindow(s, w, d, Skip(s, next + 1));
    }
  }

  lemma {:induction false} ElementsTripInWindow(s: Text, w: Text, d: int, i: nat)
    requires Window(s, w, d, i) && Elements(s, i).Some?
    ensures TripsInElements(w, d + i) == TripsInElements(s, i)
    decreases |s| - i, 3
  {
    hide Value, Skip, Trips;
    var next := Item(s, i).value;
    ItemInWindow(s, w, d, i);
    SkipStops(s, Value(s, i).value);
    TripsInWindow(s, w, d, i);
    if s[next] == ',' {
      SkipInWindow(s, w, d, next + 1);
      ElementsTripInWindow(s, w, d, Skip(s, next + 1));
    }
  }

  // ---- What `raw_decode` gives ----

  /** `raw_decode` raises something else than a `JSONDecodeError` on the text from `i` on. */
  predicate Refused(s: Text, i: nat)
    requires i <= |s|
  {
    Trips(s[i..], 0)
  }

  /** The index after the value at `i`, if `raw_decode` returns one. */
  function Decode(s: Text, i: nat): (r: Option<nat>)
    requires i <= |s|
    ensures r.Some? ==> i < r.value <= |s|
  {
    if Refused(s, i) then None else Value(s, i)
  }

  /** A complete object is decoded alike wherever it stands. */
  lemma DecodeInWindow(s: Text, w: Text, d: int, i: nat)
    requires Window(s, w, d, i) && i < |s| && s[i] == '{' && Value(s, i).Some?
    ensures Value(w, d + i) == Some(d + Value(s, i).value) && Refused(w, d + i) == Refused(s, i)
    ensures Decode(w, d + i) == if Decode(s, i).Some? then Some(d + Decode(s, i).value) else None
  {
    hide Value, Trips;
    ValueInWindow(s, w, d, i);
    var back: int := 0 - i;
    ValueInWindow(s, s[i..], back, i);
    assert s[i..][0] == s[i];
    assert Window(s[i..], w[d + i..], 0, 0) by {
      forall k | 0 <= k < |s[i..]| ensures s[i..][k] == w[d + i..][k] { assert s[i + k] == w[d + (i + k)]; }
    }
    TripsInWindow(s[i..], w[d + i..], 0, 0);
  }
}
