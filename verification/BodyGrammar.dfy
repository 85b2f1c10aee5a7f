/** Exactly which bodies the request body parser takes, and what it reads in them. */
module BodyGrammar {
  import opened Prelude
  import opened JsonText
  import opened DigitLimits
  import opened JsonGrammar
  import opened JsonDump
  import opened MessageStream

  /** The characters for which `str.isspace` holds. */
  const SPACES := "\t\n\U{B}\U{C}\r\U{1C}\U{1D}\U{1E}\U{1F} \U{85}\U{A0}\U{1680}\U{2000}\U{2001}\U{2002}\U{2003}\U{2004}\U{2005}\U{2006}\U{2007}\U{2008}\U{2009}\U{200A}\U{2028}\U{2029}\U{202F}\U{205F}\U{3000}"

  predicate PythonSpace(c: char) {
    c in SPACES
  }

  lemma SpaceIff(c: char)
    ensures PythonSpace(c) <==> IsSpace(c)
  {
    if IsSpace(c) {
      var n := c as int;
      var k := if n <= 13 then n - 9 else if n <= 32 then n - 28 + 5 else if n == 0x85 then 10 else if n == 0xA0 then 11
        else if n == 0x1680 then 12 else if n <= 0x200A then n - 0x2000 + 13 else if n == 0x2028 then 24
        else if n == 0x2029 then 25 else if n == 0x202F then 26 else if n == 0x205F then 27 else 28;
      assert SPACES[k] == c;
    }
  }

  predicate Spaces(t: Text) {
    forall k | 0 <= k < |t| :: PythonSpace(t[k])
  }

  /** What may stand in front of an element: spaces and any number of commas. */
  predicate Gap(t: Text) {
    forall k | 0 <= k < |t| :: PythonSpace(t[k]) || t[k] == ','
  }

  /** What may follow the last element: the array need not be closed. */
  ghost predicate Ending(t: Text) {
    Gap(t) || exists k :: ClosedAt(t, k)
  }

  predicate ClosedAt(t: Text, k: int) {
    0 <= k < |t| && Gap(t[..k]) && t[k] == ']' && Spaces(t[k + 1..])
  }

  /** Objects, each after its own gap. */
  function InArray(gaps: seq<Text>, objects: seq<Text>): (t: Text)
    requires |gaps| == |objects|
  {
    if gaps == [] then "" else gaps[0] + (objects[0] + InArray(gaps[1..], objects[1..]))
  }

  ghost predicate WrittenAs(t: Text, gaps: seq<Text>, objects: seq<Text>, ending: Text) {
    && |gaps| == |objects|
    && (forall k | 0 <= k < |gaps| :: Gap(gaps[k]))
    && (forall k | 0 <= k < |objects| :: IsObject(objects[k]))
    && Ending(ending)
    && t == InArray(gaps, objects) + ending
  }

  /** `objects` in a text that follows an opening bracket. */
  ghost predicate LaxArray(t: Text, objects: seq<Text>) {
    exists gaps, ending :: WrittenAs(t, gaps, objects, ending)
  }

  // ---- Whatever is written so is read so ----

  lemma GapStep(w: Text, i: nat)
    requires i < |w| && (PythonSpace(w[i]) || w[i] == ',')
    ensures Items(w, i) == Items(w, i + 1)
  {
    hide Items, IsSpace, PythonSpace;
    SpaceIff(w[i]);
    FromArray(w, i);
    FromArray(w, i + 1);
    if w[i] == ',' { FromSeparator(w, i); } else { FromSpace(Array, w, i); }
  }

  lemma {:induction false} GapSkipped(w: Text, i: nat, gap: Text)
    requires Gap(gap) && At(w, i, gap)
    ensures Items(w, i) == Items(w, i + |gap|)
    decreases |gap|
  {
    hide Items, IsSpace, PythonSpace;
    if gap != "" {
      var rest := gap[1..];
      assert forall k | 0 <= k < |rest| :: rest[k] == gap[k + 1] == w[i + 1 + k];
      assert w[i] == gap[0];
      GapStep(w, i);
      GapSkipped(w, i + 1, rest);
    }
  }

  lemma ObjectRead(w: Text, j: nat, t: Text)
    requires IsObject(t) && At(w, j, t)
    ensures Items(w, j) == Yielded([t], Items(w, j + |t|))
  {
    hide Value, Refused, Items, IsObject;
    DecodeIffWritten(t);
    DecodeInWindow(t, w, j, 0);
    assert w[j] == t[0] && w[j..j + |t|] == t;
    FromObject(Array, w, j);
    FromArray(w, j);
    FromArray(w, j + |t|);
  }

  lemma FromArray(s: Text, i: nat)
    requires i <= |s|
    ensures From(Array, s, i) == Items(s, i)
  {
  }

  lemma {:induction false} SpacesSkipped(w: Text, i: nat)
    requires i <= |w| && Spaces(w[i..])
    ensures SkipSpace(w, i) == |w|
    decreases |w| - i
  {
    if i < |w| {
      assert w[i] == w[i..][0] && w[i..][1..] == w[i + 1..];
      hide PythonSpace, IsSpace;
      SpaceIff(w[i]);
      SpacesSkipped(w, i + 1);
    }
  }

  lemma ClosedRead(w: Text, i: nat, ending: Text, k: nat)
    requires ClosedAt(ending, k) && i <= |w| && w[i..] == ending
    ensures Items(w, i) == Outcome([], true)
  {
    hide Decode, Gap, Spaces, SkipSpace, From, Items;
    var j := i + k;
    assert At(w, i, ending[..k]);
    GapSkipped(w, i, ending[..k]);
    assert w[j] == ending[k];
    FromArray(w, j);
    FromSeparator(w, j);
    assert w[j + 1..] == ending[k + 1..];
    SpacesSkipped(w, j + 1);
    FromDone(w, j + 1);
  }

  lemma FromDone(w: Text, i: nat)
    requires i <= |w|
    ensures From(Done, w, i) == Outcome([], SkipSpace(w, i) == |w|)
  {
  }

  lemma EndingRead(w: Text, i: nat, ending: Text)
    requires Ending(ending) && i <= |w| && w[i..] == ending
    ensures Items(w, i) == Outcome([], true)
  {
    hide Decode, Gap, ClosedAt, SkipSpace, Items;
    if Gap(ending) {
      assert At(w, i, ending);
      GapSkipped(w, i, ending);
      FromArray(w, |w|);
      FromEnd(Array, w);
    } else {
      var k :| ClosedAt(ending, k);
      assert 0 <= k by { ClosedInside(ending, k); }
      ClosedRead(w, i, ending, k);
    }
  }

  lemma ClosedInside(t: Text, k: int)
    requires ClosedAt(t, k)
    ensures 0 <= k < |t|
  {
  }

  lemma Unfolded(w: Text, i: nat, gap: Text, obj: Text, rest: Text)
    requires i <= |w| && w[i..] == gap + (obj + rest)
    ensures At(w, i, gap) && At(w, i + |gap|, obj)
    ensures i + |gap| + |obj| <= |w| && w[i + |gap| + |obj|..] == rest
  {
    assert At(w, i, gap + (obj + rest));
    AtSplit(w, i, gap, obj + rest);
    AtSplit(w, i + |gap|, obj, rest);
  }

  lemma {:induction false} WrittenRead(w: Text, i: nat, gaps: seq<Text>, objects: seq<Text>, ending: Text)
    requires i <= |w| && WrittenAs(w[i..], gaps, objects, ending)
    ensures Items(w, i) == Outcome(objects, true)
    decreases |gaps|
  {
    hide Decode, Gap, Items, Ending, IsObject, At;
    if gaps == [] {
      EndingRead(w, i, ending);
    } else {
      var rest := InArray(gaps[1..], objects[1..]) + ending;
      assert w[i..] == gaps[0] + (objects[0] + rest);
      Unfolded(w, i, gaps[0], objects[0], rest);
      GapSkipped(w, i, gaps[0]);
      ObjectRead(w, i + |gaps[0]|, objects[0]);
      WrittenRead(w, i + |gaps[0]| + |objects[0]|, gaps[1..], objects[1..], ending);
      assert objects == [objects[0]] + objects[1..];
    }
  }

  // ---- Whatever is read is written so ----

  /** The text of a value, taken out of what stands around it, is that value still. */
  lemma ObjectTaken(s: Text, j: nat)
    requires j < |s| && s[j] == '{' && Decode(s, j).Some?
    ensures IsObject(s[j..Decode(s, j).value])
  {
    hide Value, Refused, IsObject;
    var end := Decode(s, j).value;
    var t := s[j..end];
    ValueCut(s, s[..end], j);
    var back: int := 0 - j;
    ValueInWindow(s[..end], t, back, j);
    assert t[0] == s[j];
    DecodeInWindow(t, s, j, 0);
    DecodeIffWritten(t);
  }

  lemma {:induction false} SpacesTaken(s: Text, i: nat)
    requires i <= |s|
    ensures Spaces(s[i..SkipSpace(s, i)])
    decreases |s| - i
  {
    hide PythonSpace, IsSpace;
    if i < |s| && IsSpace(s[i]) {
      SpaceIff(s[i]);
      SpacesTaken(s, i + 1);
      var j := SkipSpace(s, i);
      assert s[i..j] == [s[i]] + s[i + 1..j];
    }
  }

  lemma GapLonger(lead: Text, ending: Text)
    requires Gap(lead) && Ending(ending)
    ensures Ending(lead + ending)
  {
    if !Gap(ending) {
      var k :| ClosedAt(ending, k);
      var all := lead + ending;
      assert all[..|lead| + k] == lead + ending[..k];
      assert all[|lead| + k + 1..] == ending[k + 1..];
      assert ClosedAt(all, |lead| + k);
    }
  }

  lemma LeadWritten(t: Text, lead: Text, gaps: seq<Text>, objects: seq<Text>, ending: Text)
    returns (gaps': seq<Text>, ending': Text)
    requires Gap(lead) && WrittenAs(t, gaps, objects, ending)
    ensures WrittenAs(lead + t, gaps', objects, ending')
  {
    hide IsObject, Ending;
    if gaps == [] {
      gaps', ending' := gaps, lead + ending;
      GapLonger(lead, ending);
      assert lead + t == ending';
    } else {
      gaps', ending' := [lead + gaps[0]] + gaps[1..], ending;
      assert gaps'[1..] == gaps[1..];
      assert lead + t == InArray(gaps', objects) + ending;
    }
  }

  lemma ObjectWritten(t: Text, obj: Text, gaps: seq<Text>, objects: seq<Text>, ending: Text)
    requires IsObject(obj) && WrittenAs(t, gaps, objects, ending)
    ensures WrittenAs(obj + t, [""] + gaps, [obj] + objects, ending)
  {
    hide IsObject, Ending;
    var gaps', objects' := [""] + gaps, [obj] + objects;
    assert gaps'[1..] == gaps && objects'[1..] == objects;
    assert obj + t == InArray(gaps', objects') + ending;
  }

  lemma {:induction false} ReadWritten(s: Text, i: nat) returns (gaps: seq<Text>, ending: Text)
    requires i <= |s| && Items(s, i).ok
    ensures WrittenAs(s[i..], gaps, Items(s, i).messages, ending)
    decreases |s| - i
  {
    hide Decode, IsObject, WrittenAs, Gap, Spaces, SkipSpace, Ending;
    var j := SkipSpace(s, i);
    SpacesTaken(s, i);
    if j == |s| || s[j] == ']' {
      gaps, ending := [], s[i..];
      LastWritten(s, i);
    } else if s[j] == ',' {
      gaps, ending := ReadWritten(s, j + 1);
      CommaTaken(s, i);
      gaps, ending := LeadWritten(s[j + 1..], s[i..j + 1], gaps, Items(s, i).messages, ending);
      assert s[i..] == s[i..j + 1] + s[j + 1..];
    } else {
      var end := Decode(s, j).value;
      gaps, ending := ReadWritten(s, end);
      ObjectTaken(s, j);
      ObjectWritten(s[end..], s[j..end], gaps, Items(s, end).messages, ending);
      assert s[j..] == s[j..end] + s[end..];
      SpacesGap(s[i..j]);
      gaps, ending := LeadWritten(s[j..], s[i..j], [""] + gaps, Items(s, i).messages, ending);
      assert s[i..] == s[i..j] + s[j..];
    }
  }

  lemma SpacesGap(t: Text)
    requires Spaces(t)
    ensures Gap(t)
  {
  }

  lemma CommaTaken(s: Text, i: nat)
    requires i <= |s| && SkipSpace(s, i) < |s| && s[SkipSpace(s, i)] == ','
    ensures Gap(s[i..SkipSpace(s, i) + 1])
  {
    hide SkipSpace;
    SpacesTaken(s, i);
    var j := SkipSpace(s, i);
    assert s[i..j + 1] == s[i..j] + [s[j]];
  }

  lemma LastRead(s: Text, i: nat)
    requires i <= |s| && Items(s, i).ok
    requires var j := SkipSpace(s, i); j == |s| || s[j] == ']'
    ensures Items(s, i).messages == []
    ensures var j := SkipSpace(s, i); j < |s| ==> SkipSpace(s, j + 1) == |s|
  {
    hide Decode, SkipSpace;
  }

  lemma LastWritten(s: Text, i: nat)
    requires i <= |s| && Items(s, i).ok
    requires var j := SkipSpace(s, i); j == |s| || s[j] == ']'
    ensures Items(s, i).messages == [] && WrittenAs(s[i..], [], [], s[i..])
  {
    hide Items, SkipSpace, Gap, Spaces;
    LastRead(s, i);
    SpacesTaken(s, i);
    var j := SkipSpace(s, i);
    SpacesGap(s[i..j]);
    if j < |s| {
      SpacesTaken(s, j + 1);
      assert s[j + 1..|s|] == s[j + 1..];
      var k := j - i;
      assert s[i..][..k] == s[i..j] && s[i..][k] == ']' && s[i..][k + 1..] == s[j + 1..];
      assert ClosedAt(s[i..], k);
    } else {
      assert s[i..j] == s[i..];
    }
    assert s[i..] == InArray([], []) + s[i..];
  }

  /**
   The array mode is exactly this lax: a body that starts with a bracket is read to its end as the
   messages `objects` if and only if it is these objects, each after any spaces and commas, and then
   spaces and commas once more, with a closing bracket and spaces after that or without.
   */
  lemma ArrayReadIff(body: Text, objects: seq<Text>)
    requires SkipSpace(body, 0) < |body| && body[SkipSpace(body, 0)] == '['
    ensures Body(body, 0) == Outcome(objects, true) <==> LaxArray(body[SkipSpace(body, 0) + 1..], objects)
  {
    hide LaxArray, Items, SkipSpace, Body;
    var i := SkipSpace(body, 0) + 1;
    ArrayBody(body);
    if Items(body, i) == Outcome(objects, true) { ReadIsLax(body, i); }
    if LaxArray(body[i..], objects) { LaxIsRead(body, i, objects); }
  }

  lemma ArrayBody(body: Text)
    requires SkipSpace(body, 0) < |body| && body[SkipSpace(body, 0)] == '['
    ensures Body(body, 0) == Items(body, SkipSpace(body, 0) + 1)
  {
    hide Items, One, SkipSpace;
  }

  lemma ReadIsLax(s: Text, i: nat)
    requires i <= |s| && Items(s, i).ok
    ensures LaxArray(s[i..], Items(s, i).messages)
  {
    hide WrittenAs, Items;
    var gaps, ending := ReadWritten(s, i);
  }

  lemma LaxIsRead(s: Text, i: nat, objects: seq<Text>)
    requires i <= |s| && LaxArray(s[i..], objects)
    ensures Items(s, i) == Outcome(objects, true)
  {
    hide WrittenAs, Items;
    var gaps, ending :| WrittenAs(s[i..], gaps, objects, ending);
    WrittenRead(s, i, gaps, objects, ending);
  }

  // ---- Whole bodies ----

  /** What a body has to be for these messages, and no error. */
  ghost predicate BodyAs(body: Text, objects: seq<Text>) {
    || (objects == [] && Spaces(body))
    || (|objects| == 1 && IsObject(objects[0]) && exists lead, trail ::
          Spaces(lead) && Spaces(trail) && body == lead + (objects[0] + trail))
    || exists lead, inner :: Spaces(lead) && LaxArray(inner, objects) && body == lead + ("[" + inner)
  }

  lemma {:induction false} LeadSkipped(w: Text, i: nat, lead: Text)
    requires Spaces(lead) && At(w, i, lead)
    requires i + |lead| == |w| || !PythonSpace(w[i + |lead|])
    ensures SkipSpace(w, i) == i + |lead|
    decreases |lead|
  {
    hide PythonSpace, IsSpace;
    if lead == "" {
      if i < |w| { SpaceIff(w[i]); }
    } else {
      var rest := lead[1..];
      assert forall k | 0 <= k < |rest| :: rest[k] == lead[k + 1] == w[i + 1 + k];
      assert w[i] == lead[0];
      SpaceIff(w[i]);
      LeadSkipped(w, i + 1, rest);
    }
  }

  lemma NoSpace()
    ensures !PythonSpace('[') && !PythonSpace('{')
  {
  }

  lemma BlankBody(body: Text)
    requires Spaces(body)
    ensures Body(body, 0) == Outcome([], true)
  {
    hide PythonSpace, SkipSpace, Decode, Items;
    assert body[0..] == body;
    SpacesSkipped(body, 0);
  }

  lemma OneBody(body: Text, lead: Text, obj: Text, trail: Text)
    requires Spaces(lead) && Spaces(trail) && IsObject(obj) && body == lead + (obj + trail)
    ensures Body(body, 0) == Outcome([obj], true)
  {
    hide PythonSpace, SkipSpace, Value, Refused, Items, IsObject;
    var j := |lead|;
    DecodeIffWritten(obj);
    NoSpace();
    assert At(body, 0, lead) && At(body, j, obj) && body[j] == obj[0];
    LeadSkipped(body, 0, lead);
    DecodeInWindow(obj, body, j, 0);
    assert body[j..j + |obj|] == obj && body[j + |obj|..] == trail;
    SpacesSkipped(body, j + |obj|);
    SkipNothing(body, j);
  }

  lemma SkipNothing(s: Text, i: nat)
    requires i < |s| && s[i] == '{'
    ensures SkipSpace(s, i) == i
  {
    hide PythonSpace;
    NoSpace();
    SpaceIff(s[i]);
  }

  lemma ArrayIs(body: Text, lead: Text, inner: Text, objects: seq<Text>)
    requires Spaces(lead) && LaxArray(inner, objects) && body == lead + ("[" + inner)
    ensures Body(body, 0) == Outcome(objects, true)
  {
    hide PythonSpace, SkipSpace, Items, LaxArray, Decode;
    NoSpace();
    assert At(body, 0, lead) && body[|lead|] == '[';
    LeadSkipped(body, 0, lead);
    assert body[|lead| + 1..] == inner;
    LaxIsRead(body, |lead| + 1, objects);
  }

  lemma BodyIs(body: Text)
    requires Body(body, 0).ok
    ensures BodyAs(body, Body(body, 0).messages)
  {
    hide PythonSpace, SkipSpace, Value, Refused, Items, IsObject, LaxArray;
    var j := SkipSpace(body, 0);
    var lead := body[0..j];
    SpacesTaken(body, 0);
    if j == |body| {
      assert lead == body;
    } else if body[j] == '[' {
      ReadIsLax(body, j + 1);
      assert body == lead + ("[" + body[j + 1..]);
    } else {
      OneIs(body, j);
      var end := Decode(body, j).value;
      SpacesTaken(body, end);
      assert body[end..|body|] == body[end..];
      ObjectTaken(body, j);
      assert body == lead + (body[j..end] + body[end..]);
    }
  }

  lemma OneIs(s: Text, j: nat)
    requires j < |s| && !IsSpace(s[j]) && One(s, j).ok
    ensures s[j] == '{' && Decode(s, j).Some? && SkipSpace(s, Decode(s, j).value) == |s|
    ensures One(s, j).messages == [s[j..Decode(s, j).value]]
  {
    hide Decode;
  }

  /**
   A body is read to its end, as these messages, if and only if it is blank, or one object with
   spaces around it, or such an array. So this is what the parser takes, whatever the chunks.
   */
  lemma BodyReadIff(body: Text, objects: seq<Text>)
    ensures Body(body, 0) == Outcome(objects, true) <==> BodyAs(body, objects)
  {
    hide Spaces, LaxArray, IsObject, Body;
    if Body(body, 0) == Outcome(objects, true) { BodyIs(body); }
    if objects == [] && Spaces(body) { BlankBody(body); }
    if |objects| == 1 && IsObject(objects[0]) {
      forall lead, trail | Spaces(lead) && Spaces(trail) && body == lead + (objects[0] + trail)
        ensures Body(body, 0) == Outcome(objects, true)
      {
        OneBody(body, lead, objects[0], trail);
      }
    }
    forall lead, inner | Spaces(lead) && LaxArray(inner, objects) && body == lead + ("[" + inner)
      ensures Body(body, 0) == Outcome(objects, true)
    {
      ArrayIs(body, lead, inner, objects);
    }
  }

  // ---- Lines ----

  /** A line of one object, with blanks of JSON around it. */
  ghost predicate LineAs(line: Text, obj: Text) {
    IsObject(obj) && exists lead, trail :: AllIn(lead, BLANKS) && AllIn(trail, BLANKS) && line == lead + (obj + trail)
  }

  lemma LineIs(line: Text, obj: Text, lead: Text, trail: Text)
    requires IsObject(obj) && AllIn(lead, BLANKS) && AllIn(trail, BLANKS) && line == lead + (obj + trail)
    ensures Line(line) == Some(obj)
  {
    hide Value, Refused, IsObject, AllIn, Skip;
    var j := |lead|;
    DecodeIffWritten(obj);
    assert At(line, 0, lead) && At(line, j, obj) && line[j] == obj[0] == '{';
    SkipBlanks(line, 0, lead);
    DecodeInWindow(obj, line, j, 0);
    assert line[j..j + |obj|] == obj && At(line, j + |obj|, trail);
    SkipToEnd(line, j + |obj|, trail);
  }

  lemma {:induction false} SkipToEnd(w: Text, i: nat, t: Text)
    requires AllIn(t, BLANKS) && At(w, i, t) && i + |t| == |w|
    ensures Skip(w, i) == |w|
    decreases |t|
  {
    if t != "" {
      assert w[i] == t[0];
      assert forall k | 0 <= k < |t| - 1 :: t[1..][k] == t[k + 1] == w[i + 1 + k];
      SkipToEnd(w, i + 1, t[1..]);
    }
  }

  lemma LineReadIff(line: Text, obj: Text)
    ensures Line(line) == Some(obj) <==> LineAs(line, obj)
  {
    hide Value, Refused, IsObject, AllIn, Skip;
    if Line(line) == Some(obj) {
      var j := Skip(line, 0);
      var end := Decode(line, j).value;
      BlanksFound(line, 0);
      BlanksFound(line, end);
      ObjectTaken(line, j);
      assert line[end..|line|] == line[end..];
      assert line == line[0..j] + (obj + line[end..]);
    }
    forall lead, trail | IsObject(obj) && AllIn(lead, BLANKS) && AllIn(trail, BLANKS) && line == lead + (obj + trail)
      ensures Line(line) == Some(obj)
    {
      LineIs(line, obj, lead, trail);
    }
  }

  lemma BlankIff(line: Text)
    ensures Blank(line) <==> Spaces(line)
  {
    hide SkipSpace, PythonSpace;
    assert line[0..] == line;
    if Spaces(line) { SpacesSkipped(line, 0); }
    SpacesTaken(line, 0);
    if Blank(line) { assert line[0..|line|] == line; }
  }

  /** Lines that are blank or hold one object each, and these objects. */
  ghost predicate LinesAs(lines: seq<Text>, objects: seq<Text>)
    decreases |lines|
  {
    if lines == [] then objects == []
    else if Spaces(lines[0]) then LinesAs(lines[1..], objects)
    else objects != [] && LineAs(lines[0], objects[0]) && LinesAs(lines[1..], objects[1..])
  }

  lemma {:induction false} LinesReadIff(lines: seq<Text>, objects: seq<Text>)
    ensures Lines(lines) == Outcome(objects, true) <==> LinesAs(lines, objects)
    decreases |lines|
  {
    hide Spaces, LineAs, Line, Blank;
    if lines != [] {
      BlankIff(lines[0]);
      if Spaces(lines[0]) {
        LinesReadIff(lines[1..], objects);
      } else {
        if objects != [] {
          LineReadIff(lines[0], objects[0]);
          LinesReadIff(lines[1..], objects[1..]);
          assert objects == [objects[0]] + objects[1..];
        }
        if Line(lines[0]).Some? && Lines(lines) == Outcome(objects, true) {
          assert objects[0] == Line(lines[0]).value && objects[1..] == Lines(lines[1..]).messages;
        }
      }
    }
  }

  /** An NDJSON body is read to its end, as these messages, if and only if its lines are blank or hold one of them each, in order. */
  lemma NdjsonReadIff(lines: seq<Text>, objects: seq<Text>)
    requires lines != [] && forall k | 0 <= k < |lines| :: '\n' !in lines[k]
    ensures Lines(Split(Join(lines, '\n'), '\n')) == Outcome(objects, true) <==> LinesAs(lines, objects)
  {
    hide Lines, LinesAs, Split, Join;
    SplitOfJoin(lines, '\n');
    LinesReadIff(lines, objects);
  }

  // ---- Round trip ----

  function Dumps(objects: seq<seq<Field>>): (ts: seq<Text>)
    ensures |ts| == |objects|
    ensures forall k | 0 <= k < |objects| :: ts[k] == Dump(JObject(objects[k]))
  {
    if objects == [] then [] else [Dump(JObject(objects[0]))] + Dumps(objects[1..])
  }

  lemma DumpIsObject(ms: seq<Field>)
    requires MembersWellFormed(ms)
    ensures IsObject(Dump(JObject(ms)))
  {
    hide Good, Long, Write, Dump, MembersWellFormed;
    LaidIsDump(JObject(ms));
  }

  /**
   However dumped objects are spaced, with or without commas, and whether or not the bracket is
   ever closed, the parser yields exactly them.
   */
  lemma ArrayRoundTrip(gaps: seq<Text>, objects: seq<seq<Field>>, ending: Text)
    requires |gaps| == |objects| && Ending(ending)
    requires forall k | 0 <= k < |gaps| :: Gap(gaps[k]) && MembersWellFormed(objects[k])
    ensures Body("[" + (InArray(gaps, Dumps(objects)) + ending), 0) == Outcome(Dumps(objects), true)
  {
    hide Gap, Ending, IsObject, MembersWellFormed, Items;
    var inner := InArray(gaps, Dumps(objects)) + ending;
    var w := "[" + inner;
    forall k | 0 <= k < |objects| ensures IsObject(Dumps(objects)[k]) {
      DumpIsObject(objects[k]);
    }
    assert w[1..] == inner && w[0] == '[';
    WrittenRead(w, 1, gaps, Dumps(objects), ending);
  }

  // ---- A body that is read as a whole and not in two chunks ----

  /** What reading `{"a":` comes to, in front of a digit. */
  lemma FieldRead(s: Text)
    requires |s| > 5 && s[..5] == "{\"a\":" && Digit(s[5])
    ensures Trips(s, 0) == TripsInMembers(s, 1) && TripsInMember(s, 1) == TooLong(s, 5)
  {
    hide Members, TripsInMembers, Elements, TripsInElements, Digits, Fraction, Exponent;
    var head := s[..5];
    assert s[0] == head[0] && s[1] == head[1] && s[2] == head[2] && s[3] == head[3] && s[4] == head[4];
    assert StringBody(s, 3) == Some(4);
  }

  /** An object with one number, of these digits and a fraction. */
  function LongFloat(digits: Text): (t: Text) {
    "{\"a\":" + digits + ".5}"
  }

  predicate LongDigits(digits: Text) {
    |digits| > 4300 && AllIn(digits, DIGITS) && digits[0] != '0'
  }

  lemma LongFloatIsObject(digits: Text)
    requires LongDigits(digits)
    ensures IsObject(LongFloat(digits))
  {
    var e := LongFloatElement(digits);
    hide LongDigits, GoodElement, WriteElement, Long;
    var p := Pair("", [Plain('a')], "", e);
    assert [Plain('a')][1..] == [];
    assert WriteChars([Plain('a')]) == "a" && GoodChars(p.name);
    assert WritePair(p) == "\"a\":" + (digits + ".5") && GoodPair(p);
    OnePair(p);
    ObjectOfOne(p, digits);
  }

  lemma LongFloatElement(digits: Text) returns (e: Element)
    requires LongDigits(digits)
    ensures GoodElement(e) && WriteElement(e) == digits + ".5" && !Long(e.value)
  {
    var n := Numeral(false, digits, Some("5"), None);
    assert GoodNumeral(n) && WriteNumeral(n) == digits + ".5" && !LongNumeral(n);
    hide GoodNumeral, WriteNumeral, LongDigits, LongNumeral;
    e := Element("", SNumber(n), "");
  }

  lemma ObjectOfOne(p: Pair, digits: Text)
    requires GoodPairs([p]) && WritePairs([p]) == "\"a\":" + (digits + ".5") && !Long(p.element.value)
    ensures IsObject(LongFloat(digits))
  {
    hide GoodPairs, WritePairs;
    var v := SObject([p], "");
    assert Write(v) == LongFloat(digits);
    assert Good(v) && !Long(v);
  }

  lemma OnePair(p: Pair)
    ensures WritePairs([p]) == WritePair(p) && (GoodPairs([p]) <==> GoodPair(p))
  {
    hide GoodPair, WritePair;
    assert [p][1..] == [];
  }

  /** Cut after its digits, it is an integer that the decoder refuses, although there is no such integer in the whole. */
  lemma LongFloatCut(digits: Text)
    requires LongDigits(digits)
    ensures var chunks := ["{\"a\":" + digits, ".5}"];
      Body(Concat(chunks), 0) == Outcome([LongFloat(digits)], true) && !CutWell(chunks, 2)
  {
    hide Decode, Trips, TooLong, IsObject;
    var s, t := LongFloat(digits), "{\"a\":" + digits;
    var chunks := [t, ".5}"];
    assert Concat(chunks) == s && Arrived(chunks, 1) == |t| by {
      assert chunks[1..] == [".5}"] && [".5}"][1..] == [];
    }
    LongFloatIsObject(digits);
    assert s == "" + (s + "");
    OneBody(s, "", s, "");
    DecodeIffWritten(s);
    PrefixRefused(digits);
    assert s[0..|t|] == t && s[0] == '{';
    assert CutsAt(s, 0, |t|);
    hide Body, CutsAt;
    CutsOneAt(s, |t|);
    assert Cuts(s, 0, Arrived(chunks, 1));
  }

  lemma CutsOneAt(s: Text, n: nat)
    requires s != "" && s[0] == '{' && n <= |s| && CutsAt(s, 0, n)
    ensures Cuts(s, 0, n)
  {
    hide CutsAt;
    SkipNothing(s, 0);
  }

  lemma PrefixRefused(digits: Text)
    requires LongDigits(digits)
    ensures Trips("{\"a\":" + digits, 0)
  {
    hide Trips, TooLong;
    var t := "{\"a\":" + digits;
    var n := Numeral(false, digits, None, None);
    assert WriteNumeral(n) == digits && At(t, 5, digits) && t[..5] == "{\"a\":";
    NumeralRead(t, 5, n);
    assert t[5] == digits[0] && digits[0] in DIGITS && t[5] != '-';
    FieldRead(t);
    hide TripsInMember;
    assert TripsInMembers(t, 1);
  }
}
