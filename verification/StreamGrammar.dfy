/**
 The event streams that the dashboard's client reads, defined by how they are written, after
 section 9.2 of the WHATWG HTML standard: what every stream means to
 frontend/src/api/sse.ts, and that the server's frames are such a stream.
 */
module StreamGrammar {
  import opened Prelude
  import opened TrafficStream

  /** The white space and line terminators of ECMAScript. */
  const BLANKS := "\t\n\U{B}\U{C}\r \U{A0}\U{1680}\U{2000}\U{2001}\U{2002}\U{2003}\U{2004}\U{2005}\U{2006}\U{2007}\U{2008}\U{2009}\U{200A}\U{2028}\U{2029}\U{202F}\U{205F}\U{3000}\U{FEFF}"

  predicate Blank(c: char) {
    c in BLANKS
  }

  lemma BlankIff(c: char)
    ensures Blank(c) <==> Trimmed(c)
  {
    if Trimmed(c) {
      var n := c as int;
      var k := if n <= 13 then n - 9 else if n == 32 then 5 else if n == 0xA0 then 6 else if n == 0x1680 then 7
        else if n <= 0x200A then n - 0x2000 + 8 else if n == 0x2028 then 19 else if n == 0x2029 then 20
        else if n == 0x202F then 21 else if n == 0x205F then 22 else if n == 0x3000 then 23 else 24;
      assert BLANKS[k] == c;
    }
  }

  predicate Blanks(t: string) {
    forall k | 0 <= k < |t| :: Blank(t[k])
  }

  /** Text without blanks at its ends. */
  predicate Core(t: string) {
    t != "" ==> !Blank(t[0]) && !Blank(t[|t| - 1])
  }

  /** A line of a block: a comment, an event name or a piece of data between blanks, or anything else. */
  datatype Line =
    | Comment(text: string)
    | Name(before: string, value: string, after: string)
    | Data(before: string, value: string, after: string)
    | Ignored(text: string)

  predicate Good(l: Line) {
    && '\n' !in WriteLine(l)
    && match l
       case Comment(_) => true
       case Ignored(text) => !(":" <= text) && !("event:" <= text) && !("data:" <= text)
       case _ => Blanks(l.before) && Core(l.value) && Blanks(l.after)
  }

  predicate AllGood(ls: seq<Line>) {
    forall k | 0 <= k < |ls| :: Good(ls[k])
  }

  function WriteLine(l: Line): (t: string) {
    match l
    case Comment(text) => ":" + text
    case Name(before, value, after) => "event:" + (before + value + after)
    case Data(before, value, after) => "data:" + (before + value + after)
    case Ignored(text) => text
  }

  function WriteLines(ls: seq<Line>): (ts: seq<string>)
    ensures |ts| == |ls|
    ensures forall k | 0 <= k < |ls| :: ts[k] == WriteLine(ls[k])
  {
    seq(|ls|, k requires 0 <= k < |ls| => WriteLine(ls[k]))
  }

  /** The name of a block is the last one given. */
  function NameOf(ls: seq<Line>): (name: string) {
    if ls == [] then "message"
    else if ls[|ls| - 1].Name? then ls[|ls| - 1].value
    else NameOf(ls[..|ls| - 1])
  }

  /** The data of a block is all its pieces together. */
  function DataOf(ls: seq<Line>): (data: string) {
    if ls == [] then ""
    else DataOf(ls[..|ls| - 1]) + (if ls[|ls| - 1].Data? then ls[|ls| - 1].value else "")
  }

  /** What a block tells: nothing without data that can be parsed, the snapshot if it is one, or else a record. */
  function Told(ls: seq<Line>, reader: Reader): (es: seq<Event>) {
    if DataOf(ls) == "" || !reader.parses(DataOf(ls)) then []
    else if NameOf(ls) == "snapshot" && reader.hasItems(DataOf(ls)) then [SnapshotEvent(DataOf(ls))]
    else [RecordEvent(DataOf(ls))]
  }

  // ---- One block ----

  lemma {:induction false} TrimBefore(before: string, rest: string)
    requires Blanks(before)
    ensures Trim(before + rest) == Trim(rest)
    decreases |before|
  {
    hide Blank;
    if before == "" {
      assert before + rest == rest;
    } else {
      BlankIff(before[0]);
      TrimBefore(before[1..], rest);
      assert (before + rest)[1..] == before[1..] + rest;
    }
  }

  lemma {:induction false} TrimAfter(core: string, after: string)
    requires Core(core) && Blanks(after)
    ensures Trim(core + after) == core
    decreases |after|
  {
    hide Blank;
    if core == "" {
      TrimBefore(after, "");
      assert core + after == after + "";
    } else {
      BlankIff(core[0]);
      BlankIff(core[|core| - 1]);
      if after == "" {
        assert core + after == core;
      } else {
        BlankIff(after[|after| - 1]);
        TrimAfter(core, after[..|after| - 1]);
        assert (core + after)[..|core + after| - 1] == core + after[..|after| - 1];
      }
    }
  }

  lemma TrimPadded(before: string, core: string, after: string)
    requires Blanks(before) && Core(core) && Blanks(after)
    ensures Trim(before + core + after) == core
  {
    hide Trim, Blanks, Core;
    assert before + core + after == before + (core + after);
    TrimBefore(before, core + after);
    TrimAfter(core, after);
  }

  lemma LineFields(l: Line, event: string, data: string)
    requires Good(l)
    ensures Fields([WriteLine(l)], event, data) ==
      (if l.Name? then l.value else event, data + if l.Data? then l.value else "")
  {
    hide Trim, Blanks, Core;
    var none: seq<string> := [];
    var w := WriteLine(l);
    assert [w][1..] == none && data + "" == data;
    if l.Name? {
      TrimPadded(l.before, l.value, l.after);
      assert w[6..] == l.before + l.value + l.after && w[0] == 'e';
    } else if l.Data? {
      TrimPadded(l.before, l.value, l.after);
      assert w[5..] == l.before + l.value + l.after && w[0] == 'd';
    }
  }

  lemma {:induction false} FieldsAppend(a: seq<string>, b: seq<string>, event: string, data: string)
    ensures Fields(a + b, event, data) == Fields(b, Fields(a, event, data).0, Fields(a, event, data).1)
    decreases |a|
  {
    hide Trim;
    if a == [] {
      assert a + b == b;
    } else {
      assert (a + b)[1..] == a[1..] + b;
      FieldsAppend(a[1..], b, event, data);
      FieldsAppend(a[1..], b, Trim(if |a[0]| >= 6 then a[0][6..] else ""), data);
      FieldsAppend(a[1..], b, event, data + Trim(if |a[0]| >= 5 then a[0][5..] else ""));
    }
  }

  lemma {:induction false} FieldsMean(ls: seq<Line>)
    requires AllGood(ls)
    ensures Fields(WriteLines(ls), "message", "") == (NameOf(ls), DataOf(ls))
    decreases |ls|
  {
    hide Good, WriteLine, Fields;
    if ls == [] {
      assert Fields([], "message", "") == ("message", "") by { NoFields(); }
    } else {
      var n := |ls| - 1;
      FieldsMean(ls[..n]);
      FieldsAppend(WriteLines(ls[..n]), [WriteLine(ls[n])], "message", "");
      LineFields(ls[n], NameOf(ls[..n]), DataOf(ls[..n]));
      assert WriteLines(ls) == WriteLines(ls[..n]) + [WriteLine(ls[n])];
    }
  }

  lemma NoFields()
    ensures Fields([], "message", "") == ("message", "")
  {
  }

  /** However its lines are written, a block tells what they say. */
  lemma BlockRead(ls: seq<Line>, reader: Reader)
    requires ls != [] && AllGood(ls)
    ensures BlockEvents(Join(WriteLines(ls), '\n'), reader) == Told(ls, reader)
  {
    hide Fields, Split, Join;
    SplitOfJoin(WriteLines(ls), '\n');
    FieldsMean(ls);
  }

  // ---- Every block is written in this way ----

  /** Where text has blanks in front, its core, and blanks behind. */
  lemma {:induction false} PaddedText(t: string) returns (before: string, core: string, after: string)
    ensures t == before + core + after && Blanks(before) && Core(core) && Blanks(after)
    decreases |t|
  {
    hide Blank;
    if t == "" {
      before, core, after := "", "", "";
    } else if Blank(t[0]) {
      before, core, after := PaddedText(t[1..]);
      before := [t[0]] + before;
      assert t == [t[0]] + t[1..];
    } else if Blank(t[|t| - 1]) {
      before, core, after := PaddedText(t[..|t| - 1]);
      after := after + [t[|t| - 1]];
      assert t == t[..|t| - 1] + [t[|t| - 1]];
    } else {
      before, core, after := "", t, "";
    }
  }

  lemma LineFound(t: string) returns (l: Line)
    requires '\n' !in t
    ensures Good(l) && WriteLine(l) == t
  {
    hide Blanks, Core;
    if ":" <= t {
      l := Comment(t[1..]);
    } else if "event:" <= t {
      var before, core, after := PaddedText(t[6..]);
      l := Name(before, core, after);
      assert t == "event:" + t[6..];
    } else if "data:" <= t {
      var before, core, after := PaddedText(t[5..]);
      l := Data(before, core, after);
      assert t == "data:" + t[5..];
    } else {
      l := Ignored(t);
    }
  }

  lemma {:induction false} LinesFound(ts: seq<string>) returns (ls: seq<Line>)
    requires forall k | 0 <= k < |ts| :: '\n' !in ts[k]
    ensures AllGood(ls) && WriteLines(ls) == ts
  {
    hide Good, WriteLine;
    if ts == [] {
      ls := [];
    } else {
      var l := LineFound(ts[0]);
      var rest := LinesFound(ts[1..]);
      ls := [l] + rest;
      assert ts == [ts[0]] + ts[1..];
      assert WriteLines(ls) == [WriteLine(l)] + WriteLines(rest);
    }
  }

  /** So what every block tells is what some lines say that it is written from. */
  lemma BlockFound(block: string, reader: Reader) returns (ls: seq<Line>)
    ensures ls != [] && AllGood(ls) && block == Join(WriteLines(ls), '\n')
    ensures BlockEvents(block, reader) == Told(ls, reader)
  {
    hide Told, AllGood, Join, Split, BlockEvents;
    SplitJoin(block, '\n');
    ls := LinesFound(Split(block, '\n'));
    BlockRead(ls, reader);
  }

  // ---- Whole streams ----

  /** Blocks of lines that are not empty, each closed by an empty one. */
  function WriteBlocks(bs: seq<seq<Line>>): (t: string)
    requires forall k | 0 <= k < |bs| :: bs[k] != []
  {
    if bs == [] then "" else Join(WriteLines(bs[0]), '\n') + "\n\n" + WriteBlocks(bs[1..])
  }

  function AllTold(bs: seq<seq<Line>>, reader: Reader): (es: seq<Event>) {
    if bs == [] then [] else Told(bs[0], reader) + AllTold(bs[1..], reader)
  }

  predicate Sound(b: seq<Line>) {
    AllGood(b) && forall k | 0 <= k < |b| :: WriteLine(b[k]) != ""
  }

  /** Neither two line breaks in a row, nor one at either end. */
  predicate Compact(t: string) {
    && t != "" && t[0] != '\n' && t[|t| - 1] != '\n'
    && forall k | 0 <= k < |t| - 1 :: t[k] != '\n' || t[k + 1] != '\n'
  }

  lemma {:induction false} JoinCompact(ts: seq<string>)
    requires ts != [] && forall k | 0 <= k < |ts| :: ts[k] != "" && '\n' !in ts[k]
    ensures Compact(Join(ts, '\n'))
    decreases |ts|
  {
    var first := ts[0];
    assert forall k | 0 <= k < |first| :: first[k] in first;
    if |ts| > 1 {
      JoinCompact(ts[1..]);
      CompactAfter(first, Join(ts[1..], '\n'));
    }
  }

  lemma CompactAfter(first: string, rest: string)
    requires first != "" && '\n' !in first && Compact(rest)
    ensures Compact(first + ['\n'] + rest)
  {
    var t := first + ['\n'] + rest;
    var n := |first|;
    assert t[0] == first[0] && t[|t| - 1] == rest[|rest| - 1];
    forall k | 0 <= k < |t| - 1 ensures t[k] != '\n' || t[k + 1] != '\n' {
      if k < n { assert t[k] == first[k] && first[k] in first; }
      else if k == n { assert t[k + 1] == rest[0]; }
      else { assert t[k] == rest[k - n - 1] && t[k + 1] == rest[k - n]; }
    }
  }

  lemma CompactCut(block: string, rest: string)
    requires Compact(block)
    ensures BlankLine(block + "\n\n" + rest) == Some(|block|)
  {
    var s := block + "\n\n" + rest;
    forall k | 0 <= k < |block| ensures s[k] != '\n' || s[k + 1] != '\n' {
      assert s[k] == block[k];
      if k + 1 < |block| { assert s[k + 1] == block[k + 1]; }
    }
    BlankLineAt(s, 0, |block|);
  }

  lemma BlockThenRest(b: seq<Line>, rest: string, reader: Reader)
    requires b != [] && Sound(b)
    ensures Events(Join(WriteLines(b), '\n') + "\n\n" + rest, reader) == Told(b, reader) + Events(rest, reader)
  {
    hide BlockEvents, Told, Join, Good, Compact, BlankLine;
    var block := Join(WriteLines(b), '\n');
    assert forall k | 0 <= k < |b| :: '\n' !in WriteLine(b[k]) by { GoodLines(b); }
    JoinCompact(WriteLines(b));
    CompactCut(block, rest);
    BlockRead(b, reader);
    var s := block + "\n\n" + rest;
    assert s[..|block|] == block && s[|block| + 2..] == rest;
  }

  lemma GoodLines(b: seq<Line>)
    requires AllGood(b)
    ensures forall k | 0 <= k < |b| :: '\n' !in WriteLine(b[k])
  {
  }

  /** However its blocks are written, a stream means what they tell, in order, and an unfinished block at its end means nothing. */
  lemma {:induction false} StreamRead(bs: seq<seq<Line>>, rest: string, reader: Reader)
    requires (forall k | 0 <= k < |bs| :: bs[k] != [] && Sound(bs[k])) && BlankLine(rest).None?
    ensures Events(WriteBlocks(bs) + rest, reader) == AllTold(bs, reader)
    decreases |bs|
  {
    hide Sound, Told, Join, BlankLine, BlockEvents;
    if bs == [] {
      assert WriteBlocks(bs) + rest == rest;
    } else {
      var block, more := Join(WriteLines(bs[0]), '\n'), WriteBlocks(bs[1..]) + rest;
      assert WriteBlocks(bs) + rest == block + "\n\n" + more;
      BlockThenRest(bs[0], more, reader);
      StreamRead(bs[1..], rest, reader);
    }
  }

  // ---- The server's frames ----

  /** A frame as the standard writes it. */
  function LinesOf(f: Frame): (ls: seq<Line>) {
    match f
    case Snapshot(p) => [Name(" ", "snapshot", ""), Data(" ", p, "")]
    case Record(p) => [Data(" ", p, "")]
    case Heartbeat => [Comment(" heartbeat")]
  }

  lemma FrameWritten(f: Frame)
    ensures Encode(f) == Join(WriteLines(LinesOf(f)), '\n') + "\n\n"
  {
    match f
    case Snapshot(p) =>
      var first, second := WriteLine(Name(" ", "snapshot", "")), WriteLine(Data(" ", p, ""));
      assert WriteLines(LinesOf(f)) == [first, second] && [first, second][1..] == [second];
      assert first == "event: snapshot" && second == "data: " + p;
      assert Encode(f) == "event: snapshot" + ['\n'] + ("data: " + p) + "\n\n";
    case Record(p) =>
      assert WriteLine(Data(" ", p, "")) == "data: " + p;
    case Heartbeat =>
  }
}
