/**
 The live traffic stream: the server's `event_source` and the dashboard's
 `subscribeTraffic`, an event stream in the sense of section 9.2 of the WHATWG HTML standard.
 */
module TrafficStream {
  import opened Prelude
  import opened JsonDump

  // ---- Server ----

  datatype Frame = Snapshot(payload: string) | Record(payload: string) | Heartbeat

  function Encode(f: Frame): (t: string)
  {
    match f
    case Snapshot(p) => "event: snapshot\ndata: " + p + "\n\n"
    case Record(p) => "data: " + p + "\n\n"
    case Heartbeat => ": heartbeat\n\n"
  }

  function EncodeAll(fs: seq<Frame>): (t: string)
  {
    if fs == [] then "" else Encode(fs[0]) + EncodeAll(fs[1..])
  }

  /** One wait on the subscription: a record arrived, or 15 seconds passed without one. */
  datatype Wait = Arrived(payload: string, disconnected: bool) | TimedOut

  /** The frames that a run of waits leads to; the stream ends at a disconnect. */
  function Frames(waits: seq<Wait>): (fs: seq<Frame>)
  {
    if waits == [] then []
    else if waits[0].TimedOut? then [Heartbeat] + Frames(waits[1..])
    else if waits[0].disconnected then []
    else [Record(waits[0].payload)] + Frames(waits[1..])
  }

  lemma EncodeHead(f: Frame, fs: seq<Frame>)
    ensures EncodeAll([f] + fs) == Encode(f) + EncodeAll(fs)
  {
    assert ([f] + fs)[1..] == fs;
  }

  /** What is left to send after one wait. */
  lemma FramesHead(waits: seq<Wait>, k: nat)
    requires k < |waits|
    ensures var rest := EncodeAll(Frames(waits[k + 1..]));
      EncodeAll(Frames(waits[k..])) ==
        if waits[k].TimedOut? then Encode(Heartbeat) + rest
        else if waits[k].disconnected then ""
        else Encode(Record(waits[k].payload)) + rest
  {
    hide Encode, EncodeAll;
    assert waits[k..][0] == waits[k] && waits[k..][1..] == waits[k + 1..];
    if waits[k].TimedOut? {
      EncodeHead(Heartbeat, Frames(waits[k + 1..]));
    } else if waits[k].disconnected {
      EncodeNone();
    } else {
      EncodeHead(Record(waits[k].payload), Frames(waits[k + 1..]));
    }
  }

  lemma EncodeNone()
    ensures EncodeAll([]) == "" && Frames([]) == []
  {
  }

  method EventSource(recent: string, waits: seq<Wait>) returns (text: string)
    ensures text == EncodeAll([Snapshot(recent)] + Frames(waits))
  {
    hide Encode, EncodeAll, Frames;
    EncodeHead(Snapshot(recent), Frames(waits));
    text := Encode(Snapshot(recent));
    assert waits[0..] == waits;
    for k := 0 to |waits|
      invariant EncodeAll([Snapshot(recent)] + Frames(waits)) == text + EncodeAll(Frames(waits[k..]))
    {
      FramesHead(waits, k);
      match waits[k] {
        case TimedOut =>
          text := text + Encode(Heartbeat);
        case Arrived(payload, disconnected) =>
          if disconnected {
            return;
          }
          text := text + Encode(Record(payload));
      }
    }
    EncodeNone();
    assert waits[|waits|..] == [];
  }

  // ---- Client ----

  /** What the client yields; a parsed payload is represented by its text. */
  datatype Event = SnapshotEvent(data: string) | RecordEvent(data: string)

  /** `JSON.parse` and the shape test, as the client sees them. */
  datatype Reader = Reader(parses: string -> bool, hasItems: string -> bool)

  /** What JavaScript's `trim` removes. */
  predicate Trimmed(c: char) {
    var n := c as int;
    9 <= n <= 13 || n == 32 || n == 0xA0 || n == 0x1680 || 0x2000 <= n <= 0x200A
    || n == 0x2028 || n == 0x2029 || n == 0x202F || n == 0x205F || n == 0x3000 || n == 0xFEFF
  }

  function Trim(s: string): (t: string)
    decreases |s|
  {
    if s == "" then ""
    else if Trimmed(s[0]) then Trim(s[1..])
    else if Trimmed(s[|s| - 1]) then Trim(s[..|s| - 1])
    else s
  }

  /** The index of the first blank line's line break, as `buffer.indexOf("\n\n")` finds it. */
  function BlankLine(s: string, i: nat := 0): (r: Option<nat>)
    requires i <= |s|
    ensures r.Some? ==> i <= r.value && r.value + 2 <= |s|
    decreases |s| - i
  {
    if i + 2 > |s| then None
    else if s[i] == '\n' && s[i + 1] == '\n' then Some(i)
    else BlankLine(s, i + 1)
  }

  /** The event name and the data after the lines of one block. */
  function Fields(lines: seq<string>, event: string, data: string): (r: (string, string))
  {
    if lines == [] then (event, data)
    else
      var line := lines[0];
      if ":" <= line then Fields(lines[1..], event, data)
      else if "event:" <= line then Fields(lines[1..], Trim(line[6..]), data)
      else if "data:" <= line then Fields(lines[1..], event, data + Trim(line[5..]))
      else Fields(lines[1..], event, data)
  }

  function BlockEvents(block: string, reader: Reader): (es: seq<Event>)
  {
    var (event, data) := Fields(Split(block, '\n'), "message", "");
    if data == "" || !reader.parses(data) then []
    else if event == "snapshot" && reader.hasItems(data) then [SnapshotEvent(data)]
    else [RecordEvent(data)]
  }

  /** What a whole stream means: the events of its complete blocks. */
  function Events(s: string, reader: Reader): (es: seq<Event>)
    decreases |s|
  {
    if BlankLine(s).None? then []
    else BlockEvents(s[..BlankLine(s).value], reader) + Events(s[BlankLine(s).value + 2..], reader)
  }

  lemma {:induction false} BlankLineStays(s: string, more: string, i: nat)
    requires i <= |s| && BlankLine(s, i).Some?
    ensures BlankLine(s + more, i) == BlankLine(s, i)
    decreases |s| - i
  {
    if !(s[i] == '\n' && s[i + 1] == '\n') {
      BlankLineStays(s, more, i + 1);
    }
  }

  /** A complete block means the same whatever follows it. */
  lemma EventsStep(s: string, more: string, reader: Reader)
    requires BlankLine(s).Some?
    ensures var cut := BlankLine(s).value;
      Events(s + more, reader) == BlockEvents(s[..cut], reader) + Events(s[cut + 2..] + more, reader)
  {
    hide BlockEvents;
    BlankLineStays(s, more, 0);
    var cut := BlankLine(s).value;
    assert (s + more)[..cut] == s[..cut] && (s + more)[cut + 2..] == s[cut + 2..] + more;
  }

  /** The client, fed chunk by chunk, yields exactly what the whole stream means. */
  method SubscribeTraffic(chunks: seq<string>, reader: Reader) returns (events: seq<Event>)
    ensures events == Events(Concat(chunks), reader)
  {
    hide BlockEvents, BlankLine;
    var buffer := "";
    events := [];
    assert chunks[0..] == chunks && "" + Concat(chunks) == Concat(chunks);
    for k := 0 to |chunks|
      invariant BlankLine(buffer).None?
      invariant Events(Concat(chunks), reader) == events + Events(buffer + Concat(chunks[k..]), reader)
    {
      ghost var future := Concat(chunks[k + 1..]);
      assert chunks[k..][1..] == chunks[k + 1..];
      assert buffer + Concat(chunks[k..]) == (buffer + chunks[k]) + future;
      buffer := buffer + chunks[k];
      while BlankLine(buffer).Some?
        invariant Events(Concat(chunks), reader) == events + Events(buffer + future, reader)
        decreases |buffer|
      {
        EventsStep(buffer, future, reader);
        var cut := BlankLine(buffer).value;
        events := events + BlockEvents(buffer[..cut], reader);
        buffer := buffer[cut + 2..];
      }
    }
    assert buffer + Concat(chunks[|chunks|..]) == buffer;
  }

  // ---- Round trip ----

  /** A payload that fits one `data:` line and survives trimming. */
  predicate OneLine(p: string) {
    p != "" && '\n' !in p && !Trimmed(p[0]) && !Trimmed(p[|p| - 1])
  }

  predicate Sendable(f: Frame, reader: Reader) {
    match f
    case Snapshot(p) => OneLine(p) && reader.parses(p) && reader.hasItems(p)
    case Record(p) => OneLine(p) && reader.parses(p)
    case Heartbeat => true
  }

  /** What the server means the client to see. */
  function Meant(fs: seq<Frame>): (es: seq<Event>)
  {
    if fs == [] then []
    else match fs[0]
      case Snapshot(p) => [SnapshotEvent(p)] + Meant(fs[1..])
      case Record(p) => [RecordEvent(p)] + Meant(fs[1..])
      case Heartbeat => Meant(fs[1..])
  }

  lemma {:induction false} BlankLineAt(s: string, i: nat, cut: nat)
    requires i <= cut && cut + 2 <= |s| && s[cut] == '\n' && s[cut + 1] == '\n'
    requires forall k | i <= k < cut :: s[k] != '\n' || s[k + 1] != '\n'
    ensures BlankLine(s, i) == Some(cut)
    decreases cut - i
  {
    if i < cut {
      BlankLineAt(s, i + 1, cut);
    }
  }

  lemma {:induction false} SplitTwo(a: string, b: string)
    requires '\n' !in a && '\n' !in b
    ensures Split(a + "\n" + b, '\n') == [a, b]
  {
    var s := a + "\n" + b;
    if a == "" {
      assert s == ['\n'] + b && s[1..] == b;
      SplitWhole(b, '\n');
    } else {
      assert s[0] == a[0] && s[1..] == a[1..] + "\n" + b;
      assert forall c | c in a[1..] :: c in a;
      SplitTwo(a[1..], b);
      assert [a[0]] + a[1..] == a;
    }
  }

  lemma DataLine(p: string)
    requires OneLine(p)
    ensures "data:" <= "data: " + p && Trim(("data: " + p)[5..]) == p && '\n' !in "data: " + p
  {
    assert ("data: " + p)[5..] == " " + p;
    assert (" " + p)[1..] == p && Trim(p) == p;
  }

  /** The text of a frame without its blank line. */
  function Block(f: Frame): (t: string)
  {
    match f
    case Snapshot(p) => "event: snapshot" + "\n" + ("data: " + p)
    case Record(p) => "data: " + p
    case Heartbeat => ": heartbeat"
  }

  lemma DataFields(p: string, event: string)
    requires OneLine(p)
    ensures Fields(["data: " + p], event, "") == (event, p)
  {
    hide Trim;
    DataLine(p);
    var line := "data: " + p;
    var none: seq<string> := [];
    assert line[0] == 'd' && [line][1..] == none;
    assert "" + Trim(line[5..]) == p;
  }

  lemma CommentFields(line: string)
    requires ":" <= line
    ensures Fields([line], "message", "") == ("message", "")
  {
  }

  lemma SnapshotFields(line: string)
    ensures Fields(["event: snapshot", line], "message", "") == Fields([line], "snapshot", "")
  {
    assert "event: snapshot"[6..] == " snapshot";
    assert " snapshot"[1..] == "snapshot" && Trim("snapshot") == "snapshot";
    assert ["event: snapshot", line][1..] == [line];
    assert "event: snapshot"[0] == 'e';
  }

  lemma BlockMeans(f: Frame, reader: Reader)
    requires Sendable(f, reader)
    ensures BlockEvents(Block(f), reader) == Meant([f])
  {
    hide Trim, Fields, Split;
    match f
    case Heartbeat =>
      SplitWhole(": heartbeat", '\n');
      CommentFields(": heartbeat");
    case Record(p) =>
      DataLine(p);
      SplitWhole("data: " + p, '\n');
      DataFields(p, "message");
    case Snapshot(p) =>
      DataLine(p);
      SplitTwo("event: snapshot", "data: " + p);
      DataFields(p, "snapshot");
      SnapshotFields("data: " + p);
  }

  lemma OneLineCut(a: string, rest: string)
    requires '\n' !in a
    ensures BlankLine(a + "\n\n" + rest) == Some(|a|)
  {
    var s := a + "\n\n" + rest;
    forall k | 0 <= k < |a| ensures s[k] != '\n' { assert s[k] in a; }
    BlankLineAt(s, 0, |a|);
  }

  lemma TwoLineCut(a: string, b: string, rest: string)
    requires '\n' !in a && '\n' !in b && b != ""
    ensures BlankLine(a + "\n" + b + "\n\n" + rest) == Some(|a| + 1 + |b|)
  {
    var s := a + "\n" + b + "\n\n" + rest;
    forall k | 0 <= k < |a| ensures s[k] != '\n' { assert s[k] in a; }
    forall k | |a| < k <= |a| + |b| ensures s[k] != '\n' { assert s[k] == b[k - |a| - 1]; }
    BlankLineAt(s, 0, |a| + 1 + |b|);
  }

  /** The blank line of a frame is the first in the stream. */
  lemma FrameCut(f: Frame, rest: string, reader: Reader)
    requires Sendable(f, reader)
    ensures Encode(f) == Block(f) + "\n\n"
    ensures BlankLine(Encode(f) + rest) == Some(|Block(f)|)
  {
    match f
    case Snapshot(p) =>
      assert Encode(f) == Block(f) + "\n\n" by {
        assert "event: snapshot\ndata: " + p == "event: snapshot" + "\n" + ("data: " + p);
      }
      DataLine(p);
      TwoLineCut("event: snapshot", "data: " + p, rest);
    case Record(p) =>
      DataLine(p);
      OneLineCut("data: " + p, rest);
    case Heartbeat =>
      assert Encode(f) == Block(f) + "\n\n";
      OneLineCut(": heartbeat", rest);
  }

  lemma MeantHead(fs: seq<Frame>)
    ensures Meant(fs) == if fs == [] then [] else Meant([fs[0]]) + Meant(fs[1..])
  {
    var none: seq<Frame> := [];
    assert fs != [] ==> [fs[0]][1..] == none;
  }

  lemma FrameRead(f: Frame, rest: string, reader: Reader)
    requires Sendable(f, reader)
    ensures Events(Encode(f) + rest, reader) == Meant([f]) + Events(rest, reader)
  {
    hide BlockEvents, Encode, Block, Sendable, BlankLine, Meant;
    FrameCut(f, rest, reader);
    BlockMeans(f, reader);
    var s := Encode(f) + rest;
    assert s[..|Block(f)|] == Block(f) && s[|Block(f)| + 2..] == rest;
  }

  /** Round trip: the client reads every frame as meant and goes on with the rest. */
  lemma {:induction false} RoundTrip(fs: seq<Frame>, rest: string, reader: Reader)
    requires forall k | 0 <= k < |fs| :: Sendable(fs[k], reader)
    ensures Events(EncodeAll(fs) + rest, reader) == Meant(fs) + Events(rest, reader)
  {
    hide Events, Encode, Sendable, Meant;
    MeantHead(fs);
    if fs == [] {
      assert EncodeAll(fs) + rest == rest;
    } else {
      var s := EncodeAll(fs[1..]) + rest;
      assert EncodeAll(fs) + rest == Encode(fs[0]) + s;
      FrameRead(fs[0], s, reader);
      RoundTrip(fs[1..], rest, reader);
    }
  }

  /** A stream that is cut anywhere yields a prefix of what the whole stream yields. */
  lemma {:induction false} TruncatedYieldsPrefix(s: string, more: string, reader: Reader)
    ensures IsPrefix(Events(s, reader), Events(s + more, reader))
    decreases |s|
  {
    hide BlockEvents, BlankLine;
    if BlankLine(s).Some? {
      var cut := BlankLine(s).value;
      EventsStep(s, more, reader);
      TruncatedYieldsPrefix(s[cut + 2..], more, reader);
      PrefixExtend(BlockEvents(s[..cut], reader), Events(s[cut + 2..], reader), Events(s[cut + 2..] + more, reader));
    }
  }

  /** What `json.dumps` writes for an object can be sent as it is. */
  lemma DumpIsOneLine(ms: seq<Field>)
    requires WellFormed(JObject(ms))
    ensures OneLine(Dump(JObject(ms)))
  {
    hide DumpMembers, WellFormed;
    var t := Dump(JObject(ms));
    DumpPrintable(JObject(ms));
    assert t[0] == '{' && t[|t| - 1] == '}';
  }

  /** The arrivals before the first that finds the client gone. */
  function Sent(waits: seq<Wait>): (payloads: seq<string>) {
    if waits == [] || (waits[0].Arrived? && waits[0].disconnected) then []
    else (if waits[0].Arrived? then [waits[0].payload] else []) + Sent(waits[1..])
  }

  function Records(payloads: seq<string>): (es: seq<Event>)
    ensures |es| == |payloads| && forall k | 0 <= k < |es| :: es[k] == RecordEvent(payloads[k])
  {
    seq(|payloads|, k requires 0 <= k < |payloads| => RecordEvent(payloads[k]))
  }

  /** The client is meant to see, after the snapshot, one record for each arrival, and heartbeats mean nothing. */
  lemma {:induction false} FramesMean(waits: seq<Wait>)
    ensures Meant(Frames(waits)) == Records(Sent(waits))
    decreases |waits|
  {
    if waits != [] {
      FramesMean(waits[1..]);
      if waits[0].Arrived? && !waits[0].disconnected {
        var rest := Frames(waits[1..]);
        assert ([Record(waits[0].payload)] + rest)[1..] == rest;
      } else if waits[0].TimedOut? {
        assert ([Heartbeat] + Frames(waits[1..]))[1..] == Frames(waits[1..]);
        assert [] + Sent(waits[1..]) == Sent(waits[1..]);
      }
    }
  }

  /** End to end: what the server writes for any run of waits, the client reads back in order. */
  lemma SessionRoundTrip(recent: seq<Field>, waits: seq<Wait>, reader: Reader)
    requires WellFormed(JObject(recent))
    requires reader.parses(Dump(JObject(recent))) && reader.hasItems(Dump(JObject(recent)))
    requires forall k | 0 <= k < |waits| && waits[k].Arrived? ::
      OneLine(waits[k].payload) && reader.parses(waits[k].payload)
    ensures Events(EncodeAll([Snapshot(Dump(JObject(recent)))] + Frames(waits)), reader) ==
      [SnapshotEvent(Dump(JObject(recent)))] + Records(Sent(waits))
  {
    hide Encode, Dump, WellFormed, OneLine;
    FramesMean(waits);
    var fs := [Snapshot(Dump(JObject(recent)))] + Frames(waits);
    DumpIsOneLine(recent);
    FramesSendable(waits, reader);
    RoundTrip(fs, "", reader);
    assert EncodeAll(fs) + "" == EncodeAll(fs);
    assert fs[1..] == Frames(waits);
    assert Events("", reader) == [];
  }

  lemma {:induction false} FramesSendable(waits: seq<Wait>, reader: Reader)
    requires forall k | 0 <= k < |waits| && waits[k].Arrived? ::
      OneLine(waits[k].payload) && reader.parses(waits[k].payload)
    ensures forall k | 0 <= k < |Frames(waits)| :: Sendable(Frames(waits)[k], reader)
  {
    hide OneLine;
    if waits != [] {
      FramesSendable(waits[1..], reader);
    }
  }
}
