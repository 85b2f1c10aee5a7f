/** The request body parser: `parse_messages` in src/mcpxy_proxy/server.py. */
module MessageStream {
  import opened Prelude
  import opened JsonText
  import opened DigitLimits

  /** The messages yielded, and whether the generator then ended without raising. */
  datatype Outcome = Outcome(messages: seq<Text>, ok: bool)

  function Yielded(messages: seq<Text>, rest: Outcome): Outcome {
    Outcome(messages + rest.messages, rest.ok)
  }

  /** `str.isspace`, wider than the white space of JSON. */
  predicate IsSpace(c: char) {
    var n := c as int;
    9 <= n <= 13 || 28 <= n <= 32 || n == 0x85 || n == 0xA0 || n == 0x1680 || 0x2000 <= n <= 0x200A
    || n == 0x2028 || n == 0x2029 || n == 0x202F || n == 0x205F || n == 0x3000
  }

  function SkipSpace(s: Text, i: nat): (j: nat)
    requires i <= |s|
    ensures i <= j <= |s|
    ensures j < |s| ==> !IsSpace(s[j])
    decreases |s| - i
  {
    if i < |s| && IsSpace(s[i]) then SkipSpace(s, i + 1) else i
  }

  // ---- What a whole body means ----

  /** A body is empty, one object, or a lenient array of objects. */
  function Body(s: Text, i: nat): (r: Outcome)
    requires i <= |s|
  {
    var j := SkipSpace(s, i);
    if j == |s| then Outcome([], true)
    else if s[j] == '[' then Items(s, j + 1)
    else One(s, j)
  }

  /** A single object, then nothing but white space. */
  function One(s: Text, i: nat): (r: Outcome)
    requires i <= |s|
  {
    var j := SkipSpace(s, i);
    if j == |s| then Outcome([], true)
    else if s[j] == '{' && Decode(s, j).Some? then
      Yielded([s[j..Decode(s, j).value]], Tail(s, Decode(s, j).value))
    else Outcome([], false)
  }

  /**
   The inside of an array. Commas are skipped wherever they stand between elements, and
   the text may end after any element: both are laxer than RFC 8259, as the parser is.
   */
  function Items(s: Text, i: nat): (r: Outcome)
    requires i <= |s|
    decreases |s| - i
  {
    var j := SkipSpace(s, i);
    if j == |s| then Outcome([], true)
    else if s[j] == ']' then Tail(s, j + 1)
    else if s[j] == ',' then Items(s, j + 1)
    else if s[j] == '{' && Decode(s, j).Some? then
      Yielded([s[j..Decode(s, j).value]], Items(s, Decode(s, j).value))
    else Outcome([], false)
  }

  function Tail(s: Text, i: nat): (r: Outcome)
    requires i <= |s|
  {
    Outcome([], SkipSpace(s, i) == |s|)
  }

  // ---- Where a body must not be cut ----

  /**
   A chunk that ends after `n` characters ends inside an object that the whole body has at `j`,
   and right there its number looks like an integer of too many digits.
   */
  predicate CutsAt(s: Text, j: nat, n: nat)
    requires j < |s| && n <= |s|
  {
    s[j] == '{' && Decode(s, j).Some? && j < n < Decode(s, j).value && Trips(s[j..n], 0)
  }

  predicate CutsOne(s: Text, i: nat, n: nat)
    requires i <= |s| && n <= |s|
  {
    SkipSpace(s, i) < |s| && CutsAt(s, SkipSpace(s, i), n)
  }

  predicate CutsItems(s: Text, i: nat, n: nat)
    requires i <= |s| && n <= |s|
    decreases |s| - i
  {
    var j := SkipSpace(s, i);
    if j == |s| || s[j] == ']' then false
    else if s[j] == ',' then CutsItems(s, j + 1, n)
    else if s[j] == '{' && Decode(s, j).Some? then CutsAt(s, j, n) || CutsItems(s, Decode(s, j).value, n)
    else false
  }

  /** The same for a whole body. */
  predicate Cuts(s: Text, i: nat, n: nat)
    requires i <= |s| && n <= |s|
  {
    var j := SkipSpace(s, i);
    if j == |s| then false else if s[j] == '[' then CutsItems(s, j + 1, n) else CutsOne(s, j, n)
  }

  /** How much has arrived with the first `k` chunks. */
  function Arrived(chunks: seq<Text>, k: nat): (n: nat)
    requires k <= |chunks|
  {
    if k == 0 then 0 else Arrived(chunks, k - 1) + |chunks[k - 1]|
  }

  lemma {:induction false} ArrivedSoFar(chunks: seq<Text>, k: nat)
    requires k <= |chunks|
    ensures Arrived(chunks, k) + |Concat(chunks[k..])| == |Concat(chunks)|
    decreases k
  {
    if k == 0 {
      assert chunks[0..] == chunks;
    } else {
      ArrivedSoFar(chunks, k - 1);
      assert chunks[k - 1..][1..] == chunks[k..];
    }
  }

  /** None of the first `k` chunks ends so. */
  ghost predicate CutWell(chunks: seq<Text>, k: nat)
    requires k <= |chunks|
  {
    forall i | 0 <= i <= k :: Arrived(chunks, i) <= |Concat(chunks)| && !Cuts(Concat(chunks), 0, Arrived(chunks, i))
  }

  // ---- The parser ----

  datatype Mode = Unknown | Single | Array | Done

  /** What the rest of the body means to a parser that has come to `s[i..]` in `mode`. */
  function From(mode: Mode, s: Text, i: nat): (r: Outcome)
    requires i <= |s|
  {
    match mode
    case Unknown => Body(s, i)
    case Single => One(s, i)
    case Array => Items(s, i)
    case Done => Tail(s, i)
  }

  predicate CutsFrom(mode: Mode, s: Text, i: nat, n: nat)
    requires i <= |s| && n <= |s|
  {
    match mode
    case Unknown => Cuts(s, i, n)
    case Single => CutsOne(s, i, n)
    case Array => CutsItems(s, i, n)
    case Done => false
  }

  /** The inner loop waits for more text: it is at the end, or in front of no whole value. */
  predicate Waiting(mode: Mode, buffer: Text, cursor: nat) {
    && cursor <= |buffer|
    && (cursor < |buffer| ==>
      && (mode == Single || mode == Array)
      && !IsSpace(buffer[cursor])
      && (mode == Array ==> buffer[cursor] !in "],")
      && Value(buffer, cursor).None? && !Refused(buffer, cursor))
  }

  lemma FromSpace(mode: Mode, s: Text, i: nat)
    requires i < |s| && IsSpace(s[i])
    ensures From(mode, s, i) == From(mode, s, i + 1)
    ensures forall n | 0 <= n <= |s| :: CutsFrom(mode, s, i, n) <==> CutsFrom(mode, s, i + 1, n)
  {
    hide Decode, CutsAt;
  }

  lemma FromStart(s: Text, i: nat)
    requires i < |s| && !IsSpace(s[i])
    ensures var next := if s[i] == '[' then i + 1 else i; var mode := if s[i] == '[' then Array else Single;
      && From(Unknown, s, i) == From(mode, s, next)
      && forall n | 0 <= n <= |s| :: CutsFrom(Unknown, s, i, n) <==> CutsFrom(mode, s, next, n)
  {
    hide Decode, CutsAt;
  }

  lemma FromSeparator(s: Text, i: nat)
    requires i < |s| && s[i] in "],"
    ensures From(Array, s, i) == From(if s[i] == ']' then Done else Array, s, i + 1)
    ensures forall n | 0 <= n <= |s| ::
      CutsFrom(Array, s, i, n) <==> CutsFrom(if s[i] == ']' then Done else Array, s, i + 1, n)
  {
    hide Decode, CutsAt;
  }

  function Following(mode: Mode): Mode {
    if mode == Single then Done else Array
  }

  /** In front of an object that is there to be read, reading it is right; else nothing is. */
  lemma FromObject(mode: Mode, s: Text, i: nat)
    requires (mode == Single || mode == Array) && i < |s| && !IsSpace(s[i])
    requires mode == Array ==> s[i] !in "],"
    ensures From(mode, s, i) ==
      if s[i] == '{' && Decode(s, i).Some? then
        Yielded([s[i..Decode(s, i).value]], From(Following(mode), s, Decode(s, i).value))
      else Outcome([], false)
    ensures forall n | 0 <= n <= |s| :: CutsFrom(mode, s, i, n) <==>
      s[i] == '{' && Decode(s, i).Some? && (CutsAt(s, i, n) || CutsFrom(Following(mode), s, Decode(s, i).value, n))
  {
    hide Decode;
  }

  lemma FromTrailing(s: Text, i: nat)
    requires i < |s| && !IsSpace(s[i])
    ensures From(Done, s, i) == Outcome([], false)
  {
  }

  /** A cut is harmless for what begins after it. */
  lemma {:induction false} CutsItemsLater(s: Text, i: nat, n: nat)
    requires n <= i <= |s|
    ensures !CutsItems(s, i, n)
    decreases |s| - i
  {
    hide Decode;
    var j := SkipSpace(s, i);
    if j < |s| && s[j] == ',' {
      CutsItemsLater(s, j + 1, n);
    } else if j < |s| && s[j] == '{' && Decode(s, j).Some? {
      CutsItemsLater(s, Decode(s, j).value, n);
    }
  }

  lemma CutsLater(mode: Mode, s: Text, i: nat, n: nat)
    requires n <= i <= |s|
    ensures !CutsFrom(mode, s, i, n)
  {
    hide Decode, CutsItems, SkipSpace;
    forall j | i <= j <= |s| ensures !CutsItems(s, j, n) { CutsItemsLater(s, j, n); }
  }

  lemma YieldedTwice(a: seq<Text>, b: seq<Text>, r: Outcome)
    ensures Yielded(a, Yielded(b, r)) == Yielded(a + b, r)
  {
  }

  lemma WindowSlice(buffer: Text, all: Text, base: nat, i: nat, j: nat)
    requires Window(buffer, all, base, 0) && i <= j <= |buffer|
    ensures all[base + i..base + j] == buffer[i..j]
  {
    forall k | i <= k < j ensures all[base + k] == buffer[k] { }
  }

  /** `mode` and `i` are where the parser comes to from `mode0` and `i0`, having yielded `out`, with `n` characters there. */
  ghost predicate Comes(mode0: Mode, i0: nat, out: seq<Text>, mode: Mode, i: nat, s: Text, n: nat) {
    && i0 <= |s| && i <= |s|
    && From(mode0, s, i0) == Yielded(out, From(mode, s, i))
    && forall m | n <= m <= |s| :: CutsFrom(mode0, s, i0, m) <==> CutsFrom(mode, s, i, m)
  }

  lemma ComesFirst(mode: Mode, i: nat, s: Text, n: nat)
    requires i <= |s|
    ensures Comes(mode, i, [], mode, i, s, n)
  {
  }

  /** A step that yields nothing. */
  lemma ComesOn(mode0: Mode, i0: nat, out: seq<Text>, mode: Mode, i: nat, mode': Mode, i': nat, s: Text, n: nat)
    requires Comes(mode0, i0, out, mode, i, s, n) && i' <= |s| && From(mode, s, i) == From(mode', s, i')
    requires forall m | 0 <= m <= |s| :: CutsFrom(mode, s, i, m) <==> CutsFrom(mode', s, i', m)
    ensures Comes(mode0, i0, out, mode', i', s, n)
  {
    hide From, CutsFrom;
  }

  lemma ComesTwice(mode0: Mode, i0: nat, out: seq<Text>, mode: Mode, i: nat, more: seq<Text>, mode': Mode, i': nat, s: Text, n: nat, n': nat)
    requires Comes(mode0, i0, out, mode, i, s, n) && Comes(mode, i, more, mode', i', s, n') && n <= n'
    ensures Comes(mode0, i0, out + more, mode', i', s, n')
  {
    hide From, CutsFrom;
    YieldedTwice(out, more, From(mode', s, i'));
  }

  /** The parser is in front of a value, as far as `mode` and the next character tell. */
  predicate AtValue(mode: Mode, s: Text, i: nat) {
    i < |s| && (mode == Single || mode == Array) && !IsSpace(s[i]) && (mode == Array ==> s[i] !in "],")
  }

  /** A value found in the buffer is the one the body has there, and only an object is a message. */
  lemma ValueFound(mode: Mode, buffer: Text, all: Text, base: nat, cursor: nat)
    requires Window(buffer, all, base, 0) && AtValue(mode, buffer, cursor) && Decode(buffer, cursor).Some?
    ensures buffer[cursor] != '{' ==> Lost(mode, all, base + cursor)
    ensures buffer[cursor] == '{' ==> cursor < Decode(buffer, cursor).value <= |buffer|
    ensures buffer[cursor] == '{' ==> var end := Decode(buffer, cursor).value;
      Comes(mode, base + cursor, [buffer[cursor..end]], Following(mode), base + end, all, base + |buffer|)
  {
    hide Value, Refused, From, CutsFrom, IsSpace;
    FromObject(mode, all, base + cursor);
    if buffer[cursor] == '{' {
      DecodeInWindow(buffer, all, base, cursor);
      WindowSlice(buffer, all, base, cursor, Decode(buffer, cursor).value);
    }
  }

  /** Nothing more is yielded from here, and no cut makes a difference. */
  ghost predicate Lost(mode: Mode, s: Text, i: nat) {
    i <= |s| && From(mode, s, i) == Outcome([], false) && forall m | 0 <= m <= |s| :: !CutsFrom(mode, s, i, m)
  }

  /** An object that ends in the buffer is found in it. */
  lemma ObjectInBuffer(buffer: Text, all: Text, base: nat, cursor: nat)
    requires Window(buffer, all, base, 0) && cursor < |buffer| && buffer[cursor] == '{'
    requires Decode(all, base + cursor).Some? && Decode(all, base + cursor).value <= base + |buffer|
    ensures Decode(buffer, cursor).Some?
  {
    hide Value, Refused;
    var n := base + |buffer|;
    var i := base + cursor;
    assert all[i] == buffer[cursor];
    ValueCut(all, all[..n], i);
    var back: int := 0 - base;
    ValueInWindow(all[..n], buffer, back, i);
    DecodeInWindow(buffer, all, base, cursor);
  }

  /** What the buffer holds from the cursor on is what has arrived of the body from there on. */
  lemma RefusedAsCut(buffer: Text, all: Text, base: nat, cursor: nat)
    requires Window(buffer, all, base, 0) && cursor < |buffer|
    ensures Refused(buffer, cursor) <==> Trips(all[base + cursor..base + |buffer|], 0)
  {
    hide Trips;
    WindowSlice(buffer, all, base, cursor, |buffer|);
    assert buffer[cursor..|buffer|] == buffer[cursor..];
  }

  /** Where the decoder refuses, the body itself is refused, or cut badly. */
  lemma RefusedFound(mode: Mode, buffer: Text, all: Text, base: nat, cursor: nat)
    requires Window(buffer, all, base, 0) && AtValue(mode, buffer, cursor) && Refused(buffer, cursor)
    ensures Lost(mode, all, base + cursor) ||
      (CutsFrom(mode, all, base + cursor, base + |buffer|) && From(mode, all, base + cursor).messages != [])
  {
    hide Value, Refused, Trips, From, CutsFrom, IsSpace;
    var i := base + cursor;
    FromObject(mode, all, i);
    assert all[i] == buffer[cursor];
    if all[i] == '{' && Decode(all, i).Some? {
      if Decode(all, i).value <= base + |buffer| { ObjectInBuffer(buffer, all, base, cursor); }
      RefusedAsCut(buffer, all, base, cursor);
    }
  }

  /** Where the parser waits, it has not been cut badly. */
  lemma WaitsWell(mode: Mode, buffer: Text, all: Text, base: nat, cursor: nat)
    requires Window(buffer, all, base, 0) && Waiting(mode, buffer, cursor)
    ensures !CutsFrom(mode, all, base + cursor, base + |buffer|)
  {
    hide Value, Refused, Trips, From, CutsFrom, IsSpace;
    var i, n := base + cursor, base + |buffer|;
    if cursor == |buffer| {
      CutsLater(mode, all, i, n);
    } else {
      FromObject(mode, all, i);
      RefusedAsCut(buffer, all, base, cursor);
      assert all[i] == buffer[cursor];
      if all[i] == '{' && Decode(all, i).Some? {
        if Decode(all, i).value <= n { ObjectInBuffer(buffer, all, base, cursor); }
        CutsLater(Following(mode), all, Decode(all, i).value, n);
      }
    }
  }

  /** The parser raises: the body is lost here whatever comes, or it was cut badly and has more messages. */
  ghost predicate Raises(mode0: Mode, i0: nat, out: seq<Text>, s: Text, n: nat) {
    && i0 <= |s| && n <= |s|
    && if CutsFrom(mode0, s, i0, n) then exists rest: Outcome :: rest.messages != [] && From(mode0, s, i0) == Yielded(out, rest)
       else From(mode0, s, i0) == Outcome(out, false) && forall m | n <= m <= |s| :: !CutsFrom(mode0, s, i0, m)
  }

  lemma ComesToLost(mode0: Mode, i0: nat, out: seq<Text>, mode: Mode, i: nat, s: Text, n: nat)
    requires Comes(mode0, i0, out, mode, i, s, n) && n <= |s|
    requires Lost(mode, s, i) || (CutsFrom(mode, s, i, n) && From(mode, s, i).messages != [])
    ensures Raises(mode0, i0, out, s, n)
  {
    hide From, CutsFrom;
  }

  lemma ComesToRaise(mode0: Mode, i0: nat, out: seq<Text>, mode: Mode, i: nat, more: seq<Text>, s: Text, n: nat, n': nat)
    requires Comes(mode0, i0, out, mode, i, s, n) && n <= n' && Raises(mode, i, more, s, n')
    ensures Raises(mode0, i0, out + more, s, n')
  {
    hide From, CutsFrom;
    if CutsFrom(mode, s, i, n') {
      var rest: Outcome :| rest.messages != [] && From(mode, s, i) == Yielded(more, rest);
      YieldedTwice(out, more, rest);
    }
  }

  /**
   The inner loop over one buffer. `all` is the whole body and `buffer` the part of it from
   `base` on that has arrived; `From(mode, all, base + cursor)` is what is still to be said.
   */
  method Drain(mode0: Mode, cursor0: nat, buffer: Text, ghost all: Text, ghost base: nat)
    returns (mode: Mode, cursor: nat, out: seq<Text>, raised: bool)
    requires cursor0 <= |buffer| && Window(buffer, all, base, 0)
    ensures cursor <= |buffer|
    ensures raised ==> Raises(mode0, base + cursor0, out, all, base + |buffer|)
    ensures !raised ==> Waiting(mode, buffer, cursor)
    ensures !raised ==> Comes(mode0, base + cursor0, out, mode, base + cursor, all, base + |buffer|)
  {
    hide Value, Refused, From, CutsFrom, IsSpace, Comes, Lost, Raises;
    mode, cursor, out, raised := mode0, cursor0, [], false;
    ghost var i0, n := base + cursor0, base + |buffer|;
    ComesFirst(mode0, i0, all, n);
    while true
      invariant cursor <= |buffer|
      invariant Comes(mode0, i0, out, mode, base + cursor, all, n)
      decreases |buffer| - cursor, if mode == Unknown then 1 else 0
    {
      while cursor < |buffer| && IsSpace(buffer[cursor])
        invariant cursor <= |buffer|
        invariant Comes(mode0, i0, out, mode, base + cursor, all, n)
      {
        FromSpace(mode, all, base + cursor);
        ComesOn(mode0, i0, out, mode, base + cursor, mode, base + cursor + 1, all, n);
        cursor := cursor + 1;
      }

      if mode == Unknown {
        if cursor >= |buffer| { break; }
        FromStart(all, base + cursor);
        if buffer[cursor] == '[' {
          ComesOn(mode0, i0, out, Unknown, base + cursor, Array, base + cursor + 1, all, n);
          mode, cursor := Array, cursor + 1;
          continue;
        }
        ComesOn(mode0, i0, out, Unknown, base + cursor, Single, base + cursor, all, n);
        mode := Single;
      }
      if mode == Array {
        if cursor >= |buffer| { break; }
        if buffer[cursor] == ']' || buffer[cursor] == ',' {
          FromSeparator(all, base + cursor);
        }
        if buffer[cursor] == ']' {
          ComesOn(mode0, i0, out, Array, base + cursor, Done, base + cursor + 1, all, n);
          mode, cursor := Done, cursor + 1;
          continue;
        }
        if buffer[cursor] == ',' {
          ComesOn(mode0, i0, out, Array, base + cursor, Array, base + cursor + 1, all, n);
          cursor := cursor + 1;
          continue;
        }
      }
      if mode == Done {
        if cursor < |buffer| {
          TrailingLost(all, base + cursor);
          ComesToLost(mode0, i0, out, Done, base + cursor, all, n);
          raised := true;
          return;
        }
        break;
      }

      if cursor < |buffer| && Refused(buffer, cursor) {
        RefusedFound(mode, buffer, all, base, cursor);
        ComesToLost(mode0, i0, out, mode, base + cursor, all, n);
        raised := true;
        return;
      }
      var end := Decode(buffer, cursor);
      if end.None? { break; }
      ValueFound(mode, buffer, all, base, cursor);
      if buffer[cursor] != '{' {
        ComesToLost(mode0, i0, out, mode, base + cursor, all, n);
        raised := true;
        return;
      }
      var message := buffer[cursor..end.value];
      ComesTwice(mode0, i0, out, mode, base + cursor, [message], Following(mode), base + end.value, all, n, n);
      cursor := end.value;
      out := out + [message];
      if mode == Single { mode := Done; }
    }
  }

  lemma TrailingLost(s: Text, i: nat)
    requires i < |s| && !IsSpace(s[i])
    ensures Lost(Done, s, i)
  {
    FromTrailing(s, i);
  }

  lemma FromEnd(mode: Mode, s: Text)
    ensures From(mode, s, |s|) == Outcome([], true)
  {
  }

  /** At the end of the body, waiting in front of something means it is no value at all. */
  lemma FromWaiting(mode: Mode, all: Text, base: nat, buffer: Text, cursor: nat)
    requires Window(buffer, all, base, 0) && base + |buffer| == |all|
    requires Waiting(mode, buffer, cursor)
    ensures From(mode, all, base + cursor) == Outcome([], cursor == |buffer|)
  {
    hide Value, Refused, From, CutsFrom;
    if cursor == |buffer| {
      FromEnd(mode, all);
    } else {
      FromObject(mode, all, base + cursor);
      if all[base + cursor] == '{' && Decode(all, base + cursor).Some? {
        ObjectInBuffer(buffer, all, base, cursor);
      }
    }
  }

  /**
   The JSON branch, fed chunk by chunk, says what the whole body means if and only if no chunk
   ends where a number of one of its objects looks like an integer of too many digits. If one
   does, the parser raises, after a part of the messages.
   */
  method ParseJson(chunks: seq<Text>) returns (r: Outcome)
    ensures r == Body(Concat(chunks), 0) <==> CutWell(chunks, |chunks|)
    ensures !CutWell(chunks, |chunks|) ==> !r.ok && |r.messages| < |Body(Concat(chunks), 0).messages|
    ensures IsPrefix(r.messages, Body(Concat(chunks), 0).messages)
  {
    hide From, CutsFrom, Body, Cuts, Value, Comes, Raises, Waiting, CutWell, Arrived, IsPrefix;
    ghost var all := Concat(chunks);
    ghost var base: nat := 0;
    var mode, cursor: nat, buffer, out := Unknown, 0, "", [];
    StartsWell(chunks);
    for k := 0 to |chunks|
      invariant Window(buffer, all, base, 0) && all[base + |buffer|..] == Concat(chunks[k..])
      invariant base + |buffer| == Arrived(chunks, k) && cursor <= |buffer|
      invariant Waiting(mode, buffer, cursor) && CutWell(chunks, k)
      invariant Comes(Unknown, 0, out, mode, base + cursor, all, Arrived(chunks, k))
    {
      ghost var before := Arrived(chunks, k);
      NextArrives(chunks, k, all, base, buffer);
      buffer := buffer + chunks[k];
      var mode', cursor', yielded, raised := Drain(mode, cursor, buffer, all, base);
      if raised {
        ComesToRaise(Unknown, 0, out, mode, base + cursor, yielded, all, before, base + |buffer|);
        RaisesRight(chunks, k + 1, out + yielded);
        return Outcome(out + yielded, false);
      }
      WaitsWell(mode', buffer, all, base, cursor');
      ComesTwice(Unknown, 0, out, mode, base + cursor, yielded, mode', base + cursor', all, before, base + |buffer|);
      StillWell(chunks, k, out + yielded, mode', base + cursor');
      mode, cursor, out := mode', cursor', out + yielded;
      if cursor > 0 && cursor >= |buffer| {
        base := base + |buffer|;
        buffer, cursor := "", 0;
        WaitingEmpty(mode);
      }
    }
    assert |Concat(chunks[|chunks|..])| == 0;
    FromWaiting(mode, all, base, buffer, cursor);
    EndsRight(out, mode, base + cursor, all, Arrived(chunks, |chunks|));
    // The source skips white space once more here; the inner loop has left none.
    if mode == Done { DoneWaits(buffer, cursor, mode); }
    if (mode == Unknown || mode == Single || mode == Array) && cursor < |buffer| {
      return Outcome(out, false);
    }
    return Outcome(out, true);
  }

  lemma StartsWell(chunks: seq<Text>)
    ensures var all := Concat(chunks);
      && all[0..] == Concat(chunks[0..]) && Window("", all, 0, 0) && Arrived(chunks, 0) == 0
      && Waiting(Unknown, "", 0) && CutWell(chunks, 0) && Comes(Unknown, 0, [], Unknown, 0, all, 0)
  {
    assert chunks[0..] == chunks;
    CutsLater(Unknown, Concat(chunks), 0, 0);
    ComesFirst(Unknown, 0, Concat(chunks), 0);
  }

  lemma WaitingEmpty(mode: Mode)
    ensures Waiting(mode, "", 0)
  {
  }

  lemma DoneWaits(buffer: Text, cursor: nat, mode: Mode)
    requires Waiting(mode, buffer, cursor) && mode == Done
    ensures cursor == |buffer|
  {
  }

  /** One more chunk: the buffer is a longer window of the body. */
  lemma NextArrives(chunks: seq<Text>, k: nat, all: Text, base: nat, buffer: Text)
    requires k < |chunks| && all == Concat(chunks) && Window(buffer, all, base, 0)
    requires all[base + |buffer|..] == Concat(chunks[k..]) && base + |buffer| == Arrived(chunks, k)
    ensures var longer := buffer + chunks[k];
      && Window(longer, all, base, 0) && all[base + |longer|..] == Concat(chunks[k + 1..])
      && base + |longer| == Arrived(chunks, k + 1) && Arrived(chunks, k) <= Arrived(chunks, k + 1) <= |all|
  {
    ArrivedSoFar(chunks, k + 1);
    assert chunks[k..][1..] == chunks[k + 1..];
    assert forall j | 0 <= j < |chunks[k]| :: all[base + |buffer|..][j] == chunks[k][j];
    assert all[base + |buffer|..][|chunks[k]|..] == Concat(chunks[k + 1..]);
  }

  lemma StillWell(chunks: seq<Text>, k: nat, out: seq<Text>, mode: Mode, i: nat)
    requires k < |chunks| && CutWell(chunks, k) && Arrived(chunks, k + 1) <= |Concat(chunks)|
    requires Comes(Unknown, 0, out, mode, i, Concat(chunks), Arrived(chunks, k + 1))
    requires !CutsFrom(mode, Concat(chunks), i, Arrived(chunks, k + 1))
    ensures CutWell(chunks, k + 1)
  {
    hide From, Cuts, Arrived;
  }

  /** When the parser raises at the `k`-th chunk, it is right to if and only if no chunk ends badly. */
  lemma RaisesRight(chunks: seq<Text>, k: nat, out: seq<Text>)
    requires 0 < k <= |chunks| && CutWell(chunks, k - 1)
    requires Raises(Unknown, 0, out, Concat(chunks), Arrived(chunks, k))
    ensures var whole := Body(Concat(chunks), 0);
      && IsPrefix(out, whole.messages)
      && if CutWell(chunks, |chunks|) then whole == Outcome(out, false) else |out| < |whole.messages|
  {
    hide Body, Cuts, Arrived;
    var all := Concat(chunks);
    FromUnknown(all);
    if Cuts(all, 0, Arrived(chunks, k)) {
      assert !CutWell(chunks, |chunks|);
    } else {
      forall i | 0 <= i <= |chunks| ensures Arrived(chunks, i) <= |all| && !Cuts(all, 0, Arrived(chunks, i)) {
        ArrivedSoFar(chunks, i);
        if i > k { ArrivedGrows(chunks, k, i); }
      }
    }
  }

  lemma {:induction false} ArrivedGrows(chunks: seq<Text>, j: nat, k: nat)
    requires j <= k <= |chunks|
    ensures Arrived(chunks, j) <= Arrived(chunks, k)
    decreases k
  {
    if j < k { ArrivedGrows(chunks, j, k - 1); }
  }

  lemma EndsRight(out: seq<Text>, mode: Mode, i: nat, s: Text, n: nat)
    requires Comes(Unknown, 0, out, mode, i, s, n) && From(mode, s, i).messages == []
    ensures Body(s, 0) == Outcome(out, From(mode, s, i).ok) && IsPrefix(out, Body(s, 0).messages)
  {
    hide From, CutsFrom, Body;
    FromUnknown(s);
  }

  lemma FromUnknown(s: Text)
    ensures From(Unknown, s, 0) == Body(s, 0)
    ensures forall n | 0 <= n <= |s| :: CutsFrom(Unknown, s, 0, n) <==> Cuts(s, 0, n)
  {
  }

  // ---- NDJSON ----

  predicate Blank(line: Text) {
    SkipSpace(line, 0) == |line|
  }

  /** `json.loads` of one line, which must be an object: the object's text. */
  function Line(line: Text): (r: Option<Text>)
  {
    var j := Skip(line, 0);
    if j < |line| && line[j] == '{' && Decode(line, j).Some? && Skip(line, Decode(line, j).value) == |line| then
      Some(line[j..Decode(line, j).value])
    else None
  }

  /** What a list of lines means: every line that is not blank is one object. */
  function Lines(lines: seq<Text>): (r: Outcome)
  {
    if lines == [] then Outcome([], true)
    else if Blank(lines[0]) then Lines(lines[1..])
    else if Line(lines[0]).None? then Outcome([], false)
    else Yielded([Line(lines[0]).value], Lines(lines[1..]))
  }

  lemma LinesNone()
    ensures Lines([]) == Outcome([], true)
  {
  }

  lemma LinesHead(a: seq<Text>)
    requires a != []
    ensures Lines(a) ==
      if Blank(a[0]) then Lines(a[1..])
      else if Line(a[0]).None? then Outcome([], false)
      else Yielded([Line(a[0]).value], Lines(a[1..]))
  {
    hide Line, Blank;
  }

  lemma {:induction false} LinesAppend(a: seq<Text>, b: seq<Text>)
    ensures Lines(a + b) == if Lines(a).ok then Yielded(Lines(a).messages, Lines(b)) else Lines(a)
  {
    hide Line, Blank, Lines;
    if a == [] {
      assert Lines(a) == Outcome([], true) by { LinesNone(); }
      assert a + b == b;
    } else {
      LinesAppend(a[1..], b);
      LinesHead(a);
      LinesHead(a + b);
      assert (a + b)[1..] == a[1..] + b;
      if Line(a[0]).Some? { YieldedTwice([Line(a[0]).value], Lines(a[1..]).messages, Lines(b)); }
    }
  }

  /** One more chunk completes some lines; the last piece goes on pending. */
  lemma ChunkSplits(text: Text, future: Text)
    ensures var pieces := Split(text, '\n'); var n := |pieces| - 1;
      && '\n' !in pieces[n]
      && Lines(Split(text + future, '\n')) ==
           if Lines(pieces[..n]).ok then Yielded(Lines(pieces[..n]).messages, Lines(Split(pieces[n] + future, '\n')))
           else Lines(pieces[..n])
  {
    hide Split, Join, Lines;
    var pieces := Split(text, '\n');
    SplitAppend(text, future, '\n');
    SplitJoin(text, '\n');
    LinesAppend(pieces[..|pieces| - 1], Split(pieces[|pieces| - 1] + future, '\n'));
  }

  lemma ConcatHead(chunks: seq<Text>, k: nat)
    requires k < |chunks|
    ensures Concat(chunks[k..]) == chunks[k] + Concat(chunks[k + 1..])
  {
    assert chunks[k..][1..] == chunks[k + 1..];
  }

  /** What is still to be said when `pending` is left of the chunks before `k`. */
  ghost function Rest(pending: Text, chunks: seq<Text>, k: nat): (r: Outcome)
    requires k <= |chunks|
  {
    Lines(Split(pending + Concat(chunks[k..]), '\n'))
  }

  lemma RestStart(chunks: seq<Text>)
    ensures Rest("", chunks, 0) == Lines(Split(Concat(chunks), '\n'))
  {
    assert chunks[0..] == chunks && "" + Concat(chunks) == Concat(chunks);
  }

  lemma RestEnd(pending: Text, chunks: seq<Text>)
    ensures Rest(pending, chunks, |chunks|) == Lines(Split(pending, '\n'))
  {
    assert chunks[|chunks|..] == [] && pending + Concat([]) == pending;
  }

  lemma RestNext(pending: Text, chunks: seq<Text>, k: nat)
    requires k < |chunks|
    ensures var future := Concat(chunks[k + 1..]);
      Rest(pending, chunks, k) == Lines(Split(pending + chunks[k] + future, '\n'))
  {
    hide Lines, Split;
    ConcatHead(chunks, k);
    assert pending + (chunks[k] + Concat(chunks[k + 1..])) == pending + chunks[k] + Concat(chunks[k + 1..]);
  }

  /** One chunk: the lines it completes are read, the rest goes on pending, whatever is still to come. */
  method TakeChunk(pending: Text, chunk: Text, ghost chunks: seq<Text>, ghost next: nat) returns (rest: Text, read: Outcome)
    requires next <= |chunks|
    ensures '\n' !in rest
    ensures Lines(Split(pending + chunk + Concat(chunks[next..]), '\n')) ==
      if read.ok then Yielded(read.messages, Rest(rest, chunks, next)) else read
  {
    hide Lines, Split, Concat;
    ChunkSplits(pending + chunk, Concat(chunks[next..]));
    var lines := Split(pending + chunk, '\n');
    rest := lines[|lines| - 1];
    read := EachLine(lines[..|lines| - 1]);
  }

  /** The NDJSON branch, fed chunk by chunk, says what the lines of the whole body mean. */
  method ParseNdjson(chunks: seq<Text>) returns (r: Outcome)
    ensures r == Lines(Split(Concat(chunks), '\n'))
  {
    hide Line, Blank, Lines, Split, Concat, Rest;
    var pending, out := "", [];
    RestStart(chunks);
    for k := 0 to |chunks|
      invariant '\n' !in pending
      invariant Lines(Split(Concat(chunks), '\n')) == Yielded(out, Rest(pending, chunks, k))
    {
      RestNext(pending, chunks, k);
      var rest, read := TakeChunk(pending, chunks[k], chunks, k + 1);
      if !read.ok {
        return Yielded(out, read);
      }
      YieldedTwice(out, read.messages, Rest(rest, chunks, k + 1));
      pending, out := rest, out + read.messages;
    }
    RestEnd(pending, chunks);
    LastLine(pending);
    if !Blank(pending) {
      if Line(pending).None? { return Outcome(out, false); }
      return Outcome(out + [Line(pending).value], true);
    }
    return Outcome(out, true);
  }

  /** What is pending after a split holds no line break, and is the last line. */
  lemma LastLine(pending: Text)
    requires '\n' !in pending
    ensures Lines(Split(pending, '\n')) ==
      if Blank(pending) then Outcome([], true)
      else if Line(pending).None? then Outcome([], false)
      else Outcome([Line(pending).value], true)
  {
    hide Line, Blank;
    SplitWhole(pending, '\n');
  }

  method EachLine(lines: seq<Text>) returns (r: Outcome)
    ensures r == Lines(lines)
  {
    hide Line, Blank;
    var out := [];
    for k := 0 to |lines|
      invariant Lines(lines) == Yielded(out, Lines(lines[k..]))
    {
      assert lines[k..][1..] == lines[k + 1..];
      if !Blank(lines[k]) {
        if Line(lines[k]).None? { return Outcome(out, false); }
        YieldedTwice(out, [Line(lines[k]).value], Lines(lines[k + 1..]));
        out := out + [Line(lines[k]).value];
      }
    }
    return Outcome(out, true);
  }

  // ---- What the meaning of a body promises ----

  /** A body that is cut short yields a prefix of the messages of the whole body. */
  lemma {:induction false} ItemsPrefix(s: Text, w: Text, i: nat)
    requires Window(s, w, 0, i)
    ensures IsPrefix(Items(s, i).messages, Items(w, i).messages)
    decreases |s| - i
  {
    hide Decode, SkipSpace, IsPrefix;
    var j := SkipSpace(s, i);
    if j < |s| && s[j] != ']' {
      SpaceSkipped(s, w, i);
      if s[j] == ',' {
        ItemsPrefix(s, w, j + 1);
      } else if s[j] == '{' && Decode(s, j).Some? {
        SameObject(s, w, j);
        var end := Decode(s, j).value;
        ItemsPrefix(s, w, end);
        PrefixExtend([s[j..end]], Items(s, end).messages, Items(w, end).messages);
      } else {
        NothingIsPrefix(Items(w, i).messages);
      }
    } else {
      NothingIsPrefix(Items(w, i).messages);
    }
  }

  lemma NothingIsPrefix(messages: seq<Text>)
    ensures IsPrefix([], messages)
  {
  }

  lemma SpaceSkipped(s: Text, w: Text, i: nat)
    requires Window(s, w, 0, i) && SkipSpace(s, i) < |s|
    ensures var j := SkipSpace(s, i);
      SkipSpace(w, i) == j && j < |w| && w[j] == s[j] && Window(s, w, 0, j) && Window(s, w, 0, j + 1)
  {
    SkipSpaceInWindow(s, w, 0, i);
  }

  lemma SameObject(s: Text, w: Text, j: nat)
    requires Window(s, w, 0, j) && j < |s| && s[j] == '{' && Decode(s, j).Some?
    ensures var end := Decode(s, j).value;
      Decode(w, j) == Some(end) && end <= |w| && w[j..end] == s[j..end] && Window(s, w, 0, end)
  {
    hide Value, Refused;
    DecodeInWindow(s, w, 0, j);
  }

  lemma TruncatedBodyYieldsPrefix(body: Text, more: Text)
    ensures IsPrefix(Body(body, 0).messages, Body(body + more, 0).messages)
  {
    hide Decode, Items, IsPrefix, SkipSpace;
    var w := body + more;
    var j := SkipSpace(body, 0);
    if j < |body| && (body[j] == '[' || (body[j] == '{' && Decode(body, j).Some?)) {
      SpaceSkipped(body, w, 0);
      if body[j] == '[' {
        ItemsPrefix(body, w, j + 1);
      } else {
        SameObject(body, w, j);
        OneRead(body, j);
        OneRead(w, j);
        PrefixExtend([body[j..Decode(body, j).value]], [], []);
        NothingIsPrefix([]);
      }
    } else {
      OneRead(body, j);
      NothingIsPrefix(Body(w, 0).messages);
    }
  }

  /** A body that is no array yields one message at most. */
  lemma OneRead(s: Text, j: nat)
    requires j <= |s| && (j < |s| ==> !IsSpace(s[j]))
    ensures One(s, j).messages == if j < |s| && s[j] == '{' && Decode(s, j).Some? then [s[j..Decode(s, j).value]] else []
  {
    hide Decode;
  }

  lemma {:induction false} SkipSpaceInWindow(s: Text, w: Text, d: int, i: nat)
    requires Window(s, w, d, i) && SkipSpace(s, i) < |s|
    ensures SkipSpace(w, d + i) == d + SkipSpace(s, i)
    decreases |s| - i
  {
    if IsSpace(s[i]) { SkipSpaceInWindow(s, w, d, i + 1); }
  }
}
