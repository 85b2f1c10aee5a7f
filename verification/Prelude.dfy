/** Small building blocks shared by the models. */
module Prelude {

  datatype Option<+T> = None | Some(value: T)

  /** The outcome of an operation that may raise. */
  datatype Result<+T, +E> = Ok(value: T) | Err(error: E)

  /** Flattens a sequence of chunks into the text they carry. */
  function Concat<T>(chunks: seq<seq<T>>): (all: seq<T>)
  {
    if chunks == [] then [] else chunks[0] + Concat(chunks[1..])
  }

  ghost predicate IsPrefix<T>(a: seq<T>, b: seq<T>) {
    |a| <= |b| && b[..|a|] == a
  }

  lemma PrefixExtend<T>(head: seq<T>, a: seq<T>, b: seq<T>)
    requires IsPrefix(a, b)
    ensures IsPrefix(head + a, head + b)
  {
    assert (head + b)[..|head + a|] == head + b[..|a|];
  }

  /** `str.split` on one character: always at least one piece. */
  function Split(s: string, sep: char): (pieces: seq<string>)
    ensures pieces != []
  {
    if s == "" then [""] else SplitStep(s[0], Split(s[1..], sep), sep)
  }

  /** What one character in front does to the pieces. */
  function SplitStep(c: char, pieces: seq<string>, sep: char): (r: seq<string>)
    requires pieces != []
    ensures r != []
  {
    if c == sep then [""] + pieces else [[c] + pieces[0]] + pieces[1..]
  }

  function Join(pieces: seq<string>, sep: char): (s: string)
    requires pieces != []
  {
    if |pieces| == 1 then pieces[0] else pieces[0] + [sep] + Join(pieces[1..], sep)
  }

  /** Splitting is the only way to write `s` as pieces without `sep`, joined by `sep`. */
  lemma {:induction false} SplitJoin(s: string, sep: char)
    ensures Join(Split(s, sep), sep) == s
    ensures forall k | 0 <= k < |Split(s, sep)| :: sep !in Split(s, sep)[k]
  {
    if s != "" {
      SplitJoin(s[1..], sep);
      var rest := Split(s[1..], sep);
      if s[0] == sep {
        assert ([""] + rest)[1..] == rest;
      } else {
        assert s == [s[0]] + s[1..];
        assert |rest| > 1 ==> SplitStep(s[0], rest, sep)[1..] == rest[1..];
      }
    }
  }

  lemma StepAppend(c: char, a: seq<string>, b: seq<string>, sep: char)
    requires a != []
    ensures SplitStep(c, a + b, sep) == SplitStep(c, a, sep) + b
  {
  }

  /** Text that arrives later only ever extends the last piece. */
  lemma {:induction false} SplitAppend(a: string, b: string, sep: char)
    ensures var pieces := Split(a, sep); var last := |pieces| - 1;
      Split(a + b, sep) == pieces[..last] + Split(pieces[last] + b, sep)
  {
    if a == "" {
      assert a + b == b;
    } else {
      SplitAppend(a[1..], b, sep);
      assert (a + b)[1..] == a[1..] + b;
      StepAppends(a[0], Split(a[1..], sep), b, sep);
    }
  }

  /** A character in front of one piece, followed by more text. */
  lemma StepInFront(c: char, piece: string, b: string, sep: char)
    ensures SplitStep(c, Split(piece + b, sep), sep) ==
      if c == sep then [""] + Split(piece + b, sep) else Split([c] + piece + b, sep)
  {
    if c != sep {
      var whole := [c] + piece + b;
      assert whole[0] == c && whole[1..] == piece + b;
    }
  }

  lemma StepAppends(c: char, rest: seq<string>, b: string, sep: char)
    requires rest != []
    ensures var n := |rest| - 1; var pieces := SplitStep(c, rest, sep); var last := |pieces| - 1;
      SplitStep(c, rest[..n] + Split(rest[n] + b, sep), sep) == pieces[..last] + Split(pieces[last] + b, sep)
  {
    hide Split;
    var n := |rest| - 1;
    var more := Split(rest[n] + b, sep);
    if n > 0 {
      StepAppend(c, rest[..n], more, sep);
      StepAppend(c, rest[..n], [rest[n]], sep);
      assert rest[..n] + [rest[n]] == rest;
    } else {
      StepInFront(c, rest[0], b, sep);
      assert rest == [rest[0]] && rest[..0] + more == more;
      assert SplitStep(c, rest, sep) == if c == sep then ["", rest[0]] else [[c] + rest[0]];
    }
  }

  lemma {:induction false} SplitOfJoin(pieces: seq<string>, sep: char)
    requires pieces != [] && forall k | 0 <= k < |pieces| :: sep !in pieces[k]
    ensures Split(Join(pieces, sep), sep) == pieces
    decreases |pieces|
  {
    if |pieces| == 1 {
      SplitWhole(pieces[0], sep);
    } else {
      SplitOfJoin(pieces[1..], sep);
      SplitFirst(pieces[0], Join(pieces[1..], sep), sep);
      assert pieces == [pieces[0]] + pieces[1..];
    }
  }

  lemma {:induction false} SplitFirst(first: string, rest: string, sep: char)
    requires sep !in first
    ensures Split(first + [sep] + rest, sep) == [first] + Split(rest, sep)
  {
    var all := first + [sep] + rest;
    if first == "" {
      assert all[0] == sep && all[1..] == rest;
    } else {
      assert forall c | c in first[1..] :: c in first;
      SplitFirst(first[1..], rest, sep);
      assert all[0] == first[0] && all[1..] == first[1..] + [sep] + rest;
      var pieces := [first[1..]] + Split(rest, sep);
      assert [first[0]] + first[1..] == first;
      assert SplitStep(first[0], pieces, sep) == [first] + Split(rest, sep);
    }
  }

  lemma {:induction false} SplitWhole(s: string, sep: char)
    requires sep !in s
    ensures Split(s, sep) == [s]
  {
    if s != "" {
      assert forall c | c in s[1..] :: c in s;
      SplitWhole(s[1..], sep);
      assert s == [s[0]] + s[1..];
    }
  }

  // ---- Sums over maps ----

  ghost function AnyKey<K, V>(m: map<K, V>): (k: K)
    requires m != map[]
    ensures k in m
  {
    assert m.Keys != {};
    var k :| k in m;
    k
  }

  ghost function MapSum<K>(m: map<K, nat>): (total: nat)
    decreases |m|
  {
    if m == map[] then 0
    else
      var k := AnyKey(m);
      assert |m - {k}| < |m| by { FewerKeys(m, k); }
      m[k] + MapSum(m - {k})
  }

  lemma FewerKeys<K, V>(m: map<K, V>, k: K)
    requires k in m
    ensures |m - {k}| < |m|
  {
    assert (m - {k}).Keys == m.Keys - {k};
    assert |(m - {k}).Keys| < |m.Keys|;
  }

  /** The sum does not depend on the order of the keys. */
  lemma {:induction false} SumRemove<K>(m: map<K, nat>, k: K)
    requires k in m
    ensures MapSum(m) == m[k] + MapSum(m - {k})
    decreases |m|
  {
    var k0 := AnyKey(m);
    if k != k0 {
      FewerKeys(m, k0);
      FewerKeys(m, k);
      SumRemove(m - {k0}, k);
      SumRemove(m - {k}, k0);
      assert m - {k0} - {k} == m - {k} - {k0};
    }
  }

  lemma SumUpdate<K>(m: map<K, nat>, k: K, v: nat)
    ensures MapSum(m[k := v]) + (if k in m then m[k] else 0) == MapSum(m) + v
  {
    SumRemove(m[k := v], k);
    assert m[k := v] - {k} == m - {k};
    if k in m {
      SumRemove(m, k);
    } else {
      assert m - {k} == m;
    }
  }

  /** `counts[k] += 1` on a dictionary of counters. */
  function Bump<K>(counts: map<K, nat>, k: K): (r: map<K, nat>) {
    counts[k := (if k in counts then counts[k] else 0) + 1]
  }

  lemma SumBump<K>(counts: map<K, nat>, k: K)
    ensures MapSum(Bump(counts, k)) == MapSum(counts) + 1
  {
    SumUpdate(counts, k, (if k in counts then counts[k] else 0) + 1);
  }
}
