/** The rolling aggregates of `TrafficRecorder.metrics`, src/mcpxy_proxy/observability/traffic.py. */
module TrafficMetrics {
  import opened Prelude
  import opened TrafficRecorders

  predicate IsError(rec: Record) {
    rec.status == "error" || rec.status == "timeout" || rec.status == "denied"
  }

  datatype Bucket = Bucket(total: nat, errors: nat, latencies: seq<real>, byStatus: map<string, nat>)

  datatype Tally = Tally(total: nat, errors: nat, latencies: seq<real>, perUpstream: map<string, Bucket>)

  /** The latencies of a bucket give way to three percentiles. */
  datatype Summary = Summary(
    total: nat, errors: nat, p50: real, p95: real, p99: real, byStatus: map<string, nat>)

  datatype Report = Report(
    total: nat, errors: nat, p50: real, p95: real, p99: real, perUpstream: map<string, Summary>)

  // ---- What the window holds, defined without counters ----

  /** The records of the first `n` that are in the window. */
  function InWindow(buffer: seq<Record>, cutoff: real, n: nat): (recs: seq<Record>)
    requires n <= |buffer|
    ensures |recs| <= n
  {
    if n == 0 then []
    else if buffer[n - 1].timestamp < cutoff then InWindow(buffer, cutoff, n - 1)
    else InWindow(buffer, cutoff, n - 1) + [buffer[n - 1]]
  }

  function Of(recs: seq<Record>, u: string): (own: seq<Record>)
    ensures |own| <= |recs|
  {
    if recs == [] then []
    else
      var m := |recs| - 1;
      Of(recs[..m], u) + (if recs[m].upstream == u then [recs[m]] else [])
  }

  function Errors(recs: seq<Record>): (n: nat)
    ensures n <= |recs|
  {
    if recs == [] then 0
    else Errors(recs[..|recs| - 1]) + (if IsError(recs[|recs| - 1]) then 1 else 0)
  }

  function WithStatus(recs: seq<Record>, status: string): (n: nat)
    ensures n <= |recs|
  {
    if recs == [] then 0
    else WithStatus(recs[..|recs| - 1], status) + (if recs[|recs| - 1].status == status then 1 else 0)
  }

  function Latencies(recs: seq<Record>): (values: seq<real>)
    ensures |values| == |recs|
    ensures forall i | 0 <= i < |recs| :: values[i] == recs[i].latency
  {
    seq(|recs|, i requires 0 <= i < |recs| => recs[i].latency)
  }

  ghost function Upstreams(recs: seq<Record>): (names: set<string>) {
    set rec | rec in recs :: rec.upstream
  }

  ghost function Statuses(recs: seq<Record>): (names: set<string>) {
    set rec | rec in recs :: rec.status
  }

  ghost function StatusCounts(recs: seq<Record>): (counts: map<string, nat>) {
    map s | s in Statuses(recs) :: WithStatus(recs, s)
  }

  ghost function BucketOf(recs: seq<Record>): (b: Bucket) {
    Bucket(|recs|, Errors(recs), Latencies(recs), StatusCounts(recs))
  }

  ghost function Buckets(recs: seq<Record>): (buckets: map<string, Bucket>) {
    map u | u in Upstreams(recs) :: BucketOf(Of(recs, u))
  }

  /** The whole tally: each upstream's bucket is that of its own records. */
  ghost function TallyOf(recs: seq<Record>): (t: Tally) {
    Tally(|recs|, Errors(recs), Latencies(recs), Buckets(recs))
  }

  // ---- The counters of the loop ----

  function Added(b: Bucket, rec: Record): (r: Bucket) {
    Bucket(b.total + 1, b.errors + (if IsError(rec) then 1 else 0), b.latencies + [rec.latency], Bump(b.byStatus, rec.status))
  }

  const EMPTY := Bucket(0, 0, [], map[])

  lemma StatusAppend(recs: seq<Record>, rec: Record, s: string)
    ensures WithStatus(recs + [rec], s) == WithStatus(recs, s) + (if rec.status == s then 1 else 0)
    ensures s in Statuses(recs + [rec]) <==> s in Statuses(recs) || s == rec.status
  {
    var all := recs + [rec];
    assert all[..|recs|] == recs && all[|recs|] == rec;
    forall r | r in recs ensures r.status in Statuses(all) { assert r in all; }
  }

  lemma {:induction false} NoSuchStatus(recs: seq<Record>, s: string)
    requires s !in Statuses(recs)
    ensures WithStatus(recs, s) == 0
  {
    if recs != [] {
      var m := |recs| - 1;
      assert recs[m] in recs;
      forall r | r in recs[..m] ensures r.status in Statuses(recs) { assert r in recs; }
      NoSuchStatus(recs[..m], s);
    }
  }

  lemma StatusCountsAppend(recs: seq<Record>, rec: Record)
    ensures StatusCounts(recs + [rec]) == Bump(StatusCounts(recs), rec.status)
  {
    var before, after := StatusCounts(recs), StatusCounts(recs + [rec]);
    hide Statuses, WithStatus;
    if rec.status !in Statuses(recs) { NoSuchStatus(recs, rec.status); }
    forall s ensures s in after <==> s in before || s == rec.status { StatusAppend(recs, rec, s); }
    forall s | s in after ensures after[s] == Bump(before, rec.status)[s] { StatusAppend(recs, rec, s); }
  }

  lemma BucketAppend(recs: seq<Record>, rec: Record)
    ensures BucketOf(recs + [rec]) == Added(BucketOf(recs), rec)
  {
    hide Errors, Latencies, StatusCounts, Bump, IsError;
    StatusCountsAppend(recs, rec);
    WholeAppend(recs, rec);
  }

  lemma OfAppend(recs: seq<Record>, rec: Record, u: string)
    ensures Of(recs + [rec], u) == Of(recs, u) + (if rec.upstream == u then [rec] else [])
    ensures u in Upstreams(recs + [rec]) <==> u in Upstreams(recs) || u == rec.upstream
  {
    var all := recs + [rec];
    assert all[..|recs|] == recs && all[|recs|] == rec;
    forall r | r in recs ensures r.upstream in Upstreams(all) { assert r in all; }
  }

  lemma {:induction false} NoneOf(recs: seq<Record>, u: string)
    requires u !in Upstreams(recs)
    ensures Of(recs, u) == []
  {
    if recs != [] {
      var m := |recs| - 1;
      assert recs[m] in recs;
      forall r | r in recs[..m] ensures r.upstream in Upstreams(recs) { assert r in recs; }
      NoneOf(recs[..m], u);
    }
  }

  lemma EmptyBucket()
    ensures BucketOf([]) == EMPTY
  {
    var none: seq<Record> := [];
    assert Latencies(none) == [];
  }

  lemma BucketsAppend(recs: seq<Record>, rec: Record)
    ensures var u, before := rec.upstream, Buckets(recs);
      Buckets(recs + [rec]) == before[u := Added(if u in before then before[u] else EMPTY, rec)]
  {
    var u, before, after := rec.upstream, Buckets(recs), Buckets(recs + [rec]);
    hide Of, Upstreams, BucketOf, Added;
    EmptyBucket();
    if u !in Upstreams(recs) { NoneOf(recs, u); }
    BucketAppend(Of(recs, u), rec);
    forall v ensures v in after <==> v in before || v == u { OfAppend(recs, rec, v); }
    forall v | v in after ensures after[v] == if v == u then Added(if u in before then before[u] else EMPTY, rec) else before[v] {
      OfAppend(recs, rec, v);
      assert Of(recs, v) + [] == Of(recs, v);
    }
  }

  /** One more record in the window changes the tally as one turn of the loop does. */
  lemma TallyAppend(recs: seq<Record>, rec: Record)
    ensures var t := TallyOf(recs); var u := rec.upstream;
      var b := if u in t.perUpstream then t.perUpstream[u] else EMPTY;
      TallyOf(recs + [rec]) ==
        Tally(t.total + 1, t.errors + (if IsError(rec) then 1 else 0), t.latencies + [rec.latency], t.perUpstream[u := Added(b, rec)])
  {
    hide Buckets, Errors, Latencies, Added, IsError;
    BucketsAppend(recs, rec);
    WholeAppend(recs, rec);
  }

  lemma WholeAppend(recs: seq<Record>, rec: Record)
    ensures Errors(recs + [rec]) == Errors(recs) + (if IsError(rec) then 1 else 0)
    ensures Latencies(recs + [rec]) == Latencies(recs) + [rec.latency]
  {
    var all := recs + [rec];
    assert all[..|recs|] == recs && all[|recs|] == rec;
  }

  // ---- Percentiles ----

  /** Python's `round` to an integer: halves go to the even neighbour. */
  function RoundHalfEven(x: real): (n: int)
    ensures x - 0.5 <= n as real <= x + 0.5
  {
    var f := x.Floor;
    var d := x - f as real;
    if d < 0.5 || (d == 0.5 && f % 2 == 0) then f else f + 1
  }

  lemma RoundMonotone(x: real, y: real)
    requires x <= y
    ensures RoundHalfEven(x) <= RoundHalfEven(y)
  {
    assert x.Floor <= y.Floor;
  }

  /** `round(x, 3)`, over the reals. */
  function RoundTo3(x: real): (r: real)
    ensures x - 0.0005 <= r <= x + 0.0005
  {
    RoundHalfEven(x * 1000.0) as real / 1000.0
  }

  lemma RoundTo3Monotone(x: real, y: real)
    requires x <= y
    ensures RoundTo3(x) <= RoundTo3(y)
  {
    RoundMonotone(x * 1000.0, y * 1000.0);
  }

  ghost predicate IsSorted(s: seq<real>) {
    forall i, j | 0 <= i < j < |s| :: s[i] <= s[j]
  }

  function Insert(x: real, s: seq<real>): (r: seq<real>)
    ensures |r| == |s| + 1
  {
    if s == [] || x <= s[0] then [x] + s else [s[0]] + Insert(x, s[1..])
  }

  function Sorted(s: seq<real>): (r: seq<real>)
    ensures |r| == |s|
  {
    if s == [] then [] else Insert(s[0], Sorted(s[1..]))
  }

  lemma {:induction false} InsertSorts(x: real, s: seq<real>)
    requires IsSorted(s)
    ensures IsSorted(Insert(x, s)) && multiset(Insert(x, s)) == multiset(s) + multiset{x}
  {
    if s != [] && x > s[0] {
      var head, tail := s[0], s[1..];
      assert s == [head] + tail;
      InsertSorts(x, tail);
      Prepended(head, x, tail, Insert(x, tail));
    } else {
      assert multiset([x] + s) == multiset{x} + multiset(s);
    }
  }

  lemma Prepended(head: real, x: real, tail: seq<real>, rest: seq<real>)
    requires IsSorted([head] + tail) && head < x
    requires IsSorted(rest) && multiset(rest) == multiset(tail) + multiset{x}
    ensures IsSorted([head] + rest) && multiset([head] + rest) == multiset([head] + tail) + multiset{x}
  {
    forall i | 0 <= i < |rest| ensures head <= rest[i] {
      assert rest[i] in multiset(rest);
      if rest[i] != x {
        assert rest[i] in tail;
        var k :| 0 <= k < |tail| && tail[k] == rest[i];
        assert ([head] + tail)[0] <= ([head] + tail)[k + 1];
      }
    }
  }

  /** Sorting gives the same values in order. */
  lemma {:induction false} SortedSorts(s: seq<real>)
    ensures IsSorted(Sorted(s)) && multiset(Sorted(s)) == multiset(s)
  {
    if s != [] {
      SortedSorts(s[1..]);
      InsertSorts(s[0], Sorted(s[1..]));
      assert s == [s[0]] + s[1..];
    }
  }

  function Clamp(k: int, n: nat): (r: nat)
    requires n > 0
    ensures r < n
  {
    if k < 0 then 0 else if k > n - 1 then n - 1 else k
  }

  /** How far into `n` sorted values `p` percent is. */
  function Position(n: nat, p: int): (x: real) {
    (p as real / 100.0) * (n - 1) as real
  }

  function Rank(n: nat, p: int): (k: nat)
    requires n > 0
    ensures k < n
  {
    Clamp(RoundHalfEven(Position(n, p)), n)
  }

  lemma RankMonotone(n: nat, p: int, q: int)
    requires n > 0 && p <= q
    ensures Rank(n, p) <= Rank(n, q)
  {
    hide RoundHalfEven, Position;
    PositionMonotone(n, p, q);
    RoundMonotone(Position(n, p), Position(n, q));
  }

  lemma PositionIs(n: nat, p: int)
    requires n > 0
    ensures Position(n, p) == (p * (n - 1)) as real / 100.0
  {
  }

  lemma Shares(p: int, m: nat)
    requires 0 <= p <= 100
    ensures 0 <= p * m <= 100 * m
  {
  }

  lemma PositionInside(n: nat, p: int)
    requires n > 0 && 0 <= p <= 100
    ensures 0.0 <= Position(n, p) <= (n - 1) as real
  {
    hide Position;
    PositionIs(n, p);
    Shares(p, n - 1);
  }

  /** The rank is the nearest one to `p` percent of the way: no percentile is off by more than half a place. */
  lemma RankNearest(n: nat, p: int)
    requires n > 0 && 0 <= p <= 100
    ensures (p * (n - 1)) as real / 100.0 - 0.5 <= Rank(n, p) as real <= (p * (n - 1)) as real / 100.0 + 0.5
  {
    hide Position;
    PositionIs(n, p);
    PositionInside(n, p);
    RoundMonotone(0.0, Position(n, p));
    RoundMonotone(Position(n, p), (n - 1) as real);
  }

  lemma PositionMonotone(n: nat, p: int, q: int)
    requires n > 0 && p <= q
    ensures Position(n, p) <= Position(n, q)
  {
    Scales(p as real / 100.0, q as real / 100.0, (n - 1) as real);
  }

  function Percentile(values: seq<real>, p: int): (r: real)
  {
    if values == [] then 0.0 else RoundTo3(Sorted(values)[Rank(|values|, p)])
  }

  lemma Scales(a: real, b: real, n: real)
    requires a <= b && n >= 0.0
    ensures a * n <= b * n
  {
  }

  /** A percentile is the rounding of one of the values, and grows with `p`. */
  lemma PercentileOfValue(values: seq<real>, p: int, q: int)
    requires p <= q
    ensures values != [] ==> exists i | 0 <= i < |values| :: Percentile(values, p) == RoundTo3(values[i])
    ensures Percentile(values, p) <= Percentile(values, q)
  {
    if values != [] {
      hide Sorted, Rank, RoundTo3;
      SortedSorts(values);
      var n, sorted := |values|, Sorted(values);
      RankMonotone(n, p, q);
      var k, l := Rank(n, p), Rank(n, q);
      assert sorted[k] <= sorted[l];
      RoundTo3Monotone(sorted[k], sorted[l]);
      assert sorted[k] in multiset(sorted);
      assert sorted[k] in values;
    }
  }

  /** How many of the values are at most `v`, and how many less. */
  function AtMost(values: seq<real>, v: real): (n: nat) {
    if values == [] then 0 else (if values[0] <= v then 1 else 0) + AtMost(values[1..], v)
  }

  function Below(values: seq<real>, v: real): (n: nat) {
    if values == [] then 0 else (if values[0] < v then 1 else 0) + Below(values[1..], v)
  }

  lemma {:induction false} InsertCounts(x: real, s: seq<real>, v: real)
    ensures AtMost(Insert(x, s), v) == AtMost(s, v) + (if x <= v then 1 else 0)
    ensures Below(Insert(x, s), v) == Below(s, v) + (if x < v then 1 else 0)
  {
    if s != [] && x > s[0] {
      InsertCounts(x, s[1..], v);
      assert Insert(x, s)[1..] == Insert(x, s[1..]);
    } else {
      assert ([x] + s)[1..] == s;
    }
  }

  lemma {:induction false} SortedCounts(s: seq<real>, v: real)
    ensures AtMost(Sorted(s), v) == AtMost(s, v) && Below(Sorted(s), v) == Below(s, v)
  {
    if s != [] {
      SortedCounts(s[1..], v);
      InsertCounts(s[0], Sorted(s[1..]), v);
    }
  }

  /** Up to place `k` of a sorted sequence all values are at most the one there, and none after it is less. */
  lemma {:induction false} PlaceCounts(s: seq<real>, k: nat, v: real)
    requires IsSorted(s) && k < |s| && s[k] == v
    ensures AtMost(s, v) >= k + 1 && Below(s, v) <= k
  {
    assert IsSorted(s[1..]) by { assert forall i | 0 <= i < |s| - 1 :: s[1..][i] == s[i + 1]; }
    if k > 0 {
      PlaceCounts(s[1..], k - 1, v);
    } else {
      NoneBelow(s, v);
    }
  }

  lemma {:induction false} NoneBelow(s: seq<real>, v: real)
    requires forall i | 0 <= i < |s| :: s[i] >= v
    ensures Below(s, v) == 0
  {
    if s != [] { NoneBelow(s[1..], v); }
  }

  /**
   What is reported as the `p`-th percentile is one of the values, rounded to three places. Of `n`
   values, at least half a place more than `p` percent of `n - 1` are no greater than it, and
   at most that many are less.
   */
  lemma PercentileShare(values: seq<real>, p: int) returns (v: real)
    requires values != [] && 0 <= p <= 100
    ensures v in values && Percentile(values, p) == RoundTo3(v)
    ensures AtMost(values, v) as real >= (p * (|values| - 1)) as real / 100.0 + 0.5
    ensures Below(values, v) as real <= (p * (|values| - 1)) as real / 100.0 + 0.5
  {
    hide Sorted, Rank, RoundTo3;
    SortedSorts(values);
    var k, sorted := Rank(|values|, p), Sorted(values);
    v := sorted[k];
    RankNearest(|values|, p);
    PlaceCounts(sorted, k, v);
    SortedCounts(values, v);
    assert v in multiset(sorted);
  }

  /** Rounding to three places: to the nearest multiple of a thousandth, halves to the even one. */
  lemma RoundsNearest(x: real, m: int)
    requires x * 1000.0 - 0.5 <= m as real <= x * 1000.0 + 0.5
    requires x * 1000.0 - 0.5 == m as real || x * 1000.0 + 0.5 == m as real ==> m % 2 == 0
    ensures RoundTo3(x) == m as real / 1000.0
  {
    var y := x * 1000.0;
    assert y.Floor == m || y.Floor == m - 1;
  }

  // ---- The report ----

  function Summarize(b: Bucket): (s: Summary) {
    Summary(b.total, b.errors, Percentile(b.latencies, 50), Percentile(b.latencies, 95), Percentile(b.latencies, 99), b.byStatus)
  }

  ghost function ReportOf(recs: seq<Record>): (r: Report) {
    var t := TallyOf(recs);
    Report(t.total, t.errors, Percentile(t.latencies, 50), Percentile(t.latencies, 95), Percentile(t.latencies, 99),
      map u | u in t.perUpstream :: Summarize(t.perUpstream[u]))
  }

  /** One pass over the buffer with counters, one over the buckets. */
  method Metrics(buffer: seq<Record>, cutoff: real) returns (report: Report)
    ensures report == ReportOf(InWindow(buffer, cutoff, |buffer|))
  {
    var tally := CountWindow(buffer, cutoff);
    hide Percentile, TallyOf;
    var summaries: map<string, Summary> := map[];
    var todo := tally.perUpstream.Keys;
    while todo != {}
      invariant todo <= tally.perUpstream.Keys
      invariant summaries.Keys == tally.perUpstream.Keys - todo
      invariant forall u | u in summaries :: summaries[u] == Summarize(tally.perUpstream[u])
      decreases |todo|
    {
      var name :| name in todo;
      var b := tally.perUpstream[name];
      summaries := summaries[name :=
        Summary(b.total, b.errors, Percentile(b.latencies, 50), Percentile(b.latencies, 95), Percentile(b.latencies, 99), b.byStatus)];
      todo := todo - {name};
    }
    report := Report(tally.total, tally.errors, Percentile(tally.latencies, 50), Percentile(tally.latencies, 95),
      Percentile(tally.latencies, 99), summaries);
    assert summaries == map u | u in tally.perUpstream :: Summarize(tally.perUpstream[u]);
  }

  method CountWindow(buffer: seq<Record>, cutoff: real) returns (tally: Tally)
    ensures tally == TallyOf(InWindow(buffer, cutoff, |buffer|))
  {
    hide Errors, Latencies;
    var total, errors := 0, 0;
    var latencies: seq<real> := [];
    var perUpstream: map<string, Bucket> := map[];
    EmptyTally();
    hide TallyOf;
    for i := 0 to |buffer|
      invariant Tally(total, errors, latencies, perUpstream) == TallyOf(InWindow(buffer, cutoff, i))
    {
      var rec := buffer[i];
      if rec.timestamp < cutoff {
        continue;
      }
      TallyAppend(InWindow(buffer, cutoff, i), rec);
      total := total + 1;
      var isError := IsError(rec);
      if isError {
        errors := errors + 1;
      }
      latencies := latencies + [rec.latency];
      var bucket := if rec.upstream in perUpstream then perUpstream[rec.upstream] else EMPTY;
      bucket := bucket.(total := bucket.total + 1, errors := bucket.errors + (if isError then 1 else 0),
        latencies := bucket.latencies + [rec.latency], byStatus := Bump(bucket.byStatus, rec.status));
      perUpstream := perUpstream[rec.upstream := bucket];
    }
    tally := Tally(total, errors, latencies, perUpstream);
  }

  lemma EmptyTally()
    ensures TallyOf([]) == Tally(0, 0, [], map[])
  {
    var none: seq<Record> := [];
    assert Latencies(none) == [];
    assert Buckets(none) == map[];
  }

  /** An empty window reports nothing but zeros. */
  lemma EmptyReport()
    ensures ReportOf([]) == Report(0, 0, 0.0, 0.0, 0.0, map[])
  {
    EmptyTally();
  }

  // ---- The aggregates agree with each other ----

  function Totals(per: map<string, Summary>): (counts: map<string, nat>) {
    map u | u in per :: per[u].total
  }

  function ErrorCounts(per: map<string, Summary>): (counts: map<string, nat>) {
    map u | u in per :: per[u].errors
  }

  lemma {:induction false} StatusesSum(recs: seq<Record>)
    ensures MapSum(StatusCounts(recs)) == |recs|
  {
    hide WithStatus, Statuses, Bump;
    if recs == [] {
      NoStatuses();
    } else {
      var m := |recs| - 1;
      assert recs == recs[..m] + [recs[m]];
      StatusesSum(recs[..m]);
      StatusCountsAppend(recs[..m], recs[m]);
      SumBump(StatusCounts(recs[..m]), recs[m].status);
    }
  }

  lemma NoStatuses()
    ensures StatusCounts([]) == map[]
  {
  }

  ghost function BucketTotals(recs: seq<Record>): (counts: map<string, nat>) {
    map u | u in Buckets(recs) :: Buckets(recs)[u].total
  }

  ghost function BucketErrors(recs: seq<Record>): (counts: map<string, nat>) {
    map u | u in Buckets(recs) :: Buckets(recs)[u].errors
  }

  lemma UpstreamsAppend(recs: seq<Record>, rec: Record)
    ensures MapSum(BucketTotals(recs + [rec])) == MapSum(BucketTotals(recs)) + 1
    ensures MapSum(BucketErrors(recs + [rec])) == MapSum(BucketErrors(recs)) + (if IsError(rec) then 1 else 0)
  {
    BucketsAppend(recs, rec);
    hide Buckets, IsError, Bump;
    var u, before := rec.upstream, Buckets(recs);
    var b := if u in before then before[u] else EMPTY;
    var e := Added(b, rec).errors;
    assert BucketTotals(recs + [rec]) == BucketTotals(recs)[u := b.total + 1];
    assert BucketErrors(recs + [rec]) == BucketErrors(recs)[u := e];
    SumUpdate(BucketTotals(recs), u, b.total + 1);
    SumUpdate(BucketErrors(recs), u, e);
  }

  lemma {:induction false} UpstreamsSum(recs: seq<Record>)
    ensures MapSum(BucketTotals(recs)) == |recs| && MapSum(BucketErrors(recs)) == Errors(recs)
  {
    if recs == [] {
      NoBuckets();
    } else {
      hide BucketTotals, BucketErrors, IsError, Errors;
      var m := |recs| - 1;
      assert recs == recs[..m] + [recs[m]];
      UpstreamsSum(recs[..m]);
      UpstreamsAppend(recs[..m], recs[m]);
      WholeAppend(recs[..m], recs[m]);
    }
  }

  lemma NoBuckets()
    ensures BucketTotals([]) == map[] && BucketErrors([]) == map[] && Errors([]) == 0
  {
    EmptyTally();
  }

  /**
   For every buffer and cutoff: the report's total and errors are the sums over the
   upstreams, each upstream's total is the sum of its status counts, and the percentiles
   are ordered.
   */
  lemma ReportAgrees(recs: seq<Record>)
    ensures var r := ReportOf(recs);
      && r.total == MapSum(Totals(r.perUpstream)) && r.errors == MapSum(ErrorCounts(r.perUpstream))
      && r.p50 <= r.p95 <= r.p99
      && forall u | u in r.perUpstream ::
           && r.perUpstream[u].total == MapSum(r.perUpstream[u].byStatus)
           && r.perUpstream[u].p50 <= r.perUpstream[u].p95 <= r.perUpstream[u].p99
  {
    var r, t := ReportOf(recs), TallyOf(recs);
    UpstreamsSum(recs);
    hide Percentile, Errors, Of, Upstreams, StatusCounts;
    assert Totals(r.perUpstream) == BucketTotals(recs);
    assert ErrorCounts(r.perUpstream) == BucketErrors(recs);
    PercentileOfValue(t.latencies, 50, 95);
    PercentileOfValue(t.latencies, 95, 99);
    forall u | u in r.perUpstream
      ensures r.perUpstream[u].total == MapSum(r.perUpstream[u].byStatus)
      ensures r.perUpstream[u].p50 <= r.perUpstream[u].p95 <= r.perUpstream[u].p99
    {
      StatusesSum(Of(recs, u));
      PercentileOfValue(Latencies(Of(recs, u)), 50, 95);
      PercentileOfValue(Latencies(Of(recs, u)), 95, 99);
    }
  }

  /** Errors are the records with one of these three statuses. */
  lemma {:induction false} ErrorsAre(recs: seq<Record>)
    ensures Errors(recs) == WithStatus(recs, "error") + WithStatus(recs, "timeout") + WithStatus(recs, "denied")
  {
    if recs != [] { ErrorsAre(recs[..|recs| - 1]); }
  }

  /** How many records of the first `n` satisfy this. */
  ghost function HowMany(buffer: seq<Record>, n: nat, p: Record -> bool): (k: nat)
    requires n <= |buffer|
  {
    if n == 0 then 0 else HowMany(buffer, n - 1, p) + if p(buffer[n - 1]) then 1 else 0
  }

  lemma {:induction false} WindowCounts(buffer: seq<Record>, cutoff: real, n: nat, status: string)
    requires n <= |buffer|
    ensures |InWindow(buffer, cutoff, n)| == HowMany(buffer, n, (r: Record) => r.timestamp >= cutoff)
    ensures WithStatus(InWindow(buffer, cutoff, n), status)
      == HowMany(buffer, n, (r: Record) => r.timestamp >= cutoff && r.status == status)
  {
    if n > 0 {
      WindowCounts(buffer, cutoff, n - 1, status);
      StatusAppend(InWindow(buffer, cutoff, n - 1), buffer[n - 1], status);
    }
  }

  /** The totals of a report, counted on the buffer itself. */
  lemma ReportCounts(buffer: seq<Record>, cutoff: real)
    ensures var r := ReportOf(InWindow(buffer, cutoff, |buffer|));
      && r.total == HowMany(buffer, |buffer|, (r: Record) => r.timestamp >= cutoff)
      && r.errors ==
           HowMany(buffer, |buffer|, (r: Record) => r.timestamp >= cutoff && r.status == "error")
           + HowMany(buffer, |buffer|, (r: Record) => r.timestamp >= cutoff && r.status == "timeout")
           + HowMany(buffer, |buffer|, (r: Record) => r.timestamp >= cutoff && r.status == "denied")
  {
    hide HowMany, InWindow, WithStatus, Errors, Percentile, Buckets;
    WindowCounts(buffer, cutoff, |buffer|, "error");
    WindowCounts(buffer, cutoff, |buffer|, "timeout");
    WindowCounts(buffer, cutoff, |buffer|, "denied");
    ErrorsAre(InWindow(buffer, cutoff, |buffer|));
  }

  lemma {:induction false} InWindowMembers(buffer: seq<Record>, cutoff: real, n: nat)
    requires n <= |buffer|
    ensures forall r :: r in InWindow(buffer, cutoff, n) <==> r in buffer[..n] && r.timestamp >= cutoff
  {
    if n > 0 {
      InWindowMembers(buffer, cutoff, n - 1);
      assert buffer[..n] == buffer[..n - 1] + [buffer[n - 1]];
    }
  }

  lemma {:induction false} OfMembers(recs: seq<Record>, u: string)
    ensures forall r :: r in Of(recs, u) <==> r in recs && r.upstream == u
  {
    if recs != [] {
      var m := |recs| - 1;
      OfMembers(recs[..m], u);
      assert recs == recs[..m] + [recs[m]];
    }
  }

  /** Some of these records had this latency, once rounded. */
  ghost predicate SomeLatency(recs: seq<Record>, value: real) {
    exists r :: r in recs && value == RoundTo3(r.latency)
  }

  lemma PercentileSeen(recs: seq<Record>, p: int)
    requires recs != []
    ensures SomeLatency(recs, Percentile(Latencies(recs), p))
  {
    hide Percentile, RoundTo3;
    var values := Latencies(recs);
    PercentileOfValue(values, p, p);
    var i :| 0 <= i < |values| && Percentile(values, p) == RoundTo3(values[i]);
    assert recs[i] in recs;
  }

  /**
   Every percentile that is reported, for the whole window or for an upstream, is the
   rounding of the latency of a record of the buffer that is in the window and of that upstream.
   */
  lemma ReportedLatenciesSeen(buffer: seq<Record>, cutoff: real)
    ensures var recs := InWindow(buffer, cutoff, |buffer|); var r := ReportOf(recs);
      && (r.total > 0 ==> SomeLatency(recs, r.p50) && SomeLatency(recs, r.p95) && SomeLatency(recs, r.p99))
      && (forall u | u in r.perUpstream ::
            && Of(recs, u) != []
            && SomeLatency(Of(recs, u), r.perUpstream[u].p50)
            && SomeLatency(Of(recs, u), r.perUpstream[u].p95)
            && SomeLatency(Of(recs, u), r.perUpstream[u].p99))
      && (forall x :: x in recs <==> x in buffer && x.timestamp >= cutoff)
      && (forall u, x :: x in Of(recs, u) <==> x in recs && x.upstream == u)
  {
    var recs := InWindow(buffer, cutoff, |buffer|);
    var r := ReportOf(recs);
    InWindowMembers(buffer, cutoff, |buffer|);
    assert buffer[..|buffer|] == buffer;
    forall u { OfMembers(recs, u); }
    hide InWindow, Of, Percentile, SomeLatency, Errors, StatusCounts;
    if r.total > 0 {
      PercentileSeen(recs, 50);
      PercentileSeen(recs, 95);
      PercentileSeen(recs, 99);
    }
    forall u | u in r.perUpstream
      ensures Of(recs, u) != [] && SomeLatency(Of(recs, u), r.perUpstream[u].p50)
      ensures SomeLatency(Of(recs, u), r.perUpstream[u].p95) && SomeLatency(Of(recs, u), r.perUpstream[u].p99)
    {
      var x :| x in recs && x.upstream == u;
      assert x in Of(recs, u);
      PercentileSeen(Of(recs, u), 50);
      PercentileSeen(Of(recs, u), 95);
      PercentileSeen(Of(recs, u), 99);
    }
  }
}
