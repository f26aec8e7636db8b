/** Call durations per method: lifetime totals, a bounded window of samples, and percentiles of the window. */
module LatencyCollectors {

  /** Durations are in milliseconds; rounding is not modelled. */
  type Duration = real

  datatype Retention = KeepAll | RingBuffer(maxSamplesPerMethod: int)

  datatype MethodLatency = MethodLatency(name: string, count: nat, totalMs: Duration, maxMs: Duration, p50Ms: Duration,
    p99Ms: Duration)

  function Sum(durations: seq<Duration>): Duration {
    if durations == [] then 0.0 else Sum(durations[..|durations| - 1]) + durations[|durations| - 1]
  }

  /** The longest of `durations`, 0 when none exceeds it. */
  function Longest(durations: seq<Duration>): Duration {
    if durations == [] then 0.0
    else
      var (front, last) := (Longest(durations[..|durations| - 1]), durations[|durations| - 1]);
      if last > front then last else front
  }

  /** The maximum starts at 0, so it is the longest duration once one is not negative. */
  lemma {:induction false} LongestIsMaximum(durations: seq<Duration>)
    ensures forall d | d in durations :: d <= Longest(durations)
    ensures Longest(durations) == 0.0 || Longest(durations) in durations
    ensures Longest(durations) >= 0.0
  {
    if durations != [] {
      LongestIsMaximum(durations[..|durations| - 1]);
      assert durations == durations[..|durations| - 1] + [durations[|durations| - 1]];
    }
  }

  // Percentiles.

  predicate Ascending(s: seq<Duration>) {
    forall i, j | 0 <= i < j < |s| :: s[i] <= s[j]
  }

  function Insert(s: seq<Duration>, d: Duration): (r: seq<Duration>)
    ensures multiset(r) == multiset(s) + multiset{d} && r != []
  {
    if s == [] then [d]
    else if d <= s[0] then [d] + s
    else
      assert s == [s[0]] + s[1..];
      [s[0]] + Insert(s[1..], d)
  }

  lemma AscendingCons(d: Duration, s: seq<Duration>)
    requires Ascending(s) && (s == [] || d <= s[0])
    ensures Ascending([d] + s)
  {
  }

  lemma {:induction false} InsertAscends(s: seq<Duration>, d: Duration)
    requires Ascending(s)
    ensures Ascending(Insert(s, d)) && Insert(s, d)[0] == if s == [] || d <= s[0] then d else s[0]
  {
    if s != [] {
      if d <= s[0] {
        AscendingCons(d, s);
      } else {
        InsertAscends(s[1..], d);
        AscendingCons(s[0], Insert(s[1..], d));
      }
    }
  }

  function Sorted(s: seq<Duration>): (r: seq<Duration>)
    ensures multiset(r) == multiset(s) && |r| == |s|
    ensures Ascending(r)
  {
    if s == [] then []
    else
      var front := Sorted(s[..|s| - 1]);
      assert s == s[..|s| - 1] + [s[|s| - 1]];
      InsertAscends(front, s[|s| - 1]);
      var r := Insert(front, s[|s| - 1]);
      assert |multiset(r)| == |multiset(s)|;
      r
  }

  lemma SortedHolds(s: seq<Duration>, i: nat)
    requires i < |s|
    ensures Sorted(s)[i] in s
  {
    assert Sorted(s)[i] in multiset(s);
  }

  /** The least rank at or above `percent` hundredths of `n`. */
  function Rank(percent: nat, n: nat): nat {
    (percent * n + 99) / 100
  }

  /** Nearest-rank percentile, 0 of no samples. */
  function Percentile(sortedAscending: seq<Duration>, percent: nat): Duration {
    if sortedAscending == [] then 0.0
    else sortedAscending[Clamped(Rank(percent, |sortedAscending|) - 1, |sortedAscending|)]
  }

  function Clamped(at: int, n: nat): (i: nat)
    requires n > 0
    ensures i < n && (0 <= at < n ==> i == at)
  {
    if n - 1 < at then n - 1 else if at < 0 then 0 else at
  }

  function AtMost(s: seq<Duration>, d: Duration): nat {
    if s == [] then 0 else AtMost(s[..|s| - 1], d) + if s[|s| - 1] <= d then 1 else 0
  }

  function Below(s: seq<Duration>, d: Duration): nat {
    if s == [] then 0 else Below(s[..|s| - 1], d) + if s[|s| - 1] < d then 1 else 0
  }

  lemma {:induction false} CountInOrder(s: seq<Duration>, k: nat)
    requires Ascending(s) && k < |s|
    ensures AtMost(s, s[k]) >= k + 1 && Below(s, s[k]) <= k
  {
    var front := s[..|s| - 1];
    if k < |s| - 1 {
      CountInOrder(front, k);
    } else {
      AllAtMost(front, s[k]);
      BelowBounded(front, s[k]);
    }
  }

  lemma {:induction false} AllAtMost(s: seq<Duration>, d: Duration)
    requires forall i | 0 <= i < |s| :: s[i] <= d
    ensures AtMost(s, d) == |s|
  {
    if s != [] {
      AllAtMost(s[..|s| - 1], d);
    }
  }

  lemma {:induction false} BelowBounded(s: seq<Duration>, d: Duration)
    ensures Below(s, d) <= |s|
  {
    if s != [] {
      BelowBounded(s[..|s| - 1], d);
    }
  }

  /** A percentile is one of the samples, the least that `percent` hundredths of them do not exceed. */
  lemma PercentileIsNearestRank(samples: seq<Duration>, percent: nat)
    requires samples != [] && 0 < percent <= 100
    ensures var p := Percentile(Sorted(samples), percent);
            && p in samples
            && 100 * AtMost(Sorted(samples), p) >= percent * |Sorted(samples)| > 100 * Below(Sorted(samples), p)
  {
    PercentileHolds(samples, percent);
    PercentileCounts(Sorted(samples), percent);
  }

  lemma PercentileHolds(samples: seq<Duration>, percent: nat)
    requires samples != []
    ensures Percentile(Sorted(samples), percent) in samples
  {
    SortedHolds(samples, Clamped(Rank(percent, |samples|) - 1, |samples|));
  }

  lemma PercentileCounts(s: seq<Duration>, percent: nat)
    requires Ascending(s) && s != [] && 0 < percent <= 100
    ensures 100 * AtMost(s, Percentile(s, percent)) >= percent * |s| > 100 * Below(s, Percentile(s, percent))
  {
    var rank := RankOf(percent, s, |s|);
    RankCounts(s, rank, percent * |s|);
  }

  lemma RankOf(percent: nat, s: seq<Duration>, n: nat) returns (rank: nat)
    requires s != [] && 0 < percent <= 100 && n == |s|
    ensures 1 <= rank <= |s| && Percentile(s, percent) == s[rank - 1]
    ensures 100 * rank >= percent * n > 100 * (rank - 1)
  {
    rank := Rank(percent, n);
    RankInRange(percent, n);
  }

  lemma RankCounts(s: seq<Duration>, rank: nat, share: nat)
    requires Ascending(s) && 1 <= rank <= |s| && 100 * rank >= share > 100 * (rank - 1)
    ensures 100 * AtMost(s, s[rank - 1]) >= share && 100 * Below(s, s[rank - 1]) < share
  {
    CountInOrder(s, rank - 1);
  }

  lemma RankInRange(percent: nat, n: nat)
    requires n > 0 && 0 < percent <= 100
    ensures 1 <= Rank(percent, n) <= n
    ensures 100 * Rank(percent, n) >= percent * n > 100 * (Rank(percent, n) - 1)
  {
    assert 0 < percent * n <= 100 * n;
  }

  lemma RankGrows(low: nat, high: nat, n: nat)
    requires low <= high
    ensures Rank(low, n) <= Rank(high, n)
  {
    assert low * n <= high * n;
  }

  lemma PercentileGrows(s: seq<Duration>, low: nat, high: nat)
    requires Ascending(s) && s != [] && low <= high
    ensures Percentile(s, low) <= Percentile(s, high)
  {
    RankGrows(low, high, |s|);
    ClampedGrows(Rank(low, |s|) - 1, Rank(high, |s|) - 1, |s|);
  }

  lemma ClampedGrows(i: int, j: int, n: nat)
    requires i <= j && n > 0
    ensures Clamped(i, n) <= Clamped(j, n)
  {
  }

  /** The percentiles of a window are ordered, and none exceeds the longest duration of any window it is part of. */
  lemma PercentilesOrdered(samples: seq<Duration>, durations: seq<Duration>, low: nat, high: nat)
    requires low <= high && forall d | d in samples :: d in durations
    ensures Percentile(Sorted(samples), low) <= Percentile(Sorted(samples), high) <= Longest(durations)
  {
    LongestIsMaximum(durations);
    if samples != [] {
      PercentileGrows(Sorted(samples), low, high);
      PercentileHolds(samples, high);
    }
  }

  // What a tally holds of the calls it recorded.

  /** The retained samples, a full buffer overwritten from `writeIndex` on, and the totals of all calls. */
  datatype Tally = Tally(samples: seq<Duration>, writeIndex: nat, count: nat, totalMs: Duration, maxMs: Duration)

  const EMPTY := Tally([], 0, 0, 0.0, 0.0)

  /** The slot after `at`, round the buffer of `n`. */
  function NextSlot(at: nat, n: int): nat {
    if at + 1 < n then at + 1 else 0
  }

  function Added(t: Tally, d: Duration, retention: Retention): Tally
    requires Allowed(retention)
  {
    var (count, totalMs, maxMs) := (t.count + 1, t.totalMs + d, if d > t.maxMs then d else t.maxMs);
    if retention.RingBuffer? && |t.samples| >= retention.maxSamplesPerMethod && t.writeIndex < |t.samples| then
      Tally(t.samples[t.writeIndex := d], NextSlot(t.writeIndex, retention.maxSamplesPerMethod), count, totalMs, maxMs)
    else
      Tally(t.samples + [d], t.writeIndex, count, totalMs, maxMs)
  }

  /** The tally of a method whose calls took `history`, in order. */
  function TallyOf(history: seq<Duration>, retention: Retention): Tally
    requires Allowed(retention)
  {
    if history == [] then EMPTY
    else Added(TallyOf(history[..|history| - 1], retention), history[|history| - 1], retention)
  }

  predicate Allowed(retention: Retention) {
    retention.RingBuffer? ==> retention.maxSamplesPerMethod >= 1
  }

  /** What a buffer holds of a history, oldest first: its last samples. */
  function Window(history: seq<Duration>, retention: Retention): seq<Duration> {
    match retention
    case RingBuffer(n) => if 0 <= n < |history| then history[|history| - n..] else history
    case KeepAll => history
  }

  function Rotated(samples: seq<Duration>, at: nat): seq<Duration>
    requires at <= |samples|
  {
    samples[at..] + samples[..at]
  }

  /** Overwriting the oldest sample of a full buffer drops it from the front and adds the new one behind. */
  lemma Overwrite(samples: seq<Duration>, at: nat, d: Duration)
    requires at < |samples|
    ensures var next := NextSlot(at, |samples|);
            next < |samples| && Rotated(samples[at := d], next) == Rotated(samples, at)[1..] + [d]
  {
    var after := samples[at := d];
    if at + 1 < |samples| {
      assert after[at + 1..] == samples[at + 1..] && after[..at + 1] == samples[..at] + [d];
    } else {
      assert after == samples[..at] + [d];
    }
  }

  lemma WindowGrows(history: seq<Duration>, d: Duration, retention: Retention)
    requires retention.RingBuffer? ==> retention.maxSamplesPerMethod >= 1
    ensures Window(history + [d], retention)
         == (if retention.RingBuffer? && |history| >= retention.maxSamplesPerMethod then Window(history, retention)[1..]
           else Window(history, retention)) + [d]
  {
  }

  lemma TotalsGrow(history: seq<Duration>, d: Duration)
    ensures Sum(history + [d]) == Sum(history) + d
    ensures Longest(history + [d]) == if d > Longest(history) then d else Longest(history)
  {
    assert (history + [d])[..|history|] == history;
  }

  /** The samples are the window, rotated at the write index; the totals cover all calls. */
  predicate Holds(t: Tally, history: seq<Duration>, retention: Retention) {
    && (t.writeIndex < |t.samples| || t.writeIndex == 0) && (|t.samples| == |history| ==> t.writeIndex == 0)
    && Rotated(t.samples, t.writeIndex) == Window(history, retention)
    && t.count == |history| && t.totalMs == Sum(history) && t.maxMs == Longest(history)
  }

  lemma AddedHolds(t: Tally, history: seq<Duration>, d: Duration, retention: Retention)
    requires Allowed(retention) && Holds(t, history, retention)
    ensures Holds(Added(t, d, retention), history + [d], retention)
  {
    TotalsGrow(history, d);
    assert |Rotated(t.samples, t.writeIndex)| == |t.samples|;
    if retention.RingBuffer? && |t.samples| >= retention.maxSamplesPerMethod {
      assert t.samples != [];
      AddedOver(t.samples, t.writeIndex, history, d, retention);
    } else {
      assert |t.samples| == |history|;
      AddedBehind(t.samples, history, d, retention);
    }
  }

  lemma AddedOver(samples: seq<Duration>, at: nat, history: seq<Duration>, d: Duration, retention: Retention)
    requires Allowed(retention) && retention.RingBuffer? && |samples| >= retention.maxSamplesPerMethod
    requires at < |samples| && Rotated(samples, at) == Window(history, retention)
    ensures var next := NextSlot(at, retention.maxSamplesPerMethod);
            |samples| == retention.maxSamplesPerMethod && next < |samples| && |samples| <= |history|
            && Rotated(samples[at := d], next) == Window(history + [d], retention)
  {
    assert |Rotated(samples, at)| == |samples|;
    WindowGrows(history, d, retention);
    Overwrite(samples, at, d);
  }

  lemma AddedBehind(samples: seq<Duration>, history: seq<Duration>, d: Duration, retention: Retention)
    requires Allowed(retention) && (retention.RingBuffer? ==> |samples| < retention.maxSamplesPerMethod)
    requires Rotated(samples, 0) == Window(history, retention)
    ensures |samples| == |history| && Rotated(samples + [d], 0) == Window(history + [d], retention)
  {
    assert Rotated(samples + [d], 0) == samples + [d] && Rotated(samples, 0) == samples;
    WindowGrows(history, d, retention);
  }

  lemma {:induction false} TallyHoldsWindow(history: seq<Duration>, retention: Retention)
    requires Allowed(retention)
    ensures Holds(TallyOf(history, retention), history, retention)
  {
    if history != [] {
      var (front, d) := (history[..|history| - 1], history[|history| - 1]);
      assert history == front + [d];
      TallyHoldsWindow(front, retention);
      GrownHolds(front, d, retention);
    }
  }

  lemma GrownHolds(history: seq<Duration>, d: Duration, retention: Retention)
    requires Allowed(retention) && Holds(TallyOf(history, retention), history, retention)
    ensures Holds(TallyOf(history + [d], retention), history + [d], retention)
  {
    AddedHolds(TallyOf(history, retention), history, d, retention);
    TallyGrows(history, d, retention);
  }

  // The report.

  /** The report row of a method called `history` times. */
  function Row(name: string, history: seq<Duration>, retention: Retention): MethodLatency {
    var sorted := Sorted(Window(history, retention));
    MethodLatency(name, |history|, Sum(history), Longest(history), Percentile(sorted, 50), Percentile(sorted, 99))
  }

  /** The row the collector makes of a tally. */
  function RowOf(name: string, t: Tally): MethodLatency {
    MethodLatency(name, t.count, t.totalMs, t.maxMs, Percentile(Sorted(t.samples), 50),
      Percentile(Sorted(t.samples), 99))
  }

  /** A row covers all calls in its totals, and the window in its percentiles. */
  lemma RowCoversHistory(name: string, history: seq<Duration>, retention: Retention)
    requires Allowed(retention)
    ensures RowOf(name, TallyOf(history, retention)) == Row(name, history, retention)
  {
    var t := TallyOf(history, retention);
    TallyHoldsWindow(history, retention);
    SortedRotated(t.samples, t.writeIndex);
  }

  /** Whatever was recorded, a row's percentiles are in order and no more than its maximum. */
  lemma RowsOrdered(name: string, history: seq<Duration>, retention: Retention)
    ensures var row := Row(name, history, retention); row.p50Ms <= row.p99Ms <= row.maxMs
  {
    forall d | d in Window(history, retention) ensures d in history {
    }
    PercentilesOrdered(Window(history, retention), history, 50, 99);
  }

  /** Sorting forgets in which order the buffer stands. */
  lemma {:induction false} SortedRotated(samples: seq<Duration>, at: nat)
    requires at <= |samples|
    ensures Sorted(Rotated(samples, at)) == Sorted(samples)
  {
    assert samples == samples[..at] + samples[at..];
    assert multiset(Rotated(samples, at)) == multiset(samples);
    SortedUnique(Sorted(Rotated(samples, at)), Sorted(samples));
  }

  lemma {:induction false} SortedUnique(s: seq<Duration>, t: seq<Duration>)
    requires Ascending(s) && Ascending(t) && multiset(s) == multiset(t)
    ensures s == t
  {
    assert |multiset(s)| == |s| && |multiset(t)| == |t|;
    if s != [] {
      LeastFirst(s, t);
      LeastFirst(t, s);
      assert s == [s[0]] + s[1..] && t == [t[0]] + t[1..];
      assert multiset(s[1..]) == multiset(s) - multiset{s[0]} && multiset(t[1..]) == multiset(t) - multiset{t[0]};
      SortedUnique(s[1..], t[1..]);
    }
  }

  lemma LeastFirst(s: seq<Duration>, t: seq<Duration>)
    requires Ascending(s) && s != [] && t != [] && multiset(s) == multiset(t)
    ensures s[0] <= t[0]
  {
    assert t[0] in multiset(t);
    assert t[0] in s;
  }

  /** The rows, in descending order of their totals. */
  predicate Descending(rows: seq<MethodLatency>) {
    forall i, j | 0 <= i < j < |rows| :: rows[i].totalMs >= rows[j].totalMs
  }

  function Placed(rows: seq<MethodLatency>, row: MethodLatency): (r: seq<MethodLatency>)
    ensures multiset(r) == multiset(rows) + multiset{row}
  {
    if rows == [] || row.totalMs > rows[0].totalMs then [row] + rows
    else
      assert rows == [rows[0]] + rows[1..];
      [rows[0]] + Placed(rows[1..], row)
  }

  lemma {:induction false} PlacedDescends(rows: seq<MethodLatency>, row: MethodLatency)
    requires Descending(rows)
    ensures Descending(Placed(rows, row))
    ensures Placed(rows, row)[0] == if rows == [] || row.totalMs > rows[0].totalMs then row else rows[0]
  {
    if rows == [] || row.totalMs > rows[0].totalMs {
      DescendingCons(row, rows);
    } else {
      PlacedDescends(rows[1..], row);
      DescendingCons(rows[0], Placed(rows[1..], row));
    }
  }

  lemma DescendingCons(row: MethodLatency, rows: seq<MethodLatency>)
    requires Descending(rows) && (rows == [] || row.totalMs >= rows[0].totalMs)
    ensures Descending([row] + rows)
  {
  }

  lemma WrapsAround(at: nat, n: int)
    requires at < n
    ensures (at + 1) % n == NextSlot(at, n)
  {
  }

  predicate Writable(t: Tally, retention: Retention) {
    (t.writeIndex < |t.samples| || (t.samples == [] && t.writeIndex == 0))
      && (retention.RingBuffer? ==> |t.samples| <= retention.maxSamplesPerMethod)
  }

  function ViewOr(views: map<string, Tally>, name: string): Tally {
    if name in views then views[name] else EMPTY
  }

  function ByTotal(rows: seq<MethodLatency>): (r: seq<MethodLatency>)
    ensures multiset(r) == multiset(rows) && Descending(r)
  {
    if rows == [] then []
    else
      var front := ByTotal(rows[..|rows| - 1]);
      assert rows == rows[..|rows| - 1] + [rows[|rows| - 1]];
      PlacedDescends(front, rows[|rows| - 1]);
      Placed(front, rows[|rows| - 1])
  }

  class MethodTally {
    ghost const name: string
    var samples: seq<Duration>
    var writeIndex: nat
    var count: nat
    var totalMs: Duration
    var maxMs: Duration

    ghost function View(): Tally
      reads this
    {
      Tally(samples, writeIndex, count, totalMs, maxMs)
    }

    constructor (ghost name: string)
      ensures View() == EMPTY && this.name == name
    {
      this.name := name;
      samples, writeIndex, count, totalMs, maxMs := [], 0, 0, 0.0, 0.0;
    }

    method Add(durationMs: Duration, retention: Retention)
      requires Allowed(retention) && Writable(View(), retention)
      modifies this
      ensures View() == Added(old(View()), durationMs, retention) && Writable(View(), retention)
    {
      count := count + 1;
      totalMs := totalMs + durationMs;
      if durationMs > maxMs {
        maxMs := durationMs;
      }
      if retention.RingBuffer? && |samples| >= retention.maxSamplesPerMethod {
        samples := samples[writeIndex := durationMs];
        WrapsAround(writeIndex, retention.maxSamplesPerMethod);
        writeIndex := (writeIndex + 1) % retention.maxSamplesPerMethod;
      } else {
        samples := samples + [durationMs];
      }
    }
  }

  /** One recorded call. */
  datatype Call = Call(name: string, durationMs: Duration)

  function Recorded(tallies: map<string, Tally>, call: Call, retention: Retention): map<string, Tally>
    requires Allowed(retention)
  {
    tallies[call.name := Added(ViewOr(tallies, call.name), call.durationMs, retention)]
  }

  /** The tallies after `calls` were recorded, from an empty window on. */
  function TalliesOf(calls: seq<Call>, retention: Retention): map<string, Tally>
    requires Allowed(retention)
  {
    if calls == [] then map[] else Recorded(TalliesOf(calls[..|calls| - 1], retention), calls[|calls| - 1], retention)
  }

  function DurationsOf(calls: seq<Call>, name: string): seq<Duration> {
    if calls == [] then []
    else
      var (front, last) := (DurationsOf(calls[..|calls| - 1], name), calls[|calls| - 1]);
      if last.name == name then front + [last.durationMs] else front
  }

  lemma TallyGrows(history: seq<Duration>, d: Duration, retention: Retention)
    requires Allowed(retention)
    ensures TallyOf(history + [d], retention) == Added(TallyOf(history, retention), d, retention)
  {
    assert (history + [d])[..|history|] == history;
  }

  /** Each tally is that of its own method's calls, and a method never called has none. */
  lemma {:induction false} TalliesArePerMethod(calls: seq<Call>, name: string, retention: Retention)
    requires Allowed(retention)
    ensures name in TalliesOf(calls, retention) <==> DurationsOf(calls, name) != []
    ensures ViewOr(TalliesOf(calls, retention), name) == TallyOf(DurationsOf(calls, name), retention)
  {
    if calls != [] {
      var (front, last) := (calls[..|calls| - 1], calls[|calls| - 1]);
      TalliesArePerMethod(front, name, retention);
      var tallies := TalliesOf(front, retention);
      assert TalliesOf(calls, retention) == Recorded(tallies, last, retention);
      if last.name == name {
        assert ViewOr(Recorded(tallies, last, retention), name)
            == Added(ViewOr(tallies, name), last.durationMs, retention);
        TallyGrows(DurationsOf(front, name), last.durationMs, retention);
      } else {
        assert ViewOr(Recorded(tallies, last, retention), name) == ViewOr(tallies, name);
      }
    }
  }

  /**
   * Every report row, after any calls, has the totals of all of its method's calls and the percentiles of their window.
   */
  lemma ReportCoversCalls(calls: seq<Call>, name: string, retention: Retention)
    requires Allowed(retention) && DurationsOf(calls, name) != []
    ensures name in TalliesOf(calls, retention)
    ensures RowOf(name, TalliesOf(calls, retention)[name]) == Row(name, DurationsOf(calls, name), retention)
  {
    TalliesArePerMethod(calls, name, retention);
    RowCoversHistory(name, DurationsOf(calls, name), retention);
  }

  lemma Overwritten(views: map<string, Tally>, all: map<string, Tally>, name: string, t: Tally)
    requires all == views || all == views[name := EMPTY]
    ensures all[name := t] == views[name := t]
  {
  }

  class LatencyCollector {
    const retention: Retention
    var durations: map<string, MethodTally>
    var windowStart: Duration

    ghost predicate Named()
      reads this`durations, durations.Values
    {
      forall m | m in durations :: durations[m].name == m
    }

    ghost function Views(): map<string, Tally>
      reads this`durations, durations.Values
    {
      map m | m in durations :: durations[m].View()
    }

    ghost predicate Valid()
      reads this, durations.Values
    {
      Allowed(retention) && Named() && forall m | m in durations :: Writable(durations[m].View(), retention)
    }

    constructor (retention: Retention, now: Duration)
      requires Allowed(retention)
      ensures Valid() && this.retention == retention && Views() == map[] && windowStart == now
    {
      this.retention, durations, windowStart := retention, map[], now;
    }

    /** A collector, `null` for a buffer that would hold nothing, which is refused. */
    static method Create(retention: Retention, now: Duration) returns (collector: LatencyCollector?)
      ensures collector == null <==> retention.RingBuffer? && retention.maxSamplesPerMethod < 1
      ensures collector != null
          ==> fresh(collector) && collector.Valid() && collector.retention == retention && collector.Views() == map[]
    {
      if retention.RingBuffer? && retention.maxSamplesPerMethod < 1 {
        return null;
      }
      collector := new LatencyCollector(retention, now);
    }

    /** The tally of `name`, made when there is none. */
    method TallyFor(name: string) returns (tally: MethodTally)
      requires Valid()
      modifies this`durations
      ensures Valid() && fresh(durations.Values - old(durations.Values))
      ensures name in durations && tally == durations[name] && tally.View() == ViewOr(old(Views()), name)
      ensures Views() == if name in old(durations) then old(Views()) else old(Views())[name := EMPTY]
    {
      if name !in durations {
        tally := new MethodTally(name);
        durations := durations[name := tally];
      } else {
        tally := durations[name];
      }
    }

    /** One tally grown is one view changed. */
    twostate lemma Grown(name: string)
      requires old(Valid()) && durations == old(durations) && name in durations
      requires forall m | m in durations && m != name :: unchanged(durations[m])
      requires Writable(durations[name].View(), retention)
      ensures Valid() && Views() == old(Views())[name := durations[name].View()]
    {
      forall m | m in durations && m != name ensures durations[m].View() == old(durations[m].View()) {
      }
    }

    method Record(name: string, durationMs: Duration)
      requires Valid()
      modifies this`durations, durations.Values
      ensures Valid() && fresh(durations.Values - old(durations.Values))
      ensures Views() == Recorded(old(Views()), Call(name, durationMs), retention)
    {
      ghost var views := Views();
      var tally := TallyFor(name);
      ghost var all := Views();
      label L:
      tally.Add(durationMs, retention);
      Grown@L(name);
      Overwritten(views, all, name, tally.View());
    }

    /** One row for each method called, hottest first. */
    method Report(now: Duration) returns (windowMs: Duration, rows: seq<MethodLatency>)
      requires Valid()
      ensures windowMs == now - windowStart
      ensures Descending(rows)
      ensures forall row :: row in rows <==> row.name in Views() && row == RowOf(row.name, Views()[row.name])
      ensures |rows| == |durations|
    {
      windowMs := now - windowStart;
      var all: seq<MethodLatency>, todo := [], durations.Keys;
      while todo != {}
        invariant todo <= durations.Keys && |all| + |todo| == |durations|
        invariant forall row ::
                    row in all <==>
                      row.name in durations && row.name !in todo && row == RowOf(row.name, durations[row.name].View())
      {
        var name :| name in todo;
        var tally := durations[name];
        var sorted := Sorted(tally.samples);
        all := all
          + [MethodLatency(name, tally.count, tally.totalMs, tally.maxMs, Percentile(sorted, 50),
            Percentile(sorted, 99))];
        todo := todo - {name};
      }
      rows := ByTotal(all);
      forall row ensures row in rows <==> row in all {
        assert row in multiset(rows) <==> row in multiset(all);
      }
      assert |multiset(rows)| == |multiset(all)|;
    }

    method Reset(now: Duration)
      requires Valid()
      modifies this`durations, this`windowStart
      ensures Valid() && Views() == map[] && windowStart == now
    {
      durations, windowStart := map[], now;
    }
  }
}
