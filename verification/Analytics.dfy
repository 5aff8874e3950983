/**
 The bucket grid behind the analytics endpoints: window validation, the grid of
 bucket starts, and zero-filled series. The manager facade and the two providers
 each carry their own copy of the algorithm.
 */
module Analytics {
  import opened Basics

  datatype Bucket = Hourly | Daily

  function Step(b: Bucket): nat {
    match b
    case Hourly => HOUR
    case Daily => DAY
  }

  function MaxBuckets(b: Bucket): nat {
    match b
    case Hourly => 400
    case Daily => 366
  }

  function Name(b: Bucket): string {
    match b
    case Hourly => "hour"
    case Daily => "day"
  }

  /** The start of the UTC hour or day that contains the instant. */
  function Floor(at: Time, b: Bucket): Time {
    at - at % Step(b)
  }

  // ---------------------------------------------------------------------------
  // The grid
  // ---------------------------------------------------------------------------

  /** How many buckets it takes to reach `end` from the floored start. */
  function Count(start: Time, end: Time, b: Bucket): nat {
    if Floor(start, b) >= end then 0 else CeilDiv(end - Floor(start, b), Step(b))
  }

  function Starts(start: Time, end: Time, b: Bucket): seq<Time> {
    seq(Count(start, end, b), i => Floor(start, b) + i * Step(b))
  }

  lemma CountBoundary(start: Time, end: Time, b: Bucket, n: nat)
    ensures n < Count(start, end, b) <==> Floor(start, b) + n * Step(b) < end
  {
    var gap := end - Floor(start, b);
    if gap > 0 {
      CeilBoundary(gap, Step(b), n);
    }
  }

  lemma CeilBoundary(gap: nat, step: nat, n: nat)
    requires step > 0
    ensures n < CeilDiv(gap, step) <==> n * step < gap
  {
    var q := CeilDiv(gap, step);
    var r := (gap + step - 1) % step;
    assert gap + step - 1 == q * step + r;
    if n < q {
      assert (n + 1) * step <= q * step by { Scale(n + 1, q, step); }
      assert (n + 1) * step == n * step + step;
    } else {
      assert q * step <= n * step by { Scale(q, n, step); }
    }
  }

  lemma Scale(a: nat, b: nat, k: nat)
    requires a <= b
    ensures a * k <= b * k
  {}

  /** The providers' loop. */
  method BucketStarts(start: Time, end: Time, b: Bucket) returns (starts: seq<Time>)
    ensures starts == Starts(start, end, b)
  {
    starts := [];
    var cursor := Floor(start, b);
    CountBoundary(start, end, b, 0);
    while cursor < end
      invariant |starts| <= Count(start, end, b)
      invariant cursor == Floor(start, b) + |starts| * Step(b)
      invariant starts == Starts(start, end, b)[..|starts|]
      invariant cursor < end <==> |starts| < Count(start, end, b)
    {
      var n := |starts|;
      assert Starts(start, end, b)[n] == cursor;
      assert Starts(start, end, b)[..n + 1] == Starts(start, end, b)[..n] + [cursor];
      starts := starts + [cursor];
      cursor := cursor + Step(b);
      assert (n + 1) * Step(b) == n * Step(b) + Step(b);
      CountBoundary(start, end, b, n + 1);
    }
  }

  /** The manager's loop, which only counts. */
  method BucketCount(start: Time, end: Time, b: Bucket) returns (count: nat)
    ensures count == Count(start, end, b) == |Starts(start, end, b)|
  {
    count := 0;
    var cursor := Floor(start, b);
    CountBoundary(start, end, b, 0);
    while cursor < end
      invariant count <= Count(start, end, b)
      invariant cursor == Floor(start, b) + count * Step(b)
      invariant cursor < end <==> count < Count(start, end, b)
      decreases Count(start, end, b) - count
    {
      assert (count + 1) * Step(b) == count * Step(b) + Step(b);
      CountBoundary(start, end, b, count + 1);
      count := count + 1;
      cursor := cursor + Step(b);
    }
  }

  /**
   The grid: each start is aligned and before `end`, consecutive starts are one step
   apart, the first bucket holds `start` and the last one reaches `end`.
   */
  lemma GridShape(start: Time, end: Time, b: Bucket)
    requires start < end
    ensures var grid := Starts(start, end, b);
            && |grid| > 0 && grid[0] <= start < grid[0] + Step(b)
            && grid[|grid| - 1] < end <= grid[|grid| - 1] + Step(b)
            && (forall i :: 0 <= i < |grid| ==> Floor(grid[i], b) == grid[i])
            && (forall i :: 0 < i < |grid| ==> grid[i] == grid[i - 1] + Step(b))
  {
    var grid, step := Starts(start, end, b), Step(b);
    forall i | 0 <= i < |grid| ensures Floor(grid[i], b) == grid[i] {
      Aligned(start, step, i);
    }
    forall i | 0 < i < |grid| ensures grid[i] == grid[i - 1] + step {
      NextMultiple(i - 1, step);
    }
    CountBoundary(start, end, b, 0);
    var n := |grid| - 1;
    CountBoundary(start, end, b, n);
    CountBoundary(start, end, b, n + 1);
    NextMultiple(n, step);
  }

  lemma NextMultiple(n: nat, step: nat)
    ensures (n + 1) * step == n * step + step
  {}

  lemma Aligned(start: Time, step: nat, i: nat)
    requires step > 0
    ensures (start - start % step + i * step) % step == 0
  {
    var q := start / step;
    assert start - start % step == q * step;
    assert q * step + i * step == (q + i) * step;
    MultipleModulo(q + i, step);
  }

  lemma MultipleModulo(k: int, step: nat)
    requires step > 0
    ensures k * step % step == 0
  {
    var x := k * step;
    var d := k - x / step;
    assert x == step * (x / step) + x % step;
    assert step * d == x % step;
    if d != 0 {
      MultipleIsBig(d, step);
    }
  }

  lemma MultipleIsBig(d: int, step: nat)
    requires step > 0 && d != 0
    ensures !(0 <= step * d < step)
  {
    if d > 0 {
      Scale(1, d, step);
    } else {
      Scale(1, -d, step);
      assert -d * step == -(step * d);
    }
  }

  // ---------------------------------------------------------------------------
  // Window resolution
  // ---------------------------------------------------------------------------

  datatype Resolution = Accepted(start: Time, end: Time, bucket: Bucket) | Refused

  const MAX_WINDOW := 366 * DAY
  const MAX_HOUR_WINDOW := 31 * DAY
  const AUTO_LIMIT := 72 * HOUR

  predicate KnownBucket(bucket: Option<string>) {
    bucket == None || bucket.value == "hour" || bucket.value == "day" || bucket.value == "auto"
  }

  /** An omitted or `auto` bucket is daily beyond 72 hours. */
  function Granularity(bucket: Option<string>, span: Time): Bucket {
    if bucket == Some("hour") then Hourly
    else if bucket == Some("day") then Daily
    else if span > AUTO_LIMIT then Daily
    else Hourly
  }

  function Resolve(
    from: Option<Time>, to: Option<Time>, bucket: Option<string>, defaultHours: nat, now: Time): Resolution
  {
    var end := if to.Some? then to.value else now;
    var start := if from.Some? then from.value else end - defaultHours * HOUR;
    var b := Granularity(bucket, end - start);
    if start >= end || end - start > MAX_WINDOW || !KnownBucket(bucket) then Refused
    else if b == Hourly && end - start > MAX_HOUR_WINDOW then Refused
    else if Count(start, end, b) > MaxBuckets(b) then Refused
    else Accepted(start, end, b)
  }

  /** The manager facade: counts buckets without building the grid. */
  method ManagerWindow(from: Option<Time>, to: Option<Time>, bucket: Option<string>, defaultHours: nat, now: Time)
    returns (r: Resolution)
    ensures r == Resolve(from, to, bucket, defaultHours, now)
  {
    var end := if to.Some? then to.value else now;
    var start := if from.Some? then from.value else end - defaultHours * HOUR;
    if start >= end {
      return Refused;
    }
    var span := end - start;
    if span > MAX_WINDOW || !KnownBucket(bucket) {
      return Refused;
    }
    var b;
    if bucket == None || bucket.value == "auto" {
      b := if span > AUTO_LIMIT then Daily else Hourly;
    } else {
      b := if bucket.value == "hour" then Hourly else Daily;
    }
    if b == Hourly && span > MAX_HOUR_WINDOW {
      return Refused;
    }
    var count := BucketCount(start, end, b);
    if count > MaxBuckets(b) {
      return Refused;
    }
    r := Accepted(start, end, b);
  }

  /** The Core and Detection providers: a 24-hour default, and the grid is built to be measured. */
  method ProviderWindow(from: Option<Time>, to: Option<Time>, bucket: Option<string>, now: Time) returns (r: Resolution)
    ensures r == Resolve(from, to, bucket, 24, now)
  {
    var end := if to.Some? then to.value else now;
    var start := if from.Some? then from.value else end - 24 * HOUR;
    if start >= end || end - start > MAX_WINDOW || !KnownBucket(bucket) {
      return Refused;
    }
    var b := Granularity(bucket, end - start);
    if b == Hourly && end - start > MAX_HOUR_WINDOW {
      return Refused;
    }
    var grid := BucketStarts(start, end, b);
    r := if |grid| > MaxBuckets(b) then Refused else Accepted(start, end, b);
  }

  /** A window never outruns its buckets. */
  lemma SpanWithinBuckets(start: Time, end: Time, b: Bucket)
    requires start < end
    ensures end - start <= Count(start, end, b) * Step(b)
  {
    CountBoundary(start, end, b, Count(start, end, b));
  }

  /**
   For a known bucket name a window is accepted exactly when it is not empty and its
   grid fits the bucket limit: the 366-day and 31-day checks refuse nothing more. In
   particular an hourly window is limited to 400 hours, well short of 31 days.
   */
  lemma AcceptedExactlyWhen(from: Option<Time>, to: Option<Time>, bucket: Option<string>, defaultHours: nat, now: Time)
    requires KnownBucket(bucket)
    ensures var end := if to.Some? then to.value else now;
            var start := if from.Some? then from.value else end - defaultHours * HOUR;
            var b := Granularity(bucket, end - start);
            && (Resolve(from, to, bucket, defaultHours, now).Accepted? <==>
                  start < end && Count(start, end, b) <= MaxBuckets(b))
            && (Resolve(from, to, bucket, defaultHours, now).Accepted? && b == Hourly ==> end - start <= 400 * HOUR)
  {
    var end := if to.Some? then to.value else now;
    var start := if from.Some? then from.value else end - defaultHours * HOUR;
    var b := Granularity(bucket, end - start);
    if start < end {
      SpanWithinBuckets(start, end, b);
      if Count(start, end, b) <= MaxBuckets(b) {
        Scale(Count(start, end, b), MaxBuckets(b), Step(b));
      }
    }
  }

  /** The buckets reach the end: 400 hours from the start's own hour, or 366 days from its own day. */
  predicate Fits(start: Time, end: Time, b: Bucket) {
    end <= if b == Hourly then start - start % (3_600 * SECOND) + 400 * 3_600 * SECOND
           else start - start % (86_400 * SECOND) + 366 * 86_400 * SECOND
  }

  lemma FitsExactlyWhen(start: Time, end: Time, b: Bucket)
    ensures Count(start, end, b) <= MaxBuckets(b) <==> Fits(start, end, b)
  {
    CountBoundary(start, end, b, MaxBuckets(b));
  }

  /** A window with this many hours, or days, is accepted as it is or refused. */
  lemma ResolvedWindow(from: Option<Time>, to: Option<Time>, bucket: Option<string>, defaultHours: nat, now: Time)
    requires KnownBucket(bucket)
    ensures var end := if to.Some? then to.value else now;
            var start := if from.Some? then from.value else end - defaultHours * 3_600 * SECOND;
            var b := Granularity(bucket, end - start);
            Resolve(from, to, bucket, defaultHours, now) ==
            if start < end && Fits(start, end, b) then Accepted(start, end, b) else Refused
  {
    CountedWindow(from, to, bucket, defaultHours, now);
    var end := if to.Some? then to.value else now;
    var start := if from.Some? then from.value else end - defaultHours * HOUR;
    FitsExactlyWhen(start, end, Granularity(bucket, end - start));
  }

  lemma CountedWindow(from: Option<Time>, to: Option<Time>, bucket: Option<string>, defaultHours: nat, now: Time)
    requires KnownBucket(bucket)
    ensures var end := if to.Some? then to.value else now;
            var start := if from.Some? then from.value else end - defaultHours * HOUR;
            var b := Granularity(bucket, end - start);
            Resolve(from, to, bucket, defaultHours, now) ==
            if start < end && Count(start, end, b) <= MaxBuckets(b) then Accepted(start, end, b) else Refused
  {
    AcceptedExactlyWhen(from, to, bucket, defaultHours, now);
  }

  /**
   Which windows are accepted, and with which buckets: by the hour and by the day as far as
   they fit; left open, by the hour up to a span of 72 hours, which always fits, and by the
   day beyond. Any other bucket name is refused.
   */
  lemma WindowMeaning(from: Option<Time>, to: Option<Time>, bucket: Option<string>, defaultHours: nat, now: Time)
    ensures var r := Resolve(from, to, bucket, defaultHours, now);
            var end := if to.Some? then to.value else now;
            var start := if from.Some? then from.value else end - defaultHours * 3_600 * SECOND;
            var hours := if start < end && Fits(start, end, Hourly) then Accepted(start, end, Hourly) else Refused;
            var days := if start < end && Fits(start, end, Daily) then Accepted(start, end, Daily) else Refused;
            if bucket == Some("hour") then r == hours
            else if bucket == Some("day") then r == days
            else if bucket == None || bucket == Some("auto") then
              r == if start < end <= start + 72 * 3_600 * SECOND then Accepted(start, end, Hourly) else days
            else r == Refused
  {
    if KnownBucket(bucket) {
      ResolvedWindow(from, to, bucket, defaultHours, now);
    }
  }

  /** Whatever window the manager accepts, it forwards, and each provider accepts it unchanged at any later time. */
  lemma ForwardedWindowAccepted(
    from: Option<Time>, to: Option<Time>, bucket: Option<string>, defaultHours: nat, now: Time, later: Time)
    requires Resolve(from, to, bucket, defaultHours, now).Accepted?
    ensures var w := Resolve(from, to, bucket, defaultHours, now);
            Resolve(Some(w.start), Some(w.end), Some(Name(w.bucket)), 24, later) == w
  {
    var w := Resolve(from, to, bucket, defaultHours, now);
    assert Name(Hourly) == "hour" && Name(Daily) == "day" && "hour"[0] != "day"[0];
    assert Granularity(Some(Name(w.bucket)), w.end - w.start) == w.bucket;
  }

  // ---------------------------------------------------------------------------
  // Zero-filled series
  // ---------------------------------------------------------------------------

  /** A counted row: its instant and its category (outcome, alert status, model status), null when absent. */
  datatype Row = Row(at: Time, category: Option<nat>)

  predicate InWindow(r: Row, start: Time, end: Time) {
    start <= r.at < end
  }

  /** `SELECT count(*) ... WHERE start <= at < end`. */
  function Total(rows: seq<Row>, start: Time, end: Time): nat {
    if rows == [] then 0
    else Total(rows[..|rows| - 1], start, end) + (if InWindow(rows[|rows| - 1], start, end) then 1 else 0)
  }

  /** The group of one bucket slot. */
  function InBucket(rows: seq<Row>, start: Time, end: Time, b: Bucket, slot: Time): nat {
    if rows == [] then 0
    else
      var last := rows[|rows| - 1];
      InBucket(rows[..|rows| - 1], start, end, b, slot)
      + (if InWindow(last, start, end) && Floor(last.at, b) == slot then 1 else 0)
  }

  function Sum(counts: seq<nat>): nat {
    if counts == [] then 0 else Sum(counts[..|counts| - 1]) + counts[|counts| - 1]
  }

  function Series(rows: seq<Row>, start: Time, end: Time, b: Bucket): seq<nat> {
    seq(Count(start, end, b), i requires 0 <= i < Count(start, end, b) =>
      InBucket(rows, start, end, b, Starts(start, end, b)[i]))
  }

  /** Groups the rows by slot, then walks the grid and fills the gaps with zero. */
  method BuildSeries(rows: seq<Row>, start: Time, end: Time, b: Bucket) returns (series: seq<nat>)
    ensures series == Series(rows, start, end, b)
  {
    var groups: map<Time, nat> := map[];
    for i := 0 to |rows|
      invariant forall slot :: slot in groups ==> groups[slot] == InBucket(rows[..i], start, end, b, slot)
      invariant forall slot :: slot !in groups ==> InBucket(rows[..i], start, end, b, slot) == 0
    {
      assert rows[..i + 1][..i] == rows[..i];
      if InWindow(rows[i], start, end) {
        var slot := Floor(rows[i].at, b);
        groups := groups[slot := (if slot in groups then groups[slot] else 0) + 1];
      }
    }
    assert rows[..|rows|] == rows;
    var grid := BucketStarts(start, end, b);
    series := [];
    for i := 0 to |grid|
      invariant |series| == i
      invariant forall k :: 0 <= k < i ==> series[k] == InBucket(rows, start, end, b, grid[k])
    {
      series := series + [if grid[i] in groups then groups[grid[i]] else 0];
    }
  }

  /** Every instant of the window lies in exactly one bucket of the grid. */
  lemma BucketOf(start: Time, end: Time, b: Bucket, at: Time) returns (k: nat)
    requires start <= at < end
    ensures k < Count(start, end, b)
    ensures forall i :: 0 <= i < Count(start, end, b) ==> (Starts(start, end, b)[i] == Floor(at, b) <==> i == k)
  {
    var step := Step(b);
    k := FloorDistance(start, at, step);
    CountBoundary(start, end, b, k);
    forall i | 0 <= i < Count(start, end, b) ensures Starts(start, end, b)[i] == Floor(at, b) <==> i == k {
      if i < k {
        Scale(i + 1, k, step);
        assert (i + 1) * step == i * step + step;
      } else if i > k {
        Scale(k + 1, i, step);
        assert (k + 1) * step == k * step + step;
      }
    }
  }

  lemma FloorDistance(start: Time, at: Time, step: nat) returns (k: nat)
    requires start <= at && step > 0
    ensures at - at % step == start - start % step + k * step
  {
    var p, q := start / step, at / step;
    QuotientMonotone(start, at, step);
    k := q - p;
    assert q * step == p * step + k * step;
  }

  lemma QuotientMonotone(x: int, y: int, step: nat)
    requires x <= y && step > 0
    ensures x / step <= y / step
    ensures x - x % step == x / step * step && y - y % step == y / step * step
  {
    var p, q := x / step, y / step;
    assert x == p * step + x % step && y == q * step + y % step;
    if q < p {
      LargerQuotient(p, q, step);
    }
  }

  lemma LargerQuotient(p: int, q: int, step: nat)
    requires q < p
    ensures p * step >= q * step + step
  {
    Scale(1, p - q, step);
    assert (p - q) * step == p * step - q * step;
  }

  lemma {:induction false} SumBump(counts: seq<nat>, bumped: seq<nat>, k: nat)
    requires |bumped| == |counts| && k < |counts|
    requires forall i :: 0 <= i < |counts| ==> bumped[i] == counts[i] + (if i == k then 1 else 0)
    ensures Sum(bumped) == Sum(counts) + 1
  {
    var n := |counts| - 1;
    if k < n {
      SumBump(counts[..n], bumped[..n], k);
    } else {
      assert counts[..n] == bumped[..n];
    }
  }

  lemma {:induction false} SumZero(counts: seq<nat>)
    requires forall i :: 0 <= i < |counts| ==> counts[i] == 0
    ensures Sum(counts) == 0
  {
    if counts != [] {
      SumZero(counts[..|counts| - 1]);
    }
  }

  /** Conservation: the zero-filled series adds up to the section's total. */
  lemma {:induction false} SeriesConserves(rows: seq<Row>, start: Time, end: Time, b: Bucket)
    ensures Sum(Series(rows, start, end, b)) == Total(rows, start, end)
  {
    if rows == [] {
      SumZero(Series(rows, start, end, b));
    } else {
      var prefix, last := rows[..|rows| - 1], rows[|rows| - 1];
      SeriesConserves(prefix, start, end, b);
      if InWindow(last, start, end) {
        var k := BucketOf(start, end, b, last.at);
        SumBump(Series(prefix, start, end, b), Series(rows, start, end, b), k);
      } else {
        assert Series(rows, start, end, b) == Series(prefix, start, end, b);
      }
    }
  }

  /** The rows of one category. */
  function Only(rows: seq<Row>, category: Option<nat>): seq<Row> {
    if rows == [] then []
    else Only(rows[..|rows| - 1], category) + (if rows[|rows| - 1].category == category then [rows[|rows| - 1]] else [])
  }

  /** The per-category counts of one bucket, over a vocabulary of n categories. */
  function Breakdown(rows: seq<Row>, start: Time, end: Time, b: Bucket, slot: Time, n: nat): seq<nat> {
    seq(n, c requires 0 <= c < n => InBucket(Only(rows, Some(c as nat)), start, end, b, slot))
  }

  lemma InBucketSnoc(rows: seq<Row>, r: Row, start: Time, end: Time, b: Bucket, slot: Time)
    ensures InBucket(rows + [r], start, end, b, slot) ==
            InBucket(rows, start, end, b, slot) + (if InWindow(r, start, end) && Floor(r.at, b) == slot then 1 else 0)
  {
    assert (rows + [r])[..|rows|] == rows;
  }

  /** The length of a bucket. */
  function Length(b: Bucket): nat {
    if b == Hourly then 3_600 * SECOND else 86_400 * SECOND
  }

  /** The rows of the window that lie in the bucket that begins at this slot. */
  ghost function RowsIn(rows: seq<Row>, start: Time, end: Time, b: Bucket, slot: Time): set<nat> {
    set r: nat | r < |rows| && start <= rows[r].at < end && slot <= rows[r].at < slot + Length(b)
  }

  lemma InSlot(at: Time, b: Bucket, slot: Time)
    requires slot % Length(b) == 0
    ensures Floor(at, b) == slot <==> slot <= at < slot + Length(b)
  {
    var step, k := Length(b), slot / Length(b);
    assert slot == k * step;
    assert (k + 1) * step == k * step + step;
    DivisionBounds(at, step);
    assert at - at % step == at / step * step;
    if slot <= at < slot + step {
      QuotientUnique(at, step, k);
    }
  }

  lemma {:induction false} InBucketIsSize(rows: seq<Row>, start: Time, end: Time, b: Bucket, slot: Time)
    requires slot % Length(b) == 0
    ensures InBucket(rows, start, end, b, slot) == |RowsIn(rows, start, end, b, slot)|
  {
    var all := RowsIn(rows, start, end, b, slot);
    if rows == [] {
      assert all == {};
    } else {
      var n: nat := |rows| - 1;
      InBucketIsSize(rows[..n], start, end, b, slot);
      InSlot(rows[n].at, b, slot);
      var earlier := RowsIn(rows[..n], start, end, b, slot);
      assert forall r :: r in earlier <==> r in all && r != n;
      if InWindow(rows[n], start, end) && Floor(rows[n].at, b) == slot {
        assert all == earlier + {n};
      } else {
        assert all == earlier;
      }
    }
  }

  /**
   Each point of a series is the number of rows of the window in its bucket, which begins
   on a full hour or at midnight and is that long.
   */
  lemma SeriesMeaning(rows: seq<Row>, start: Time, end: Time, b: Bucket, i: nat)
    requires i < Count(start, end, b)
    ensures var slot := Starts(start, end, b)[i];
            && slot == start - start % Length(b) + i * Length(b) && slot % Length(b) == 0
            && Series(rows, start, end, b)[i] == |RowsIn(rows, start, end, b, slot)|
  {
    Aligned(start, Step(b), i);
    InBucketIsSize(rows, start, end, b, Starts(start, end, b)[i]);
  }

  /** The total is the number of rows in the window. */
  lemma {:induction false} TotalIsSize(rows: seq<Row>, start: Time, end: Time)
    ensures Total(rows, start, end) == |set r: nat | r < |rows| && start <= rows[r].at < end|
  {
    var all := set r: nat | r < |rows| && start <= rows[r].at < end;
    if rows == [] {
      assert all == {};
    } else {
      var n: nat := |rows| - 1;
      TotalIsSize(rows[..n], start, end);
      var earlier := set r: nat | r < n && start <= rows[..n][r].at < end;
      assert forall r :: r in earlier <==> r in all && r != n;
      if InWindow(rows[n], start, end) {
        assert all == earlier + {n};
      } else {
        assert all == earlier;
      }
    }
  }

  /** The rows kept for a category are its own, in order and each as often as it occurs. */
  lemma {:induction false} OnlyMeaning(rows: seq<Row>, category: Option<nat>, r: Row)
    ensures multiset(Only(rows, category))[r] == if r.category == category then multiset(rows)[r] else 0
  {
    if rows != [] {
      var n := |rows| - 1;
      OnlyMeaning(rows[..n], category, r);
      assert rows == rows[..n] + [rows[n]];
    }
  }

  /**
   In every bucket the counts per category and the count of rows without one add up to
   the bucket total. For a column the schema closes and never leaves null, the
   breakdown alone adds up.
   */
  lemma {:induction false} BreakdownConserves(rows: seq<Row>, start: Time, end: Time, b: Bucket, slot: Time, n: nat)
    requires forall i :: 0 <= i < |rows| && rows[i].category.Some? ==> rows[i].category.value < n
    ensures Sum(Breakdown(rows, start, end, b, slot, n)) + InBucket(Only(rows, None), start, end, b, slot) ==
            InBucket(rows, start, end, b, slot)
  {
    if rows == [] {
      SumZero(Breakdown(rows, start, end, b, slot, n));
    } else {
      var prefix, last := rows[..|rows| - 1], rows[|rows| - 1];
      BreakdownConserves(prefix, start, end, b, slot, n);
      BreakdownSnoc(rows, start, end, b, slot, n);
      OnlySnoc(rows, None, start, end, b, slot);
    }
  }

  /** What one more row adds to its bucket's count for a category. */
  function Bump(r: Row, category: Option<nat>, start: Time, end: Time, b: Bucket, slot: Time): nat {
    if r.category == category && InWindow(r, start, end) && Floor(r.at, b) == slot then 1 else 0
  }

  lemma OnlySnoc(rows: seq<Row>, category: Option<nat>, start: Time, end: Time, b: Bucket, slot: Time)
    requires rows != []
    ensures InBucket(Only(rows, category), start, end, b, slot) ==
            InBucket(Only(rows[..|rows| - 1], category), start, end, b, slot)
            + Bump(rows[|rows| - 1], category, start, end, b, slot)
  {
    InBucketSnoc(Only(rows[..|rows| - 1], category), rows[|rows| - 1], start, end, b, slot);
    var kept := Only(rows[..|rows| - 1], category);
    assert kept + [] == kept;
  }

  lemma BreakdownSnoc(rows: seq<Row>, start: Time, end: Time, b: Bucket, slot: Time, n: nat)
    requires rows != []
    requires rows[|rows| - 1].category.Some? ==> rows[|rows| - 1].category.value < n
    ensures Sum(Breakdown(rows, start, end, b, slot, n)) ==
            Sum(Breakdown(rows[..|rows| - 1], start, end, b, slot, n))
            + (if rows[|rows| - 1].category.Some?
               then Bump(rows[|rows| - 1], rows[|rows| - 1].category, start, end, b, slot)
               else 0)
  {
    var last := rows[|rows| - 1];
    var before, after := Breakdown(rows[..|rows| - 1], start, end, b, slot, n), Breakdown(rows, start, end, b, slot, n);
    var at := if last.category.Some? && Bump(last, last.category, start, end, b, slot) == 1 then last.category
      else None;
    forall c: nat | c < n ensures after[c] == before[c] + (if at == Some(c) then 1 else 0) {
      CategorySnoc(rows, c, start, end, b, slot, n);
    }
    SumMoves(before, after, at);
  }

  lemma CategorySnoc(rows: seq<Row>, c: nat, start: Time, end: Time, b: Bucket, slot: Time, n: nat)
    requires rows != [] && c < n
    ensures Breakdown(rows, start, end, b, slot, n)[c] ==
            Breakdown(rows[..|rows| - 1], start, end, b, slot, n)[c]
            + Bump(rows[|rows| - 1], Some(c), start, end, b, slot)
  {
    OnlySnoc(rows, Some(c), start, end, b, slot);
  }

  /** At most one count grows, by one. */
  lemma SumMoves(before: seq<nat>, after: seq<nat>, at: Option<nat>)
    requires |after| == |before| && (at.Some? ==> at.value < |before|)
    requires forall c :: 0 <= c < |before| ==> after[c] == before[c] + (if at == Some(c) then 1 else 0)
    ensures Sum(after) == Sum(before) + (if at.Some? then 1 else 0)
  {
    if at.Some? {
      SumBump(before, after, at.value);
    } else {
      assert after == before;
    }
  }

  // ---------------------------------------------------------------------------
  // The attempt count behind an outer join
  // ---------------------------------------------------------------------------

  /** LEFT OUTER JOIN with a table holding matches[i] rows for row i. */
  function Joined(rows: seq<Row>, matches: seq<nat>): seq<Row>
    requires |matches| == |rows|
  {
    if rows == [] then []
    else
      var n := |rows| - 1;
      Joined(rows[..n], matches[..n]) + seq(if matches[n] == 0 then 1 else matches[n], _ => rows[n])
  }

  /** Counting attempts through the join with their assessments is exact because an attempt has at most one. */
  lemma {:induction false} JoinCountsOnce(rows: seq<Row>, matches: seq<nat>)
    requires |matches| == |rows|
    ensures |Joined(rows, matches)| >= |rows|
    ensures |Joined(rows, matches)| == |rows| <==> forall i :: 0 <= i < |matches| ==> matches[i] <= 1
    ensures (forall i :: 0 <= i < |matches| ==> matches[i] <= 1) ==> Joined(rows, matches) == rows
  {
    if rows != [] {
      var n := |rows| - 1;
      JoinCountsOnce(rows[..n], matches[..n]);
      assert matches == matches[..n] + [matches[n]];
      if forall i :: 0 <= i < |matches| ==> matches[i] <= 1 {
        assert seq(1, _ => rows[n]) == [rows[n]];
        assert rows == rows[..n] + [rows[n]];
      }
    }
  }
}
