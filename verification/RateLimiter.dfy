/**
 The fixed-window request counter kept in the `rate_limits` table, one row per
 (ip_address, action). The login handler and the trusted-device request handler
 run the same algorithm.
 */
module RateLimiter {
  import opened Basics

  /** max_count is the column default written when the row is first created. */
  const DEFAULT_MAX: nat := 5

  /** The table's CHECK constraint keeps max_count positive. */
  datatype Row = Row(windowStart: Time, count: nat, maxCount: nat)

  predicate Denied(row: Option<Row>, now: Time) {
    row.Some? && row.value.windowStart >= now - MINUTE && row.value.count >= row.value.maxCount
  }

  /** The row after one admitted request. */
  function Admit(row: Option<Row>, now: Time): Row {
    match row
    case None => Row(now, 1, DEFAULT_MAX)
    case Some(r) =>
      if r.windowStart < now - MINUTE then r.(windowStart := now, count := 1)
      else r.(count := r.count + 1)
  }

  /** One request; `commits` is false when the surrounding transaction is rolled back. */
  datatype Arrival = Arrival(at: Time, commits: bool)

  function Next(row: Option<Row>, a: Arrival): Option<Row> {
    if Denied(row, a.at) || !a.commits then row else Some(Admit(row, a.at))
  }

  /** One row of the table, updated in place by the request handlers. */
  class Limiter {
    var row: Option<Row>

    constructor ()
      ensures row == None
    {
      row := None;
    }

    method Hit(now: Time, commits: bool) returns (admitted: bool)
      modifies this
      ensures admitted <==> !Denied(old(row), now)
      ensures row == Next(old(row), Arrival(now, commits))
    {
      if row.Some? && row.value.windowStart >= now - MINUTE && row.value.count >= row.value.maxCount {
        return false;
      }
      var pending := row;
      if pending.Some? {
        if pending.value.windowStart < now - MINUTE {
          pending := Some(Row(now, 1, pending.value.maxCount));
        } else {
          pending := Some(pending.value.(count := pending.value.count + 1));
        }
      } else {
        pending := Some(Row(now, 1, DEFAULT_MAX));
      }
      if commits {
        row := pending;
      }
      admitted := true;
    }
  }

  // ---------------------------------------------------------------------------
  // Whole runs
  // ---------------------------------------------------------------------------

  /** An admitted and committed request, with the row it left behind. */
  datatype Entry = Entry(at: Time, row: Row)

  predicate Chronological(run: seq<Arrival>) {
    forall i, j :: 0 <= i < j < |run| ==> run[i].at <= run[j].at
  }

  function FinalRow(row: Option<Row>, run: seq<Arrival>): Option<Row> {
    if run == [] then row
    else Next(FinalRow(row, run[..|run| - 1]), run[|run| - 1])
  }

  /** The admitted and committed requests of a run, in order. */
  function Admitted(row: Option<Row>, run: seq<Arrival>): seq<Entry> {
    if run == [] then []
    else
      var last := run[|run| - 1];
      var before := FinalRow(row, run[..|run| - 1]);
      var earlier := Admitted(row, run[..|run| - 1]);
      if Denied(before, last.at) || !last.commits then earlier
      else earlier + [Entry(last.at, Admit(before, last.at))]
  }

  function Limit(row: Option<Row>): nat {
    if row.Some? then row.value.maxCount else DEFAULT_MAX
  }

  /** How many admitted requests fall in the closed interval [lo, hi]. */
  function CountIn(entries: seq<Entry>, lo: Time, hi: Time): nat {
    if entries == [] then 0
    else CountIn(entries[..|entries| - 1], lo, hi) + (if lo <= entries[|entries| - 1].at <= hi then 1 else 0)
  }

  /** A row that existed before the run was written no later than the run's first request. */
  ghost predicate StartsBefore(row: Option<Row>, run: seq<Arrival>) {
    row.Some? ==> row.value.maxCount > 0 && forall i :: 0 <= i < |run| ==> row.value.windowStart <= run[i].at
  }

  /** One admitted request follows the previous in the same window, or opens a later one. */
  ghost predicate Follows(a: Entry, b: Entry) {
    && a.at <= b.at
    && (|| (b.row.windowStart == a.row.windowStart && b.row.count == a.row.count + 1)
        || (b.row.windowStart > a.row.windowStart + MINUTE && b.row.count == 1))
  }

  ghost predicate Traced(entries: seq<Entry>, limit: nat) {
    && (forall i :: 0 <= i < |entries| ==>
          && entries[i].row.windowStart <= entries[i].at <= entries[i].row.windowStart + MINUTE
          && 1 <= entries[i].row.count <= limit)
    && (forall i :: 0 < i < |entries| ==> Follows(entries[i - 1], entries[i]))
  }

  lemma {:induction false} TraceOfRun(row: Option<Row>, run: seq<Arrival>)
    requires Chronological(run) && StartsBefore(row, run)
    ensures Traced(Admitted(row, run), Limit(row))
    ensures Admitted(row, run) == [] ==> FinalRow(row, run) == row
    ensures Admitted(row, run) != [] ==>
              var last := Admitted(row, run)[|Admitted(row, run)| - 1];
              && FinalRow(row, run) == Some(last.row) && last.row.maxCount == Limit(row)
              && last.at <= run[|run| - 1].at
  {
    if run != [] {
      var prefix, last := run[..|run| - 1], run[|run| - 1];
      TraceOfRun(row, prefix);
      var before, earlier := FinalRow(row, prefix), Admitted(row, prefix);
      assert forall i :: 0 <= i < |prefix| ==> prefix[i].at <= last.at;
      if !Denied(before, last.at) && last.commits {
        AdmitExtends(earlier, before, last.at, Limit(row));
      }
    }
  }

  /** Appending one admitted request keeps the trace well formed. */
  lemma AdmitExtends(earlier: seq<Entry>, before: Option<Row>, now: Time, limit: nat)
    requires Traced(earlier, limit) && limit > 0 && !Denied(before, now)
    requires before == None ==> limit == DEFAULT_MAX && earlier == []
    requires before.Some? ==> before.value.maxCount == limit && before.value.windowStart <= now
    requires earlier != [] ==> before == Some(earlier[|earlier| - 1].row) && earlier[|earlier| - 1].at <= now
    ensures Traced(earlier + [Entry(now, Admit(before, now))], limit)
    ensures Admit(before, now).maxCount == limit
  {
    var entry := Entry(now, Admit(before, now));
    if earlier != [] {
      assert Follows(earlier[|earlier| - 1], entry);
    }
    forall i | 0 < i < |earlier + [entry]|
      ensures Follows((earlier + [entry])[i - 1], (earlier + [entry])[i])
    {
      if i < |earlier| {
        assert Follows(earlier[i - 1], earlier[i]);
      }
    }
  }

  /** The number of 60-second windows opened strictly between two traced requests. */
  lemma {:induction false} SpanBound(entries: seq<Entry>, limit: nat, i: nat, j: nat) returns (windows: nat)
    requires Traced(entries, limit) && i <= j < |entries|
    ensures j - i <= limit * windows + entries[j].row.count - entries[i].row.count
    ensures entries[j].row.windowStart - entries[i].row.windowStart >= MINUTE * windows
    ensures windows > 0 ==> entries[j].row.windowStart - entries[i].row.windowStart > MINUTE * windows
    ensures windows == 0 ==> entries[j].row.windowStart == entries[i].row.windowStart
    decreases j - i
  {
    windows := 0;
    if i < j {
      windows := SpanBound(entries, limit, i, j - 1);
      assert Follows(entries[j - 1], entries[j]);
      if entries[j].row.windowStart != entries[j - 1].row.windowStart {
        assert limit * (windows + 1) == limit * windows + limit;
        windows := windows + 1;
      }
    }
  }

  lemma {:induction false} CountBySpan(entries: seq<Entry>, lo: Time, hi: Time) returns (i: nat, j: nat)
    requires CountIn(entries, lo, hi) > 0
    ensures i <= j < |entries| && lo <= entries[i].at <= hi && lo <= entries[j].at <= hi
    ensures CountIn(entries, lo, hi) <= j - i + 1
  {
    var n := |entries| - 1;
    if CountIn(entries[..n], lo, hi) > 0 {
      i, j := CountBySpan(entries[..n], lo, hi);
    } else {
      i := n;
    }
    if lo <= entries[n].at <= hi {
      j := n;
    }
  }

  /**
   Over any run whose clock never goes back, a closed interval of `length`
   microseconds holds at most limit * (ceil(length / 60 s) + 1) admitted and
   committed requests, whatever the mix of denials and rollbacks.
   */
  lemma IntervalBound(row: Option<Row>, run: seq<Arrival>, lo: Time, length: nat)
    requires Chronological(run) && StartsBefore(row, run)
    ensures CountIn(Admitted(row, run), lo, lo + length) <= Limit(row) * (CeilDiv(length, MINUTE) + 1)
  {
    TraceOfRun(row, run);
    TraceBound(Admitted(row, run), Limit(row), lo, length);
  }

  /** The same for a counter that starts without a row. */
  lemma FreshBound(run: seq<Arrival>, lo: Time, length: nat)
    requires Chronological(run)
    ensures CountIn(Admitted(None, run), lo, lo + length) <= 5 * (CeilDiv(length, MINUTE) + 1)
  {
    assert Limit(None) == 5;
    IntervalBound(None, run, lo, length);
  }

  // ---------------------------------------------------------------------------
  // Nothing is refused below the limit
  // ---------------------------------------------------------------------------

  /** The open window holds as many admitted requests as its row counts, all of them since it opened. */
  lemma {:induction false} WindowHolds(run: seq<Arrival>, hi: Time)
    requires Chronological(run) && forall i :: 0 <= i < |run| ==> run[i].at <= hi
    ensures var row := FinalRow(None, run);
            row.Some? ==> CountIn(Admitted(None, run), row.value.windowStart, hi) >= row.value.count
    ensures FinalRow(None, run).Some? ==> FinalRow(None, run).value.maxCount == 5
  {
    if run != [] {
      var n := |run| - 1;
      WindowHolds(run[..n], hi);
      var before, last, earlier := FinalRow(None, run[..n]), run[n], Admitted(None, run[..n]);
      if !Denied(before, last.at) && last.commits {
        var entry := Entry(last.at, Admit(before, last.at));
        assert (earlier + [entry])[..|earlier|] == earlier;
        StampsInOrder(run, hi);
      }
    }
  }

  lemma {:induction false} StampsInOrder(run: seq<Arrival>, hi: Time)
    requires Chronological(run)
    ensures var row := FinalRow(None, run);
            row.Some? ==> run != [] && row.value.windowStart <= run[|run| - 1].at
  {
    if run != [] {
      StampsInOrder(run[..|run| - 1], hi);
    }
  }

  /**
   A request is refused only if five have been admitted in the minute before it: nobody
   below the limit is turned away.
   */
  lemma RefusedOnlyWhenFull(run: seq<Arrival>, now: Time)
    requires Chronological(run) && forall i :: 0 <= i < |run| ==> run[i].at <= now
    requires Denied(FinalRow(None, run), now)
    ensures CountIn(Admitted(None, run), now - MINUTE, now) >= 5
  {
    WindowHolds(run, now);
    WiderCounts(Admitted(None, run), now - MINUTE, FinalRow(None, run).value.windowStart, now);
  }

  lemma {:induction false} WiderCounts(entries: seq<Entry>, lo: Time, from: Time, hi: Time)
    requires lo <= from
    ensures CountIn(entries, from, hi) <= CountIn(entries, lo, hi)
  {
    if entries != [] {
      WiderCounts(entries[..|entries| - 1], lo, from, hi);
    }
  }

  /** An admitted request leaves its mark: it opens a window, or is the next in the open one. */
  lemma AdmittedMeaning(row: Option<Row>, now: Time)
    requires !Denied(row, now)
    ensures var next := Next(row, Arrival(now, true));
            && next.Some? && Next(row, Arrival(now, false)) == row
            && (row == None ==> next.value == Row(now, 1, 5))
            && (row.Some? && row.value.windowStart + MINUTE < now ==> next.value == Row(now, 1, row.value.maxCount))
            && (row.Some? && now <= row.value.windowStart + MINUTE ==>
                  next.value == Row(row.value.windowStart, row.value.count + 1, row.value.maxCount))
  {}

  lemma TraceBound(entries: seq<Entry>, limit: nat, lo: Time, length: nat)
    requires Traced(entries, limit)
    ensures CountIn(entries, lo, lo + length) <= limit * (CeilDiv(length, MINUTE) + 1)
  {
    if CountIn(entries, lo, lo + length) > 0 {
      var i, j := CountBySpan(entries, lo, lo + length);
      var windows := SpanBound(entries, limit, i, j);
      if windows > 0 {
        WindowsFit(windows, length);
      }
      ScaleWindows(limit, windows, CeilDiv(length, MINUTE));
    }
  }

  lemma WindowsFit(windows: nat, length: nat)
    requires MINUTE * windows < length + MINUTE
    ensures windows <= CeilDiv(length, MINUTE)
  {}

  lemma ScaleWindows(limit: nat, windows: nat, cap: nat)
    requires windows <= cap
    ensures limit * windows + limit <= limit * (cap + 1)
  {
    assert limit * (cap + 1) == limit * windows + limit * (cap - windows) + limit;
  }

  /**
   A block is never prolonged: however many requests are refused while it lasts,
   the row is untouched and the block ends exactly one minute after the window
   opened.
   */
  lemma {:induction false} BlockEndsOnTime(row: Row, run: seq<Arrival>, now: Time)
    requires row.count >= row.maxCount
    requires forall i :: 0 <= i < |run| ==> run[i].at <= row.windowStart + MINUTE
    ensures FinalRow(Some(row), run) == Some(row)
    ensures Denied(FinalRow(Some(row), run), now) <==> now <= row.windowStart + MINUTE
  {
    if run != [] {
      BlockEndsOnTime(row, run[..|run| - 1], now);
    }
  }
}
