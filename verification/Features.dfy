/**
 The six behavioural features Detection derives from the login history before it
 evaluates rules or asks the ML service for a score.
 */
module Features {
  import opened Basics

  datatype Outcome =
    | Success | Failure | MfaRequired | MfaSuccess | MfaFailed | Blocked | LockedOut | RateLimited

  /** A row of `login_attempts`; addresses, agents and fingerprints are compared only for equality. */
  datatype Login = Login(
    user: Option<nat>, at: Time, outcome: Outcome,
    ip: Option<nat>, agent: Option<nat>, fingerprint: Option<nat>)

  datatype Vector = Vector(
    hourOfDay: int, failCount24h: int, ipChangeRate7d: real,
    newDevice: bool, averageInterval: int, deviation: real)

  const DEVICE_WINDOW := 30 * DAY
  const MAX_STAMPS: nat := 10

  // ---------------------------------------------------------------------------
  // Database queries
  // ---------------------------------------------------------------------------

  /** The filter every query shares: same user, strictly before the attempt. */
  predicate Relevant(row: Login, attempt: Login) {
    row.user == attempt.user && row.at < attempt.at
  }

  function History(rows: seq<Login>, attempt: Login): seq<Login> {
    if rows == [] then []
    else
      var n := |rows| - 1;
      History(rows[..n], attempt) + (if Relevant(rows[n], attempt) then [rows[n]] else [])
  }

  datatype Query =
    | FailuresSince(since: Time)
    | AllSince(since: Time)
    | FromIpSince(since: Time, ip: Option<nat>)
    | FingerprintSince(since: Time, fingerprint: Option<nat>)
    | AgentSince(since: Time, agent: Option<nat>)
  {
    predicate Selects(row: Login) {
      && row.at >= since
      && match this
         case FailuresSince(_) => row.outcome == Failure
         case AllSince(_) => true
         case FromIpSince(_, ip) => row.ip == ip
         case FingerprintSince(_, fingerprint) => row.fingerprint == fingerprint
         case AgentSince(_, agent) => row.agent == agent
    }
  }

  function Count(rows: seq<Login>, q: Query): nat {
    if rows == [] then 0
    else Count(rows[..|rows| - 1], q) + (if q.Selects(rows[|rows| - 1]) then 1 else 0)
  }

  predicate Descending(stamps: seq<Time>) {
    forall i, j :: 0 <= i < j < |stamps| ==> stamps[i] >= stamps[j]
  }

  function Insert(stamp: Time, stamps: seq<Time>): (r: seq<Time>)
    ensures multiset(r) == multiset(stamps) + multiset{stamp}
    ensures |r| == |stamps| + 1
  {
    if stamps == [] || stamp >= stamps[0] then [stamp] + stamps
    else
      assert stamps == [stamps[0]] + stamps[1..];
      [stamps[0]] + Insert(stamp, stamps[1..])
  }

  /** The timestamps of the rows, newest first. */
  function NewestFirst(rows: seq<Login>): (r: seq<Time>)
    ensures |r| == |rows|
  {
    if rows == [] then [] else Insert(rows[|rows| - 1].at, NewestFirst(rows[..|rows| - 1]))
  }

  /** The ten most recent timestamps, newest first. */
  function Recent(rows: seq<Login>): seq<Time> {
    var all := NewestFirst(rows);
    if |all| <= MAX_STAMPS then all else all[..MAX_STAMPS]
  }

  // ---------------------------------------------------------------------------
  // The feature vector
  // ---------------------------------------------------------------------------

  function Seconds(d: Time): real {
    d as real / 1_000_000.0
  }

  function Clamp(x: real): real {
    if x < 0.0 then 0.0 else if x > 1.0 then 1.0 else x
  }

  function Abs(x: real): real {
    if x < 0.0 then -x else x
  }

  function IpChangeRate(history: seq<Login>, attempt: Login): real {
    var total := Count(history, AllSince(attempt.at - 7 * DAY));
    if total == 0 || attempt.ip == None then 0.0
    else 1.0 - Count(history, FromIpSince(attempt.at - 7 * DAY, attempt.ip)) as real / total as real
  }

  function NewDevice(history: seq<Login>, attempt: Login): bool {
    if attempt.fingerprint.Some? then
      Count(history, FingerprintSince(attempt.at - DEVICE_WINDOW, attempt.fingerprint)) == 0
    else if attempt.agent.Some? then
      Count(history, AgentSince(attempt.at - DEVICE_WINDOW, attempt.agent)) == 0
    else
      false
  }

  /** Mean gap between the recent stamps in seconds: end to end distance over the number of gaps. */
  function MeanGap(stamps: seq<Time>): real
    requires |stamps| >= 2
  {
    Seconds(stamps[0] - stamps[|stamps| - 1]) / (|stamps| - 1) as real
  }

  function Deviation(stamps: seq<Time>, now: Time): real
    requires |stamps| >= 2
  {
    var mean := MeanGap(stamps);
    if mean == 0.0 then 0.0
    else
      var relative := Abs(Seconds(now - stamps[0]) - mean) / mean;
      if relative > 1.0 then 1.0 else relative
  }

  function HourOfDay(at: Time): int {
    (at / HOUR) % 24
  }

  function Build(rows: seq<Login>, attempt: Login): Vector {
    if attempt.user == None then Vector(HourOfDay(attempt.at), 0, 0.0, false, 0, 0.0)
    else
      var history := History(rows, attempt);
      var stamps := Recent(history);
      Vector(
        HourOfDay(attempt.at),
        Count(history, FailuresSince(attempt.at - DAY)),
        IpChangeRate(history, attempt),
        NewDevice(history, attempt),
        if |stamps| >= 2 then MeanGap(stamps).Floor else 0,
        if |stamps| >= 2 then Deviation(stamps, attempt.at) else 0.0)
  }

  /** The engine's own computation: gaps are collected one by one and averaged. */
  method BuildFeatures(rows: seq<Login>, attempt: Login) returns (v: Vector)
    ensures v == Build(rows, attempt)
  {
    v := Vector(HourOfDay(attempt.at), 0, 0.0, false, 0, 0.0);
    if attempt.user == None {
      return;
    }
    var history := History(rows, attempt);
    v := v.(failCount24h := Count(history, FailuresSince(attempt.at - DAY)));
    var total := Count(history, AllSince(attempt.at - 7 * DAY));
    if total > 0 && attempt.ip.Some? {
      var same := Count(history, FromIpSince(attempt.at - 7 * DAY, attempt.ip));
      CountSubset(history, FromIpSince(attempt.at - 7 * DAY, attempt.ip), AllSince(attempt.at - 7 * DAY));
      QuotientInUnit(same, total);
      v := v.(ipChangeRate7d := Clamp(1.0 - same as real / total as real));
    }
    v := v.(newDevice := NewDevice(history, attempt));

    var stamps := Recent(history);
    if |stamps| >= 2 {
      RecentDescending(history);
      var average, deviation := GapFeatures(stamps, attempt.at);
      v := v.(averageInterval := average, deviation := deviation);
    }
  }

  method GapFeatures(stamps: seq<Time>, now: Time) returns (average: int, deviation: real)
    requires |stamps| >= 2 && Descending(stamps)
    ensures average == MeanGap(stamps).Floor
    ensures deviation == Deviation(stamps, now)
  {
    var sum, gaps, i := 0.0, 0, 0;
    while i + 1 < |stamps|
      invariant 0 <= i < |stamps| && gaps == i
      invariant sum == Seconds(stamps[0] - stamps[i])
    {
      var delta := Seconds(stamps[i] - stamps[i + 1]);
      if delta >= 0.0 {
        sum, gaps := sum + delta, gaps + 1;
      }
      i := i + 1;
    }
    var meanGap := sum / gaps as real;
    average := meanGap.Floor;
    if meanGap != 0.0 {
      deviation := Abs(Seconds(now - stamps[0]) - meanGap) / meanGap;
      if deviation > 1.0 {
        deviation := 1.0;
      }
    } else {
      deviation := 0.0;
    }
  }

  // ---------------------------------------------------------------------------
  // Facts about the queries
  // ---------------------------------------------------------------------------

  lemma QuotientInUnit(part: nat, whole: nat)
    requires part <= whole && whole > 0
    ensures 0.0 <= part as real / whole as real <= 1.0
  {}

  lemma {:induction false} CountSubset(rows: seq<Login>, narrow: Query, wide: Query)
    requires forall row :: narrow.Selects(row) ==> wide.Selects(row)
    ensures Count(rows, narrow) <= Count(rows, wide)
  {
    if rows != [] {
      CountSubset(rows[..|rows| - 1], narrow, wide);
    }
  }

  lemma {:induction false} InsertDescending(stamp: Time, stamps: seq<Time>)
    requires Descending(stamps)
    ensures Descending(Insert(stamp, stamps))
  {
    if !(stamps == [] || stamp >= stamps[0]) {
      InsertDescending(stamp, stamps[1..]);
      var tail := Insert(stamp, stamps[1..]);
      forall k | 0 <= k < |tail| ensures stamps[0] >= tail[k] {
        assert tail[k] in multiset(tail);
        if tail[k] != stamp {
          assert tail[k] in multiset(stamps[1..]);
        }
      }
    }
  }

  lemma {:induction false} NewestFirstDescending(rows: seq<Login>)
    ensures Descending(NewestFirst(rows))
  {
    if rows != [] {
      NewestFirstDescending(rows[..|rows| - 1]);
      InsertDescending(rows[|rows| - 1].at, NewestFirst(rows[..|rows| - 1]));
    }
  }

  lemma RecentDescending(rows: seq<Login>)
    ensures Descending(Recent(rows))
    ensures |Recent(rows)| == if |rows| < 10 then |rows| else 10
  {
    NewestFirstDescending(rows);
  }

  /**
   What `ORDER BY timestamp DESC LIMIT 10` must return: stamps of the given rows, and
   a row whose stamp was cut off is no newer than any kept one.
   */
  lemma RecentAreNewest(rows: seq<Login>, row: Login, k: nat)
    requires k < |Recent(rows)|
    ensures exists kept :: kept in rows && kept.at == Recent(rows)[k]
    ensures row in rows && row.at !in Recent(rows) ==> row.at <= Recent(rows)[k]
  {
    NewestFirstDescending(rows);
    var all := NewestFirst(rows);
    assert Recent(rows) == all[..|Recent(rows)|];
    var kept := RowOfStamp(rows, all[k]);
    if row in rows && row.at !in Recent(rows) {
      StampOfRow(rows, row);
      var j :| 0 <= j < |all| && all[j] == row.at;
      assert j >= |Recent(rows)|;
    }
  }

  lemma {:induction false} RowOfStamp(rows: seq<Login>, stamp: Time) returns (row: Login)
    requires stamp in NewestFirst(rows)
    ensures row in rows && row.at == stamp
  {
    var prefix := rows[..|rows| - 1];
    row := rows[|rows| - 1];
    if row.at != stamp {
      assert stamp in multiset(NewestFirst(rows));
      assert stamp in multiset(NewestFirst(prefix));
      row := RowOfStamp(prefix, stamp);
    }
  }

  lemma {:induction false} StampOfRow(rows: seq<Login>, row: Login)
    requires row in rows
    ensures row.at in NewestFirst(rows)
  {
    var prefix := rows[..|rows| - 1];
    if row != rows[|rows| - 1] {
      assert row in prefix;
      StampOfRow(prefix, row);
      assert row.at in multiset(NewestFirst(prefix));
    }
    assert row.at in multiset(NewestFirst(rows));
  }

  /** A fingerprint (or, without one, an agent) is new exactly when no relevant row of the last 30 days carries it. */
  lemma NewDeviceMeaning(rows: seq<Login>, attempt: Login)
    requires attempt.user.Some?
    ensures attempt.fingerprint.Some? ==>
              (Build(rows, attempt).newDevice <==>
               forall row :: row in rows && Relevant(row, attempt) && row.at >= attempt.at - 30 * DAY ==>
                               row.fingerprint != attempt.fingerprint)
    ensures attempt.fingerprint == None && attempt.agent.Some? ==>
              (Build(rows, attempt).newDevice <==>
               forall row :: row in rows && Relevant(row, attempt) && row.at >= attempt.at - 30 * DAY ==>
                               row.agent != attempt.agent)
    ensures attempt.fingerprint == None && attempt.agent == None ==> !Build(rows, attempt).newDevice
  {
    if attempt.fingerprint.Some? {
      NoneSelected(rows, attempt, FingerprintSince(attempt.at - 30 * DAY, attempt.fingerprint));
    } else if attempt.agent.Some? {
      NoneSelected(rows, attempt, AgentSince(attempt.at - 30 * DAY, attempt.agent));
    }
  }

  lemma NoneSelected(rows: seq<Login>, attempt: Login, q: Query)
    ensures Count(History(rows, attempt), q) == 0 <==>
            forall row :: row in rows && Relevant(row, attempt) ==> !q.Selects(row)
  {
    HistoryMembers(rows, attempt);
    CountZero(History(rows, attempt), q);
  }

  lemma {:induction false} HistoryMembers(rows: seq<Login>, attempt: Login)
    ensures forall row :: row in History(rows, attempt) <==> row in rows && Relevant(row, attempt)
  {
    if rows != [] {
      HistoryMembers(rows[..|rows| - 1], attempt);
      assert rows == rows[..|rows| - 1] + [rows[|rows| - 1]];
    }
  }

  lemma {:induction false} CountZero(rows: seq<Login>, q: Query)
    ensures Count(rows, q) == 0 <==> forall row :: row in rows ==> !q.Selects(row)
  {
    if rows != [] {
      CountZero(rows[..|rows| - 1], q);
      assert rows == rows[..|rows| - 1] + [rows[|rows| - 1]];
    }
  }

  // ---------------------------------------------------------------------------
  // What the features count
  // ---------------------------------------------------------------------------

  /** The user's rows of the day before the attempt that failed, by position. */
  ghost function FailuresOfDay(rows: seq<Login>, attempt: Login): set<nat> {
    set i: nat | i < |rows| && rows[i].user == attempt.user
                 && attempt.at - 86_400 * SECOND <= rows[i].at < attempt.at && rows[i].outcome == Failure
  }

  /** The user's rows of the week before the attempt. */
  ghost function LoginsOfWeek(rows: seq<Login>, attempt: Login): set<nat> {
    set i: nat | i < |rows| && rows[i].user == attempt.user
                 && attempt.at - 7 * 86_400 * SECOND <= rows[i].at < attempt.at
  }

  /** Those of them from the attempt's address. */
  ghost function LoginsOfWeekFrom(rows: seq<Login>, attempt: Login): set<nat> {
    set i | i in LoginsOfWeek(rows, attempt) && rows[i].ip == attempt.ip
  }

  ghost function Counted(rows: seq<Login>, attempt: Login, q: Query): set<nat> {
    set i: nat | i < |rows| && Relevant(rows[i], attempt) && q.Selects(rows[i])
  }

  /** A query counts rows: each that passes the filters once. */
  lemma {:induction false} CountIsSize(rows: seq<Login>, attempt: Login, q: Query)
    ensures Count(History(rows, attempt), q) == |Counted(rows, attempt, q)|
  {
    if rows == [] {
      assert Counted(rows, attempt, q) == {};
    } else {
      var n := |rows| - 1;
      CountIsSize(rows[..n], attempt, q);
      var earlier := History(rows[..n], attempt);
      assert (earlier + [rows[n]])[..|earlier|] == earlier;
      assert earlier + [] == earlier;
      CountedNext(rows, attempt, q);
    }
  }

  lemma CountedNext(rows: seq<Login>, attempt: Login, q: Query)
    requires rows != []
    ensures var n := |rows| - 1;
            |Counted(rows, attempt, q)| ==
            |Counted(rows[..n], attempt, q)| + (if Relevant(rows[n], attempt) && q.Selects(rows[n]) then 1 else 0)
  {
    var n: nat := |rows| - 1;
    var earlier, all := Counted(rows[..n], attempt, q), Counted(rows, attempt, q);
    assert forall i :: i in earlier <==> i in all && i != n;
    if Relevant(rows[n], attempt) && q.Selects(rows[n]) {
      assert all == earlier + {n};
    } else {
      assert all == earlier;
    }
  }

  /** The failures feature is the number of those rows. */
  lemma FailuresMeaning(rows: seq<Login>, attempt: Login)
    requires attempt.user.Some?
    ensures Build(rows, attempt).failCount24h == |FailuresOfDay(rows, attempt)|
  {
    CountIsSize(rows, attempt, FailuresSince(attempt.at - DAY));
    assert Counted(rows, attempt, FailuresSince(attempt.at - DAY)) == FailuresOfDay(rows, attempt);
  }

  /** What part of the whole is missing; nothing of an empty whole. */
  function MissingShare(part: nat, whole: nat): real {
    if whole == 0 then 0.0 else 1.0 - part as real / whole as real
  }

  /** The address feature is the share of the week's rows from other addresses, and zero without an address. */
  lemma IpChangeMeaning(rows: seq<Login>, attempt: Login)
    requires attempt.user.Some?
    ensures Build(rows, attempt).ipChangeRate7d ==
            if attempt.ip == None then 0.0
            else MissingShare(|LoginsOfWeekFrom(rows, attempt)|, |LoginsOfWeek(rows, attempt)|)
  {
    var week := attempt.at - 7 * DAY;
    CountIsSize(rows, attempt, AllSince(week));
    CountIsSize(rows, attempt, FromIpSince(week, attempt.ip));
    assert Counted(rows, attempt, AllSince(week)) == LoginsOfWeek(rows, attempt);
    assert Counted(rows, attempt, FromIpSince(week, attempt.ip)) == LoginsOfWeekFrom(rows, attempt);
    RateIsShare(History(rows, attempt), attempt);
  }

  lemma RateIsShare(history: seq<Login>, attempt: Login)
    ensures var week := attempt.at - 7 * DAY;
            IpChangeRate(history, attempt) ==
            if attempt.ip == None then 0.0
            else MissingShare(Count(history, FromIpSince(week, attempt.ip)), Count(history, AllSince(week)))
  {}

  /** The hour is that of the UTC day the attempt lies in. */
  lemma HourMeaning(rows: seq<Login>, attempt: Login)
    ensures var h := Build(rows, attempt).hourOfDay;
            && 0 <= h < 24
            && h * 3_600 * SECOND <= attempt.at % (86_400 * SECOND) < (h + 1) * 3_600 * SECOND
  {
    var at := attempt.at;
    var day, rest := at / DAY, at % DAY;
    assert at == (24 * day) * HOUR + rest;
    var h := rest / HOUR;
    assert h * HOUR <= rest < (h + 1) * HOUR && 0 <= h < 24;
    QuotientUnique(at, HOUR, 24 * day + h);
    assert (24 * day + h) % 24 == h;
  }

  /** Without a user, or with fewer than two earlier rows, the interval features are zero. */
  lemma NoGapsMeaning(rows: seq<Login>, attempt: Login)
    requires attempt.user == None || |History(rows, attempt)| < 2
    ensures Build(rows, attempt).averageInterval == 0 && Build(rows, attempt).deviation == 0.0
    ensures attempt.user == None ==>
              Build(rows, attempt).(hourOfDay := 0) == Vector(0, 0, 0.0, false, 0, 0.0)
  {
    if attempt.user.Some? {
      RecentDescending(History(rows, attempt));
    }
  }

  /**
   How far the time since the last login is from the mean of the gaps, relative to that mean
   and capped at one; `distance` is what the gaps span together.
   */
  function GapError(gaps: nat, elapsed: Time, distance: Time): real {
    if distance <= 0 then 0.0
    else
      var error := Abs((gaps * elapsed - distance) as real);
      if error > distance as real then 1.0 else error / distance as real
  }

  lemma DeviationMeaning(rows: seq<Login>, attempt: Login)
    requires attempt.user.Some? && |History(rows, attempt)| >= 2
    ensures var stamps := Recent(History(rows, attempt));
            && |stamps| >= 2
            && var k := |stamps| - 1;
            Build(rows, attempt).deviation == GapError(k, attempt.at - stamps[0], stamps[0] - stamps[k])
  {
    var stamps := Recent(History(rows, attempt));
    RecentDescending(History(rows, attempt));
    DeviationClosedForm(stamps, attempt.at);
  }

  lemma DeviationClosedForm(stamps: seq<Time>, now: Time)
    requires |stamps| >= 2 && Descending(stamps)
    ensures Deviation(stamps, now) == GapError(|stamps| - 1, now - stamps[0], stamps[0] - stamps[|stamps| - 1])
  {
    var k: nat, distance: nat, elapsed := |stamps| - 1, stamps[0] - stamps[|stamps| - 1], now - stamps[0];
    if distance == 0 {
      assert MeanGap(stamps) == 0.0;
    } else {
      var error := Abs((k * elapsed - distance) as real);
      RelativeIsError(stamps, now, k, elapsed, distance);
      CapAgrees(error, distance as real);
      CapIsCap(stamps, now, error / distance as real);
    }
  }

  lemma RelativeIsError(stamps: seq<Time>, now: Time, k: nat, elapsed: Time, distance: nat)
    requires |stamps| >= 2 && k == |stamps| - 1 && distance > 0
    requires elapsed == now - stamps[0] && distance == stamps[0] - stamps[|stamps| - 1]
    ensures MeanGap(stamps) > 0.0
    ensures Abs(Seconds(now - stamps[0]) - MeanGap(stamps)) / MeanGap(stamps) ==
            Abs((k * elapsed - distance) as real) / distance as real
  {
    RelativeGap(elapsed as real, distance as real, k as real);
    ErrorAsReal(k, elapsed, distance);
  }

  lemma ErrorAsReal(k: nat, elapsed: Time, distance: nat)
    ensures (k * elapsed - distance) as real == k as real * elapsed as real - distance as real
  {
    ProductAsReal(k, elapsed);
  }

  lemma CapIsCap(stamps: seq<Time>, now: Time, relative: real)
    requires |stamps| >= 2 && MeanGap(stamps) > 0.0
    requires relative == Abs(Seconds(now - stamps[0]) - MeanGap(stamps)) / MeanGap(stamps)
    ensures Deviation(stamps, now) == if relative > 1.0 then 1.0 else relative
  {}

  lemma CapAgrees(x: real, d: real)
    requires d > 0.0
    ensures (if x > d then 1.0 else x / d) == (if x / d > 1.0 then 1.0 else x / d)
  {
    assert x / d * d == x;
  }

  /** The seconds cancel. */
  lemma RelativeGap(elapsed: real, distance: real, k: real)
    requires distance > 0.0 && k > 0.0
    ensures var mean := distance / 1_000_000.0 / k;
            mean > 0.0 && Abs(elapsed / 1_000_000.0 - mean) / mean == Abs(k * elapsed - distance) / distance
  {
    var unit := 1_000_000.0 * k;
    var mean := distance / 1_000_000.0 / k;
    assert mean == distance / unit;
    assert mean * unit == distance;
    assert elapsed / 1_000_000.0 * unit == k * elapsed;
    ScaleAbs(elapsed / 1_000_000.0 - mean, unit);
    assert (elapsed / 1_000_000.0 - mean) * unit == k * elapsed - distance;
    CancelUnit(Abs(elapsed / 1_000_000.0 - mean), mean, unit);
  }

  lemma ScaleAbs(x: real, unit: real)
    requires unit > 0.0
    ensures Abs(x) * unit == Abs(x * unit)
  {}

  lemma CancelUnit(x: real, y: real, unit: real)
    requires y > 0.0 && unit > 0.0
    ensures y * unit > 0.0 && x / y == (x * unit) / (y * unit)
  {
    var q := x / y;
    assert q * y == x;
    assert q * (y * unit) == x * unit;
  }

  // ---------------------------------------------------------------------------
  // Closed form and the ML contract
  // ---------------------------------------------------------------------------

  /**
   The reported interval is the whole-second mean of the k - 1 gaps between the k most
   recent stamps: the distance from end to end over k - 1, rounded down.
   */
  lemma AverageIntervalClosedForm(rows: seq<Login>, attempt: Login)
    requires attempt.user.Some? && |History(rows, attempt)| >= 2
    ensures var stamps := Recent(History(rows, attempt));
            && 2 <= |stamps| <= 10
            && Build(rows, attempt).averageInterval == (stamps[0] - stamps[|stamps| - 1]) / ((|stamps| - 1) * SECOND)
  {
    var stamps := Recent(History(rows, attempt));
    RecentDescending(History(rows, attempt));
    FloorOfMeanGap(stamps);
  }

  lemma FloorOfMeanGap(stamps: seq<Time>)
    requires |stamps| >= 2 && Descending(stamps)
    ensures MeanGap(stamps).Floor == (stamps[0] - stamps[|stamps| - 1]) / ((|stamps| - 1) * SECOND)
  {
    var gaps: nat := |stamps| - 1;
    var span: nat := stamps[0] - stamps[gaps];
    var mean := (Seconds(span) / gaps as real).Floor;
    FloorOfQuotient(span, gaps);
    assert mean * gaps * SECOND == mean * (gaps * SECOND) && (mean + 1) * gaps * SECOND == (mean + 1) * (gaps * SECOND);
    QuotientUnique(span, gaps * SECOND, mean);
  }

  lemma FloorOfQuotient(span: nat, gaps: nat)
    requires gaps > 0
    ensures var mean := (Seconds(span) / gaps as real).Floor;
            mean * gaps * SECOND <= span < (mean + 1) * gaps * SECOND
  {
    var exact := Seconds(span) / gaps as real;
    var mean := exact.Floor;
    DivideThenMultiply(Seconds(span), gaps as real);
    ScaleBounds(exact, mean, mean + 1, gaps);
    assert (mean * gaps) as real * 1_000_000.0 == (mean * gaps * SECOND) as real;
    assert ((mean + 1) * gaps) as real * 1_000_000.0 == ((mean + 1) * gaps * SECOND) as real;
  }

  lemma ScaleBounds(exact: real, low: int, high: int, k: nat)
    requires low as real <= exact < high as real && k > 0
    ensures (low * k) as real <= exact * k as real < (high * k) as real
  {
    ProductAsReal(low, k);
    ProductAsReal(high, k);
    ScaleReal(low as real, exact, k as real);
    ScaleStrict(exact, high as real, k as real);
  }

  lemma DivideThenMultiply(x: real, k: real)
    requires k > 0.0
    ensures x / k * k == x
  {}

  lemma ProductAsReal(a: int, b: int)
    ensures (a * b) as real == a as real * b as real
  {}

  lemma ScaleReal(a: real, b: real, k: real)
    requires a <= b && k >= 0.0
    ensures a * k <= b * k
  {}

  lemma ScaleStrict(a: real, b: real, k: real)
    requires a < b && k > 0.0
    ensures a * k < b * k
  {}

  /** The strict ranges the ML service demands of every vector it is sent. */
  predicate WithinMlContract(v: Vector) {
    && 0 <= v.hourOfDay <= 23
    && v.failCount24h >= 0
    && 0.0 <= v.ipChangeRate7d <= 1.0
    && v.averageInterval >= 0
    && 0.0 <= v.deviation <= 1.0
  }

  lemma VectorsMeetMlContract(rows: seq<Login>, attempt: Login)
    ensures WithinMlContract(Build(rows, attempt))
  {
    if attempt.user.Some? {
      var history := History(rows, attempt);
      RateInUnit(history, attempt);
      var stamps := Recent(history);
      RecentDescending(history);
      if |stamps| >= 2 {
        GapsInRange(stamps, attempt.at);
      }
    }
  }

  lemma RateInUnit(history: seq<Login>, attempt: Login)
    ensures 0.0 <= IpChangeRate(history, attempt) <= 1.0
  {
    var since := attempt.at - 7 * DAY;
    CountSubset(history, FromIpSince(since, attempt.ip), AllSince(since));
    if Count(history, AllSince(since)) > 0 {
      QuotientInUnit(Count(history, FromIpSince(since, attempt.ip)), Count(history, AllSince(since)));
    }
  }

  lemma GapsInRange(stamps: seq<Time>, now: Time)
    requires |stamps| >= 2 && Descending(stamps)
    ensures MeanGap(stamps) >= 0.0
    ensures 0.0 <= Deviation(stamps, now) <= 1.0
  {
    assert stamps[0] >= stamps[|stamps| - 1];
    assert Seconds(stamps[0] - stamps[|stamps| - 1]) >= 0.0;
  }

  // ---------------------------------------------------------------------------
  // Causality
  // ---------------------------------------------------------------------------

  lemma {:induction false} HistoryConcat(a: seq<Login>, b: seq<Login>, attempt: Login)
    ensures History(a + b, attempt) == History(a, attempt) + History(b, attempt)
  {
    if b == [] {
      assert a + b == a;
    } else {
      HistoryConcat(a, b[..|b| - 1], attempt);
      assert (a + b)[..|a + b| - 1] == a + b[..|b| - 1];
    }
  }

  lemma {:induction false} CountConcat(a: seq<Login>, b: seq<Login>, q: Query)
    ensures Count(a + b, q) == Count(a, q) + Count(b, q)
  {
    if b == [] {
      assert a + b == a;
    } else {
      CountConcat(a, b[..|b| - 1], q);
      assert (a + b)[..|a + b| - 1] == a + b[..|b| - 1];
    }
  }

  lemma InsertBelow(x: Time, head: Time, tail: seq<Time>)
    requires x < head
    ensures Insert(x, [head] + tail) == [head] + Insert(x, tail)
  {
    assert ([head] + tail)[1..] == tail;
  }

  lemma {:induction false} InsertCommutes(x: Time, y: Time, stamps: seq<Time>)
    requires x <= y
    ensures Insert(x, Insert(y, stamps)) == Insert(y, Insert(x, stamps))
  {
    if stamps == [] || y >= stamps[0] {
      assert Insert(y, stamps) == [y] + stamps;
      if x < y {
        InsertBelow(x, y, stamps);
        if stamps != [] && x < stamps[0] {
          assert Insert(x, stamps)[0] == stamps[0];
        }
      }
    } else {
      var head, tail := stamps[0], stamps[1..];
      assert stamps == [head] + tail;
      InsertBelow(y, head, tail);
      InsertBelow(x, head, tail);
      InsertBelow(x, head, Insert(y, tail));
      InsertBelow(y, head, Insert(x, tail));
      InsertCommutes(x, y, tail);
    }
  }

  lemma {:induction false} NewestFirstRemove(a: seq<Login>, row: Login, b: seq<Login>)
    ensures NewestFirst(a + [row] + b) == Insert(row.at, NewestFirst(a + b))
  {
    if b == [] {
      assert a + [row] + b == a + [row] && a + b == a;
      NewestFirstSnoc(a, row);
    } else {
      var n := |b| - 1;
      assert a + [row] + b == (a + [row] + b[..n]) + [b[n]];
      assert a + b == (a + b[..n]) + [b[n]];
      NewestFirstSnoc(a + [row] + b[..n], b[n]);
      NewestFirstSnoc(a + b[..n], b[n]);
      NewestFirstRemove(a, row, b[..n]);
      if row.at <= b[n].at {
        InsertCommutes(row.at, b[n].at, NewestFirst(a + b[..n]));
      } else {
        InsertCommutes(b[n].at, row.at, NewestFirst(a + b[..n]));
      }
    }
  }

  lemma NewestFirstSnoc(rows: seq<Login>, row: Login)
    ensures NewestFirst(rows + [row]) == Insert(row.at, NewestFirst(rows))
  {
    assert (rows + [row])[..|rows|] == rows;
  }

  /** Splits a sequence around an occurrence of an element of another with the same contents. */
  lemma SplitAt<T>(a: seq<T>, b: seq<T>) returns (k: nat)
    requires a != [] && multiset(a) == multiset(b)
    ensures k < |b| && b[k] == a[|a| - 1]
    ensures b == b[..k] + [b[k]] + b[k + 1..]
    ensures multiset(a[..|a| - 1]) == multiset(b[..k] + b[k + 1..])
  {
    var x := a[|a| - 1];
    assert a == a[..|a| - 1] + [x];
    assert x in multiset(a);
    assert x in b;
    k :| 0 <= k < |b| && b[k] == x;
    assert b == b[..k] + [b[k]] + b[k + 1..];
    assert multiset(b) == multiset(b[..k]) + multiset{x} + multiset(b[k + 1..]);
    assert multiset(a) == multiset(a[..|a| - 1]) + multiset{x};
    assert multiset(a[..|a| - 1]) == multiset(a) - multiset{x};
    assert multiset(b[..k] + b[k + 1..]) == multiset(b) - multiset{x};
  }

  lemma {:induction false} OrderIrrelevant(a: seq<Login>, b: seq<Login>)
    requires multiset(a) == multiset(b)
    ensures NewestFirst(a) == NewestFirst(b)
    ensures forall q :: Count(a, q) == Count(b, q)
    decreases |a|
  {
    if a == [] {
      assert |b| == |multiset(b)| == 0;
    } else {
      var k := SplitAt(a, b);
      var rest := b[..k] + b[k + 1..];
      OrderIrrelevant(a[..|a| - 1], rest);
      NewestFirstRemove(b[..k], b[k], b[k + 1..]);
      forall q ensures Count(a, q) == Count(b, q) {
        CountConcat(b[..k], [b[k]], q);
        CountConcat(b[..k] + [b[k]], b[k + 1..], q);
        CountConcat(b[..k], b[k + 1..], q);
        assert Count(a[..|a| - 1], q) == Count(rest, q);
        assert [b[k]][..0] == [];
      }
    }
  }

  lemma SameAnswers(a: seq<Login>, b: seq<Login>, attempt: Login)
    requires NewestFirst(a) == NewestFirst(b) && forall q :: Count(a, q) == Count(b, q)
    ensures Recent(a) == Recent(b) && NewDevice(a, attempt) == NewDevice(b, attempt)
    ensures Count(a, FailuresSince(attempt.at - DAY)) == Count(b, FailuresSince(attempt.at - DAY))
    ensures IpChangeRate(a, attempt) == IpChangeRate(b, attempt)
  {
    var week := attempt.at - 7 * DAY;
    assert Count(a, AllSince(week)) == Count(b, AllSince(week));
    assert Count(a, FromIpSince(week, attempt.ip)) == Count(b, FromIpSince(week, attempt.ip));
  }

  /**
   Causality: two databases that hold the same relevant rows - same user, strictly
   earlier - in any order give the attempt the same six features.
   */
  lemma FeaturesDependOnlyOnThePast(rows1: seq<Login>, rows2: seq<Login>, attempt: Login)
    requires multiset(History(rows1, attempt)) == multiset(History(rows2, attempt))
    ensures Build(rows1, attempt) == Build(rows2, attempt)
  {
    var a, b := History(rows1, attempt), History(rows2, attempt);
    OrderIrrelevant(a, b);
    SameAnswers(a, b, attempt);
  }

  /** A later, simultaneous or other-user row changes nothing, wherever the database returns it. */
  lemma IrrelevantRowIgnored(before: seq<Login>, row: Login, after: seq<Login>, attempt: Login)
    requires !Relevant(row, attempt)
    ensures Build(before + [row] + after, attempt) == Build(before + after, attempt)
  {
    HistoryConcat(before, [row], attempt);
    HistoryConcat(before + [row], after, attempt);
    HistoryConcat(before, after, attempt);
    assert History([row], attempt) == History([row][..0], attempt) == [];
    assert History(before, attempt) + [] == History(before, attempt);
  }
}
