/** The health-log service of the backend: the table of daily logs keyed by
    (user, date), the validated "today" upsert, and the three read queries
    (newest logs oldest-first, latest log, windowed statistics).
    SQL statements are modelled as filters and sorts over the table's rows;
    dates are day numbers and "today" is a parameter. */
module HealthStore {
  import opened HealthTypes

  /** One row of `health_logs`. */
  datatype Row = Row(id: nat, userId: nat, logDate: int, steps: int, sleepHours: real, calories: int)

  /** The columns the API returns for a row. */
  function Entry(r: Row): LogEntry
  {
    LogEntry(r.id, r.steps, r.sleepHours, r.calories, r.logDate)
  }

  function MetricsOf(r: Row): Metrics
  {
    Metrics(r.steps, r.sleepHours, r.calories)
  }

  function WithMetrics(r: Row, m: Metrics): Row
  {
    r.(steps := m.steps, sleepHours := m.sleepHours, calories := m.calories)
  }

  /** The table's contents and the next auto-increment identifier. */
  datatype Table = Table(rows: seq<Row>, nextId: nat)

  /** Identifiers are distinct and all below the next one to be assigned. */
  ghost predicate IdsFresh(t: Table)
  {
    && (forall i :: 0 <= i < |t.rows| ==> t.rows[i].id < t.nextId)
    && (forall i, j :: 0 <= i < j < |t.rows| ==> t.rows[i].id != t.rows[j].id)
  }

  /** At most one row per (user, date): the service's intended invariant. */
  ghost predicate OneRowPerDay(rows: seq<Row>)
  {
    forall i, j :: 0 <= i < j < |rows| ==> !OnDay(rows[j], rows[i].userId, rows[i].logDate)
  }

  // ---------------------------------------------------------------------
  // Selections
  // ---------------------------------------------------------------------

  predicate OnDay(r: Row, userId: nat, day: int)
  {
    r.userId == userId && r.logDate == day
  }

  /** `WHERE user_id = ? AND DATE(log_date) = ?`, in table order. */
  function RowsOn(rows: seq<Row>, userId: nat, day: int): (r: seq<Row>)
    ensures |r| <= |rows|
  {
    if rows == [] then []
    else (if OnDay(rows[0], userId, day) then [rows[0]] else []) + RowsOn(rows[1..], userId, day)
  }

  /** The rows selected are exactly the table's rows of that user and day. */
  lemma {:induction false} RowsOnMembers(rows: seq<Row>, userId: nat, day: int)
    ensures forall x :: x in RowsOn(rows, userId, day) <==> x in rows && OnDay(x, userId, day)
  {
    if rows != [] {
      RowsOnMembers(rows[1..], userId, day);
      assert forall x :: x in rows <==> x == rows[0] || x in rows[1..];
    }
  }

  /** `WHERE user_id = ?`, in table order. */
  function OfUser(rows: seq<Row>, userId: nat): (r: seq<Row>)
    ensures |r| <= |rows|
    ensures forall x :: x in r <==> x in rows && x.userId == userId
  {
    if rows == [] then []
    else (if rows[0].userId == userId then [rows[0]] else []) + OfUser(rows[1..], userId)
  }

  /** `WHERE user_id = ? AND log_date >= from`, in table order. */
  function Window(rows: seq<Row>, userId: nat, from: int): (r: seq<Row>)
    ensures |r| <= |rows|
    ensures forall x :: x in r <==> x in rows && x.userId == userId && x.logDate >= from
  {
    if rows == [] then []
    else (if rows[0].userId == userId && rows[0].logDate >= from then [rows[0]] else [])
         + Window(rows[1..], userId, from)
  }

  // ---------------------------------------------------------------------
  // addHealthLog
  // ---------------------------------------------------------------------

  /** The request body; `None` is a field that is `undefined`. */
  datatype Submission = Submission(steps: Option<int>, sleepHours: Option<real>, calories: Option<int>)

  datatype AddResponse = AddResponse(status: nat, success: bool, message: string, log: Option<LogEntry>)

  datatype AddOutcome = AddOutcome(table: Table, response: AddResponse)

  const MissingFieldsMessage := "Please provide all required fields: steps, sleep_hours, calories"
  const NegativeValuesMessage := "Values cannot be negative"
  const UpdatedMessage := "Health log updated successfully"
  const AddedMessage := "Health log added successfully"

  predicate Complete(sub: Submission)
  {
    sub.steps.Some? && sub.sleepHours.Some? && sub.calories.Some?
  }

  predicate Accepted(sub: Submission)
  {
    Complete(sub) && sub.steps.value >= 0 && sub.sleepHours.value >= 0.0 && sub.calories.value >= 0
  }

  function Submitted(sub: Submission): Metrics
    requires Complete(sub)
  {
    Metrics(sub.steps.value, sub.sleepHours.value, sub.calories.value)
  }

  /** `UPDATE health_logs SET steps, sleep_hours, calories WHERE user_id = ? AND DATE(log_date) = ?` */
  function Overwrite(rows: seq<Row>, userId: nat, day: int, m: Metrics): (r: seq<Row>)
    ensures |r| == |rows|
    ensures forall i :: 0 <= i < |rows| ==>
      r[i] == if OnDay(rows[i], userId, day) then WithMetrics(rows[i], m) else rows[i]
  {
    if rows == [] then []
    else [if OnDay(rows[0], userId, day) then WithMetrics(rows[0], m) else rows[0]]
         + Overwrite(rows[1..], userId, day, m)
  }

  /** addHealthLog for the user `userId` on the day `today`: validation, then
      the read-then-write upsert. */
  function AddLog(t: Table, userId: nat, sub: Submission, today: int): (out: AddOutcome)
    ensures !Complete(sub) ==>
      out == AddOutcome(t, AddResponse(400, false, MissingFieldsMessage, None))
    ensures Complete(sub) && !Accepted(sub) ==>
      out == AddOutcome(t, AddResponse(400, false, NegativeValuesMessage, None))
    ensures out.response.status == 400 <==> !Accepted(sub)
    ensures out.response.success <==> Accepted(sub)
    // an existing row for today: every such row takes the new values, none is added
    ensures Accepted(sub) && RowsOn(t.rows, userId, today) != [] ==>
      && out.response.status == 200
      && out.response.log == Some(Entry(WithMetrics(RowsOn(t.rows, userId, today)[0], Submitted(sub))))
      && out.table.nextId == t.nextId
      && |out.table.rows| == |t.rows|
      && forall i :: 0 <= i < |t.rows| && OnDay(t.rows[i], userId, today) ==>
           out.table.rows[i] == WithMetrics(t.rows[i], Submitted(sub))
    // no row for today: exactly one row is appended, with the next identifier
    ensures Accepted(sub) && RowsOn(t.rows, userId, today) == [] ==>
      && out.response.status == 201
      && out.table.nextId == t.nextId + 1
      && |out.table.rows| == |t.rows| + 1
      && out.table.rows[..|t.rows|] == t.rows
      && out.table.rows[|t.rows|] == WithMetrics(Row(t.nextId, userId, today, 0, 0.0, 0), Submitted(sub))
      && out.response.log == Some(Entry(out.table.rows[|t.rows|]))
    // rows of other users and other days are untouched
    ensures forall i :: 0 <= i < |t.rows| && !OnDay(t.rows[i], userId, today) ==>
      i < |out.table.rows| && out.table.rows[i] == t.rows[i]
  {
    if !Complete(sub) then
      AddOutcome(t, AddResponse(400, false, MissingFieldsMessage, None))
    else if !Accepted(sub) then
      AddOutcome(t, AddResponse(400, false, NegativeValuesMessage, None))
    else
      var m := Submitted(sub);
      var existing := RowsOn(t.rows, userId, today);
      if |existing| > 0 then
        RowsOnMembers(t.rows, userId, today);
        assert existing[0] in existing;
        AddOutcome(Table(Overwrite(t.rows, userId, today, m), t.nextId),
                   AddResponse(200, true, UpdatedMessage,
                               Some(LogEntry(existing[0].id, m.steps, m.sleepHours, m.calories, today))))
      else
        AddOutcome(Table(t.rows + [Row(t.nextId, userId, today, m.steps, m.sleepHours, m.calories)], t.nextId + 1),
                   AddResponse(201, true, AddedMessage,
                               Some(LogEntry(t.nextId, m.steps, m.sleepHours, m.calories, today))))
  }

  lemma {:induction false} RowsOnAppend(a: seq<Row>, b: seq<Row>, userId: nat, day: int)
    ensures RowsOn(a + b, userId, day) == RowsOn(a, userId, day) + RowsOn(b, userId, day)
  {
    if a != [] {
      var head := if OnDay(a[0], userId, day) then [a[0]] else [];
      assert (a + b)[0] == a[0];
      assert (a + b)[1..] == a[1..] + b;
      RowsOnAppend(a[1..], b, userId, day);
      calc {
        RowsOn(a + b, userId, day);
        head + RowsOn(a[1..] + b, userId, day);
        head + (RowsOn(a[1..], userId, day) + RowsOn(b, userId, day));
        (head + RowsOn(a[1..], userId, day)) + RowsOn(b, userId, day);
      }
    } else {
      assert a + b == b;
    }
  }

  /** The UPDATE keeps the number of rows on the day and gives each the new values. */
  lemma {:induction false} RowsOnOverwrite(rows: seq<Row>, userId: nat, day: int, m: Metrics)
    ensures |RowsOn(Overwrite(rows, userId, day, m), userId, day)| == |RowsOn(rows, userId, day)|
    ensures forall x :: x in RowsOn(Overwrite(rows, userId, day, m), userId, day) ==> MetricsOf(x) == m
  {
    if rows != [] {
      var w := Overwrite(rows, userId, day, m);
      assert w[1..] == Overwrite(rows[1..], userId, day, m);
      RowsOnOverwrite(rows[1..], userId, day, m);
    }
  }

  /** Two accepted submissions on the same day, from a table holding at most
      one row for that day, leave exactly one row holding the second values
      (last write wins). */
  lemma SameDayTwiceKeepsLast(t: Table, userId: nat, first: Submission, second: Submission, today: int)
    requires Accepted(first) && Accepted(second)
    requires |RowsOn(t.rows, userId, today)| <= 1
    ensures |RowsOn(AddLog(AddLog(t, userId, first, today).table, userId, second, today).table.rows, userId, today)| == 1
    ensures MetricsOf(RowsOn(AddLog(AddLog(t, userId, first, today).table, userId, second, today).table.rows, userId, today)[0])
            == Submitted(second)
  {
    var t1 := AddLog(t, userId, first, today).table;
    var t2 := AddLog(t1, userId, second, today).table;
    if RowsOn(t.rows, userId, today) == [] {
      var added := Row(t.nextId, userId, today, first.steps.value, first.sleepHours.value, first.calories.value);
      assert t1.rows == t.rows + [added];
      RowsOnAppend(t.rows, [added], userId, today);
      assert RowsOn([added], userId, today) == [added];
      assert RowsOn(t1.rows, userId, today) == [added];
    } else {
      RowsOnOverwrite(t.rows, userId, today, Submitted(first));
    }
    assert |RowsOn(t1.rows, userId, today)| == 1;
    RowsOnOverwrite(t1.rows, userId, today, Submitted(second));
    assert RowsOn(t2.rows, userId, today)[0] in RowsOn(t2.rows, userId, today);
  }

  /** Sequentially applied, the upsert keeps at most one row per (user, date). */
  lemma AddLogKeepsOneRowPerDay(t: Table, userId: nat, sub: Submission, today: int)
    requires OneRowPerDay(t.rows)
    ensures OneRowPerDay(AddLog(t, userId, sub, today).table.rows)
  {
    var out := AddLog(t, userId, sub, today);
    if Accepted(sub) && RowsOn(t.rows, userId, today) == [] {
      RowsOnMembers(t.rows, userId, today);
      var rows := out.table.rows;
      forall i, j | 0 <= i < j < |rows|
        ensures !OnDay(rows[j], rows[i].userId, rows[i].logDate)
      {
        if j == |t.rows| {
          assert rows[i] == t.rows[i];
          assert t.rows[i] !in RowsOn(t.rows, userId, today);
        }
      }
    }
  }

  /** The upsert keeps identifiers distinct and below the next one. */
  lemma AddLogKeepsIdsFresh(t: Table, userId: nat, sub: Submission, today: int)
    requires IdsFresh(t)
    ensures IdsFresh(AddLog(t, userId, sub, today).table)
  {
  }

  // ---------------------------------------------------------------------
  // ORDER BY log_date DESC
  // ---------------------------------------------------------------------

  ghost predicate NewestFirstOrder(s: seq<Row>)
  {
    forall i, j :: 0 <= i < j < |s| ==> s[j].logDate <= s[i].logDate
  }

  function InsertByDate(x: Row, s: seq<Row>): (r: seq<Row>)
    requires NewestFirstOrder(s)
    ensures NewestFirstOrder(r)
    ensures multiset(r) == multiset(s) + multiset{x}
    ensures |r| == |s| + 1
  {
    if s == [] || s[0].logDate <= x.logDate then
      ConsKeepsOrder(x, s);
      [x] + s
    else
      var rest := InsertByDate(x, s[1..]);
      assert s == [s[0]] + s[1..];
      InsertKeepsBound(x, s[1..], rest, s[0].logDate);
      ConsKeepsOrder(s[0], rest);
      [s[0]] + rest
  }

  lemma ConsKeepsOrder(h: Row, s: seq<Row>)
    requires NewestFirstOrder(s)
    requires forall i :: 0 <= i < |s| ==> s[i].logDate <= h.logDate
    ensures NewestFirstOrder([h] + s)
  {
    var r := [h] + s;
    forall i, j | 0 <= i < j < |r| ensures r[j].logDate <= r[i].logDate {
      assert r[j] == s[j - 1];
      if i > 0 {
        assert r[i] == s[i - 1];
      }
    }
  }

  lemma InsertKeepsBound(x: Row, s: seq<Row>, r: seq<Row>, bound: int)
    requires multiset(r) == multiset(s) + multiset{x}
    requires x.logDate <= bound
    requires forall i :: 0 <= i < |s| ==> s[i].logDate <= bound
    ensures forall i :: 0 <= i < |r| ==> r[i].logDate <= bound
  {
    forall i | 0 <= i < |r| ensures r[i].logDate <= bound {
      assert r[i] in multiset(r);
      if r[i] != x {
        assert r[i] in multiset(s);
      }
    }
  }

  /** A stable sort, newest first: rows of the same date keep table order. */
  function SortNewestFirst(s: seq<Row>): (r: seq<Row>)
    ensures NewestFirstOrder(r)
    ensures multiset(r) == multiset(s)
    ensures |r| == |s|
  {
    if s == [] then []
    else
      assert s == [s[0]] + s[1..];
      InsertByDate(s[0], SortNewestFirst(s[1..]))
  }

  /** `SELECT ... WHERE user_id = ? ORDER BY log_date DESC` */
  function NewestFirst(rows: seq<Row>, userId: nat): seq<Row>
  {
    SortNewestFirst(OfUser(rows, userId))
  }

  /** `LIMIT n` */
  function Take<T>(s: seq<T>, n: nat): (r: seq<T>)
    ensures |r| == Min(n, |s|) && forall q :: 0 <= q < |r| ==> r[q] == s[q]
  {
    if n <= |s| then s[..n] else s
  }

  // ---------------------------------------------------------------------
  // getHealthLogs, getLatestLog, getHealthStats
  // ---------------------------------------------------------------------

  /** A query-string parameter after `parseInt`. */
  datatype QueryParam = Absent | Given(n: int) | NotANumber

  /** The `limit` of getHealthLogs: 30 by default; `LIMIT NaN` and a negative
      `LIMIT` are SQL errors. */
  function LimitOf(p: QueryParam): Option<nat>
  {
    match p
    case Absent => Some(30)
    case Given(n) => if n >= 0 then Some(n) else None
    case NotANumber => None
  }

  /** The API columns of each selected row, in order. */
  function Entries(w: seq<Row>): (r: seq<LogEntry>)
    ensures |r| == |w| && forall k :: 0 <= k < |w| ==> r[k] == Entry(w[k])
  {
    seq(|w|, k requires 0 <= k < |w| => Entry(w[k]))
  }

  /** `Array.prototype.reverse` on a sequence. */
  function Reversed<T>(s: seq<T>): (r: seq<T>)
    ensures |r| == |s| && forall k :: 0 <= k < |s| ==> r[k] == s[|s| - 1 - k]
  {
    seq(|s|, k requires 0 <= k < |s| => s[|s| - 1 - k])
  }

  /** Reversing twice gives back the original order. */
  lemma ReversedTwice<T>(s: seq<T>)
    ensures Reversed(Reversed(s)) == s
  {
    assert forall k :: 0 <= k < |s| ==> Reversed(Reversed(s))[k] == s[k];
  }

  /** The rows getHealthLogs returns: the newest `n` of the user, oldest first. */
  function RecentLogs(rows: seq<Row>, userId: nat, n: nat): seq<LogEntry>
  {
    Reversed(Entries(Take(NewestFirst(rows, userId), n)))
  }

  /** Entry k of the result is the row k places from the end of the newest `n`. */
  lemma RecentLogsAt(rows: seq<Row>, userId: nat, n: nat)
    ensures var w := Take(NewestFirst(rows, userId), n);
      && |RecentLogs(rows, userId, n)| == |w|
      && forall k :: 0 <= k < |w| ==> RecentLogs(rows, userId, n)[k] == Entry(w[|w| - 1 - k])
  {
  }

  /** Each of the newest `n` rows is returned. */
  lemma NewestAreReturned(rows: seq<Row>, userId: nat, n: nat)
    ensures forall q :: 0 <= q < Min(n, |NewestFirst(rows, userId)|) ==>
      Entry(NewestFirst(rows, userId)[q]) in RecentLogs(rows, userId, n)
  {
    var w := Take(NewestFirst(rows, userId), n);
    var r := RecentLogs(rows, userId, n);
    forall q | 0 <= q < |w| ensures Entry(w[q]) in r {
      assert r[|w| - 1 - q] == Entry(w[q]);
    }
  }

  /** getHealthLogs returns min(limit, number of the user's rows) entries. */
  lemma RecentLogsCount(rows: seq<Row>, userId: nat, n: nat)
    ensures |RecentLogs(rows, userId, n)| == Min(n, |OfUser(rows, userId)|)
  {
  }

  /** The entries are in non-decreasing date order. */
  lemma RecentLogsOldestFirst(rows: seq<Row>, userId: nat, n: nat)
    ensures forall i, j :: 0 <= i < j < |RecentLogs(rows, userId, n)| ==>
      RecentLogs(rows, userId, n)[i].logDate <= RecentLogs(rows, userId, n)[j].logDate
  {
    var sorted := NewestFirst(rows, userId);
    var w := Take(sorted, n);
    var r := RecentLogs(rows, userId, n);
    RecentLogsAt(rows, userId, n);
    assert NewestFirstOrder(sorted);
    forall i, j | 0 <= i < j < |r| ensures r[i].logDate <= r[j].logDate {
      assert r[i].logDate == sorted[|w| - 1 - i].logDate;
      assert r[j].logDate == sorted[|w| - 1 - j].logDate;
    }
  }

  /** The rows of the newest-first order are the user's rows. */
  lemma NewestFirstOwned(rows: seq<Row>, userId: nat, p: nat)
    requires p < |NewestFirst(rows, userId)|
    ensures NewestFirst(rows, userId)[p] in rows && NewestFirst(rows, userId)[p].userId == userId
  {
    var sorted := NewestFirst(rows, userId);
    assert sorted[p] in multiset(sorted);
    assert sorted[p] in multiset(OfUser(rows, userId));
  }

  /** Each of the user's rows has a place in the newest-first order. */
  lemma NewestFirstComplete(rows: seq<Row>, userId: nat, x: Row)
    requires x in rows && x.userId == userId
    ensures exists p :: 0 <= p < |NewestFirst(rows, userId)| && NewestFirst(rows, userId)[p] == x
  {
    assert x in OfUser(rows, userId);
    assert x in multiset(OfUser(rows, userId));
    assert x in multiset(NewestFirst(rows, userId));
  }

  /** Every entry is one of the user's rows. */
  lemma RecentLogsOwned(rows: seq<Row>, userId: nat, n: nat)
    ensures forall e :: e in RecentLogs(rows, userId, n) ==>
      exists x :: x in rows && x.userId == userId && e == Entry(x)
  {
    var w := Take(NewestFirst(rows, userId), n);
    var r := RecentLogs(rows, userId, n);
    forall e | e in r ensures exists x :: x in rows && x.userId == userId && e == Entry(x) {
      var k :| 0 <= k < |r| && r[k] == e;
      NewestFirstOwned(rows, userId, |w| - 1 - k);
      assert e == Entry(w[|w| - 1 - k]);
    }
  }

  lemma RecentLogsMostRecentAt(rows: seq<Row>, userId: nat, n: nat, x: Row, k: nat)
    requires x in rows && x.userId == userId && Entry(x) !in RecentLogs(rows, userId, n)
    requires k < |RecentLogs(rows, userId, n)|
    ensures x.logDate <= RecentLogs(rows, userId, n)[k].logDate
  {
    var sorted := NewestFirst(rows, userId);
    var w := Take(sorted, n);
    NewestFirstComplete(rows, userId, x);
    var p :| 0 <= p < |sorted| && sorted[p] == x;
    NewestAreReturned(rows, userId, n);
    assert |w| <= p;
    RecentLogDate(rows, userId, n, k);
    assert NewestFirstOrder(sorted);
  }

  /** Entry k of the result has the date of the row k places from the end of the newest `n`. */
  lemma RecentLogDate(rows: seq<Row>, userId: nat, n: nat, k: nat)
    requires k < |RecentLogs(rows, userId, n)|
    ensures var sorted := NewestFirst(rows, userId);
      && |RecentLogs(rows, userId, n)| <= |sorted|
      && RecentLogs(rows, userId, n)[k].logDate == sorted[|RecentLogs(rows, userId, n)| - 1 - k].logDate
  {
    RecentLogsAt(rows, userId, n);
  }

  /** They are the most recent ones: every row of the user left out is no newer
      than any entry returned. */
  lemma RecentLogsMostRecent(rows: seq<Row>, userId: nat, n: nat)
    ensures forall x, k ::
      (x in rows && x.userId == userId && Entry(x) !in RecentLogs(rows, userId, n) && 0 <= k < |RecentLogs(rows, userId, n)|)
      ==> x.logDate <= RecentLogs(rows, userId, n)[k].logDate
  {
    forall x, k | x in rows && x.userId == userId && Entry(x) !in RecentLogs(rows, userId, n) && 0 <= k < |RecentLogs(rows, userId, n)|
      ensures x.logDate <= RecentLogs(rows, userId, n)[k].logDate
    {
      RecentLogsMostRecentAt(rows, userId, n, x, k);
    }
  }

  datatype LatestResponse = LatestResponse(success: bool, log: Option<LogEntry>, message: Option<string>)

  const NoLogsMessage := "No logs found"

  /** The first row of the newest-first order, or `None`. */
  function Newest(rows: seq<Row>, userId: nat): (r: Option<Row>)
    ensures r.None? <==> forall x :: x in rows ==> x.userId != userId
    ensures r.Some? ==> r.value in rows && r.value.userId == userId
    ensures r.Some? ==> forall y :: y in rows && y.userId == userId ==> y.logDate <= r.value.logDate
  {
    var sorted := NewestFirst(rows, userId);
    if |sorted| == 0 then
      assert OfUser(rows, userId) == [];
      None
    else
      NewestFirstOwned(rows, userId, 0);
      NewestFirstTop(rows, userId);
      Some(sorted[0])
  }

  /** The first row of the newest-first order is at least as recent as every row of the user. */
  lemma NewestFirstTop(rows: seq<Row>, userId: nat)
    requires |NewestFirst(rows, userId)| > 0
    ensures forall y :: y in rows && y.userId == userId ==> y.logDate <= NewestFirst(rows, userId)[0].logDate
  {
    var sorted := NewestFirst(rows, userId);
    forall y | y in rows && y.userId == userId ensures y.logDate <= sorted[0].logDate {
      NewestFirstComplete(rows, userId, y);
      var p :| 0 <= p < |sorted| && sorted[p] == y;
      if p > 0 {
        assert NewestFirstOrder(sorted);
      }
    }
  }

  /** getLatestLog: success with a null log when the user has no rows. */
  function LatestLog(rows: seq<Row>, userId: nat): (resp: LatestResponse)
    ensures resp.success
    ensures resp.log.None? <==> forall x :: x in rows ==> x.userId != userId
    ensures resp.log.Some? ==> exists x :: (x in rows && x.userId == userId && resp.log.value == Entry(x)
      && forall y :: y in rows && y.userId == userId ==> y.logDate <= x.logDate)
  {
    match Newest(rows, userId)
    case None => LatestResponse(true, None, Some(NoLogsMessage))
    case Some(x) => LatestResponse(true, Some(Entry(x)), None)
  }

  /** The aggregate row of getHealthStats; SQL NULL is `None`. */
  datatype Stats = Stats(avgSteps: Option<real>, avgSleep: Option<real>, avgCalories: Option<real>,
                         maxSteps: Option<int>, minSteps: Option<int>, totalLogs: nat)

  datatype StatsResponse = StatsOk(stats: Stats) | StatsFailed(message: string)

  const StatsErrorMessage := "Server error while fetching statistics"

  function SumSteps(w: seq<Row>): int
  {
    if w == [] then 0 else w[0].steps + SumSteps(w[1..])
  }

  function SumSleep(w: seq<Row>): real
  {
    if w == [] then 0.0 else w[0].sleepHours + SumSleep(w[1..])
  }

  function SumCalories(w: seq<Row>): int
  {
    if w == [] then 0 else w[0].calories + SumCalories(w[1..])
  }

  /** `MAX(steps)` */
  function MaxSteps(w: seq<Row>): (m: int)
    requires w != []
    ensures exists i :: 0 <= i < |w| && w[i].steps == m
    ensures forall i :: 0 <= i < |w| ==> w[i].steps <= m
  {
    if |w| == 1 then w[0].steps
    else
      var rest := MaxSteps(w[1..]);
      assert forall i :: 1 <= i < |w| ==> w[i] == w[1..][i - 1];
      Max(w[0].steps, rest)
  }

  /** `MIN(steps)` */
  function MinSteps(w: seq<Row>): (m: int)
    requires w != []
    ensures exists i :: 0 <= i < |w| && w[i].steps == m
    ensures forall i :: 0 <= i < |w| ==> m <= w[i].steps
  {
    if |w| == 1 then w[0].steps
    else
      var rest := MinSteps(w[1..]);
      assert forall i :: 1 <= i < |w| ==> w[i] == w[1..][i - 1];
      Min(w[0].steps, rest)
  }

  /** `AVG`: the sum divided by the number of rows. */
  function Mean(sum: real, count: nat): real
    requires count > 0
  {
    sum / count as real
  }

  /** AVG, MAX, MIN and COUNT over the selected rows. */
  function Aggregate(w: seq<Row>): Stats
  {
    if w == [] then Stats(None, None, None, None, None, 0)
    else
      Stats(Some(Mean(SumSteps(w) as real, |w|)), Some(Mean(SumSleep(w), |w|)), Some(Mean(SumCalories(w) as real, |w|)),
            Some(MaxSteps(w)), Some(MinSteps(w)), |w|)
  }

  /** The `days` of getHealthStats: 7 by default; `INTERVAL NaN DAY` is an SQL error. */
  function DaysOf(p: QueryParam): Option<int>
  {
    match p
    case Absent => Some(7)
    case Given(n) => Some(n)
    case NotANumber => None
  }

  /** getHealthStats over the rows dated on or after `today - days`. */
  function HealthStats(rows: seq<Row>, userId: nat, today: int, days: QueryParam): (resp: StatsResponse)
    ensures resp.StatsFailed? <==> days.NotANumber?
    ensures resp.StatsFailed? ==> resp.message == StatsErrorMessage
    ensures resp.StatsOk? ==> resp.stats == Aggregate(Window(rows, userId, today - DaysOf(days).value))
  {
    if days.NotANumber? then StatsFailed(StatsErrorMessage)
    else StatsOk(Aggregate(Window(rows, userId, today - DaysOf(days).value)))
  }

  lemma {:induction false} SumStepsBounds(w: seq<Row>, lo: int, hi: int)
    requires forall i :: 0 <= i < |w| ==> lo <= w[i].steps <= hi
    ensures |w| * lo <= SumSteps(w) <= |w| * hi
  {
    if w != [] {
      assert forall i :: 0 <= i < |w| - 1 ==> w[1..][i] == w[i + 1];
      SumStepsBounds(w[1..], lo, hi);
      var m := |w[1..]|;
      assert SumSteps(w) == w[0].steps + SumSteps(w[1..]);
      assert (m + 1) * lo == m * lo + lo && (m + 1) * hi == m * hi + hi;
      assert |w| == m + 1;
    }
  }

  lemma CastProduct(n: int, k: int)
    ensures (n * k) as real == (n as real) * (k as real)
  {
  }

  /** An average of values bounded by `lo` and `hi` is bounded by them too. */
  lemma MeanBetween(sum: int, n: nat, lo: int, hi: int)
    requires n > 0 && n * lo <= sum <= n * hi
    ensures lo as real <= Mean(sum as real, n) <= hi as real
  {
    CastProduct(n, lo);
    CastProduct(n, hi);
    DivideBetween(sum as real, n as real, lo as real, hi as real);
  }

  lemma MeanStepsBetween(w: seq<Row>)
    requires w != []
    ensures MinSteps(w) as real <= Mean(SumSteps(w) as real, |w|) <= MaxSteps(w) as real
  {
    SumStepsBounds(w, MinSteps(w), MaxSteps(w));
    MeanBetween(SumSteps(w), |w|, MinSteps(w), MaxSteps(w));
  }

  /** Over a non-empty window MIN <= AVG <= MAX, and every step count lies in [MIN, MAX]. */
  lemma StatsStepsRange(w: seq<Row>)
    requires w != []
    ensures Aggregate(w).minSteps.value <= Aggregate(w).maxSteps.value
    ensures Aggregate(w).minSteps.value as real <= Aggregate(w).avgSteps.value <= Aggregate(w).maxSteps.value as real
    ensures forall x :: x in w ==> Aggregate(w).minSteps.value <= x.steps <= Aggregate(w).maxSteps.value
  {
    MeanStepsBetween(w);
    forall x | x in w ensures MinSteps(w) <= x.steps <= MaxSteps(w) {
      var i :| 0 <= i < |w| && w[i] == x;
    }
  }

  /** A new user's first log {8000, 7.5, 2000} is created with status 201, is
      the latest log with today's date, and gives avg_steps 8000 over 7 days. */
  lemma FirstLogScenario(userId: nat, today: int)
    ensures var out := AddLog(Table([], 1), userId, Submission(Some(8000), Some(7.5), Some(2000)), today);
      && out.response.status == 201
      && LatestLog(out.table.rows, userId).log == Some(LogEntry(1, 8000, 7.5, 2000, today))
      && HealthStats(out.table.rows, userId, today, Absent).stats.avgSteps == Some(8000.0)
      && HealthStats(out.table.rows, userId, today, Absent).stats.totalLogs == 1
  {
    var out := AddLog(Table([], 1), userId, Submission(Some(8000), Some(7.5), Some(2000)), today);
    var r := Row(1, userId, today, 8000, 7.5, 2000);
    assert out.table.rows == [r];
    assert OfUser([r], userId) == [r];
    assert Window([r], userId, today - 7) == [r];
    assert SumSteps([r]) == 8000;
    assert Mean(8000 as real, 1) == 8000.0;
    assert Aggregate([r]).avgSteps == Some(8000.0);
  }

  /** Reverses an array in place by swapping from both ends towards the middle. */
  method ReverseInPlace<T>(a: array<T>)
    modifies a
    ensures a[..] == Reversed(old(a[..]))
  {
    var i := 0;
    while i < a.Length / 2
      invariant 0 <= i <= a.Length / 2
      invariant forall k :: 0 <= k < i ==> a[k] == old(a[a.Length - 1 - k]) && a[a.Length - 1 - k] == old(a[k])
      invariant forall k :: i <= k < a.Length - i ==> a[k] == old(a[k])
    {
      a[i], a[a.Length - 1 - i] := a[a.Length - 1 - i], a[i];
      i := i + 1;
    }
    assert forall k :: 0 <= k < a.Length ==> a[k] == old(a[..])[a.Length - 1 - k];
  }

  // ---------------------------------------------------------------------
  // The table
  // ---------------------------------------------------------------------

  datatype LogsResponse = LogsOk(count: nat, logs: seq<LogEntry>) | LogsFailed(message: string)

  const LogsErrorMessage := "Server error while fetching health logs"

  class HealthLogTable {
    var rows: seq<Row>
    var nextId: nat

    ghost predicate Valid()
      reads this
    {
      IdsFresh(Table(rows, nextId))
    }

    constructor ()
      ensures Valid() && rows == [] && nextId == 1
    {
      rows := [];
      nextId := 1;
    }

    /** addHealthLog: validate, look up today's rows, then UPDATE them in place or INSERT one. */
    method AddHealthLog(userId: nat, sub: Submission, today: int) returns (resp: AddResponse)
      requires Valid()
      modifies this
      ensures Valid()
      ensures AddOutcome(Table(rows, nextId), resp) == AddLog(old(Table(rows, nextId)), userId, sub, today)
    {
      ghost var before := Table(rows, nextId);
      AddLogKeepsIdsFresh(before, userId, sub, today);
      if sub.steps.None? || sub.sleepHours.None? || sub.calories.None? {
        return AddResponse(400, false, MissingFieldsMessage, None);
      }
      if sub.steps.value < 0 || sub.sleepHours.value < 0.0 || sub.calories.value < 0 {
        return AddResponse(400, false, NegativeValuesMessage, None);
      }
      var m := Metrics(sub.steps.value, sub.sleepHours.value, sub.calories.value);
      var existing := RowsOn(rows, userId, today);
      if |existing| > 0 {
        rows := Overwrite(rows, userId, today, m);
        resp := AddResponse(200, true, UpdatedMessage,
                            Some(LogEntry(existing[0].id, m.steps, m.sleepHours, m.calories, today)));
      } else {
        rows := rows + [Row(nextId, userId, today, m.steps, m.sleepHours, m.calories)];
        resp := AddResponse(201, true, AddedMessage,
                            Some(LogEntry(nextId, m.steps, m.sleepHours, m.calories, today)));
        nextId := nextId + 1;
      }
    }

    /** getHealthLogs: the newest `limit` rows of the user, reversed in place to oldest first. */
    method GetHealthLogs(userId: nat, limit: QueryParam) returns (resp: LogsResponse)
      ensures LimitOf(limit).None? ==> resp == LogsFailed(LogsErrorMessage)
      ensures LimitOf(limit).Some? ==>
        resp == LogsOk(|RecentLogs(rows, userId, LimitOf(limit).value)|, RecentLogs(rows, userId, LimitOf(limit).value))
    {
      var lim := LimitOf(limit);
      if lim.None? {
        return LogsFailed(LogsErrorMessage);
      }
      var newest := Take(NewestFirst(rows, userId), lim.value);
      var logs := new LogEntry[|newest|](k requires 0 <= k < |newest| => Entry(newest[k]));
      assert logs[..] == Entries(newest);
      ReverseInPlace(logs);
      resp := LogsOk(logs.Length, logs[..]);
    }
  }
}
