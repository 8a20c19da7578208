/**
 The month accumulator of a daily per-user logging statistic.
 */
module Months {
  import opened Options
  import opened Sums
  import opened Times
  import opened CountTables
  import opened Source
  import opened Stats
  import opened FillMachine
  import opened Logging

  // ------------------------------------------------ the proleptic Gregorian calendar

  datatype Month = Month(year: int, number: int)

  predicate ValidMonth(m: Month) {
    1 <= m.year && 1 <= m.number <= 12
  }

  predicate IsLeap(year: int) {
    year % 4 == 0 && (year % 100 != 0 || year % 400 == 0)
  }

  function DaysIn(m: Month): int {
    if m.number == 2 then (if IsLeap(m.year) then 29 else 28)
    else if m.number in {4, 6, 9, 11} then 30
    else 31
  }

  function DaysBeforeYear(year: int): int {
    365 * (year - 1) + (year - 1) / 4 - (year - 1) / 100 + (year - 1) / 400
  }

  function DaysBeforeMonth(m: Month): int
    requires 1 <= m.number <= 12
  {
    [0, 31, 59, 90, 120, 151, 181, 212, 243, 273, 304, 334][m.number - 1]
    + if m.number > 2 && IsLeap(m.year) then 1 else 0
  }

  const EPOCH_DAYS := 719162

  /** datetime(year, month, 1, tzinfo=utc). */
  function MonthStart(m: Month): int
    requires ValidMonth(m)
  {
    (DaysBeforeYear(m.year) + DaysBeforeMonth(m) - EPOCH_DAYS) * DAY
  }

  /** The start_of_next_month branches: December is followed by January of the next year. */
  function NextMonth(m: Month): (next: Month)
    requires ValidMonth(m)
    ensures ValidMonth(next)
  {
    if m.number == 12 then Month(m.year + 1, 1) else m.(number := m.number + 1)
  }

  lemma YearLength(year: int)
    ensures DaysBeforeYear(year + 1) == DaysBeforeYear(year) + if IsLeap(year) then 366 else 365
  {
    assert year / 4 == (year - 1) / 4 + if year % 4 == 0 then 1 else 0;
    assert year / 100 == (year - 1) / 100 + if year % 100 == 0 then 1 else 0;
    assert year / 400 == (year - 1) / 400 + if year % 400 == 0 then 1 else 0;
  }

  /** The next month starts exactly as many days later as the month has, December included. */
  lemma NextMonthStart(m: Month)
    requires ValidMonth(m)
    ensures MonthStart(NextMonth(m)) == MonthStart(m) + DaysIn(m) * DAY
  {
    hide IsLeap, DaysBeforeYear;
    if m.number == 12 { YearLength(m.year); }
  }

  lemma MonthStartAligned(m: Month)
    requires ValidMonth(m)
    ensures Aligned(Daily, MonthStart(m))
  {
    hide DaysBeforeYear, DaysBeforeMonth;
    DaysAreAligned(DaysBeforeYear(m.year) + DaysBeforeMonth(m) - EPOCH_DAYS);
  }

  lemma DaysAreAligned(days: int)
    ensures Aligned(Daily, days * DAY)
  {}

  /** Times count from the first of January 1970. */
  lemma EpochMonth()
    ensures MonthStart(Month(1970, 1)) == 0
  {}

  // -------------------------------------------------------------- accumulation

  /** The filter of current_month_accumulated_count_for_user. */
  function MonthRow(p: string, u: int, start: int, next: int): RowKey -> bool {
    (k: RowKey) => k.bucket.OfUser? && k.bucket.user == u && k.property == p && start < k.endTime <= next
  }

  ghost function CountBetween(rows: Rows, p: string, u: int, start: int, next: int): int {
    Sum(Where(rows, MonthRow(p, u, start, next)))
  }

  /** current_month_accumulated_count_for_user, at any time within the month. */
  ghost function AccumulatedCount(rows: Rows, p: string, u: int, m: Month): int
    requires ValidMonth(m)
  {
    CountBetween(rows, p, u, MonthStart(m), MonthStart(NextMonth(m)))
  }

  /** The user's increments for events after start and up to next. */
  function ByUserBetween(u: int, start: int, next: int): LogEntry -> bool {
    (e: LogEntry) => e.bucket.OfUser? && e.bucket.user == u && start < e.eventTime <= next
  }

  lemma BetweenIsLogged(stat: Stat, rows: Rows, u: int, start: int, next: int)
    requires stat.collector == Logs(Some(UserCount))
    ensures Where(rows, MonthRow(stat.property, u, start, next))
         == Where(LoggedRows(stat, rows), MonthRow(stat.property, u, start, next))
  {}

  /** Between two day boundaries the rows hold the increments of the events in between. */
  lemma CountedBetween(env: Env, src: Source, history: seq<Action>, p: string, u: int, start: int, next: int)
    requires ValidEnv(env) && ForeignKeys(src)
    requires p in env.registry && env.registry[p].collector == Logs(Some(UserCount))
    requires env.registry[p].frequency == Daily
    requires Aligned(Daily, start) && Aligned(Daily, next)
    ensures CountBetween(Performed(env, src, history).rows, p, u, start, next)
         == Amount(env.registry[p], Performed(env, src, history).ledger, ByUserBetween(u, start, next))
  {
    hide Aligned, Performed;
    var sys := Performed(env, src, history);
    var stat := env.registry[p];
    LogInvAlways(env, src, history);
    assert WellFormedStat(env.registry, p, stat);
    BetweenIsLogged(stat, sys.rows, u, start, next);
    forall e | e in sys.ledger && e.property == p
      ensures MonthRow(p, u, start, next)(LogKey(stat, e)) <==> ByUserBetween(u, start, next)(e)
    {
      CeilingMonotone(Daily, start, e.eventTime);
      CeilingMonotone(Daily, next, e.eventTime);
    }
    ReplayWhere(stat, sys.ledger, MonthRow(p, u, start, next), ByUserBetween(u, start, next));
  }

  /** Month accounting: after any history, the accumulator of a month is the sum of the user's
      increments whose event times lie after the start of the month and up to the start of the next. */
  lemma MonthAccounting(env: Env, src: Source, history: seq<Action>, p: string, u: int, m: Month)
    requires ValidEnv(env) && ForeignKeys(src) && ValidMonth(m)
    requires p in env.registry && env.registry[p].collector == Logs(Some(UserCount))
    requires env.registry[p].frequency == Daily
    ensures AccumulatedCount(Performed(env, src, history).rows, p, u, m)
         == Amount(env.registry[p], Performed(env, src, history).ledger,
                   ByUserBetween(u, MonthStart(m), MonthStart(NextMonth(m))))
  {
    hide MonthStart, NextMonth, Performed, CountBetween;
    MonthStartAligned(m);
    MonthStartAligned(NextMonth(m));
    CountedBetween(env, src, history, p, u, MonthStart(m), MonthStart(NextMonth(m)));
  }

  function MonthsLater(m: Month, n: nat): (later: Month)
    requires ValidMonth(m)
    ensures ValidMonth(later)
    decreases n
  {
    if n == 0 then m else MonthsLater(NextMonth(m), n - 1)
  }

  /** The accumulators of n consecutive months, added up. */
  ghost function AccumulatedOver(rows: Rows, p: string, u: int, m: Month, n: nat): int
    requires ValidMonth(m)
    decreases n
  {
    if n == 0 then 0 else AccumulatedCount(rows, p, u, m) + AccumulatedOver(rows, p, u, NextMonth(m), n - 1)
  }

  lemma {:induction false} AmountSplit(stat: Stat, ledger: seq<LogEntry>, u: int, start: int, mid: int, end: int)
    requires start <= mid <= end
    ensures Amount(stat, ledger, ByUserBetween(u, start, end))
         == Amount(stat, ledger, ByUserBetween(u, start, mid)) + Amount(stat, ledger, ByUserBetween(u, mid, end))
    decreases |ledger|
  {
    if ledger != [] {
      AmountSplit(stat, ledger[..|ledger| - 1], u, start, mid, end);
    }
  }

  lemma {:induction false} AmountNothing(stat: Stat, ledger: seq<LogEntry>, u: int, t: int)
    ensures Amount(stat, ledger, ByUserBetween(u, t, t)) == 0
    decreases |ledger|
  {
    if ledger != [] {
      AmountNothing(stat, ledger[..|ledger| - 1], u, t);
    }
  }

  lemma {:induction false} LaterStarts(m: Month, n: nat)
    requires ValidMonth(m)
    ensures MonthStart(m) <= MonthStart(MonthsLater(m, n))
    decreases n
  {
    hide MonthStart;
    if n > 0 {
      NextMonthStart(m);
      LaterStarts(NextMonth(m), n - 1);
    }
  }

  /** Consecutive months partition the increments: each is counted in exactly one of them. */
  lemma {:induction false} MonthsPartition(env: Env, src: Source, history: seq<Action>, p: string, u: int, m: Month,
                                           n: nat)
    requires ValidEnv(env) && ForeignKeys(src) && ValidMonth(m)
    requires p in env.registry && env.registry[p].collector == Logs(Some(UserCount))
    requires env.registry[p].frequency == Daily
    ensures AccumulatedOver(Performed(env, src, history).rows, p, u, m, n)
         == Amount(env.registry[p], Performed(env, src, history).ledger,
                   ByUserBetween(u, MonthStart(m), MonthStart(MonthsLater(m, n))))
    decreases n
  {
    hide MonthStart, Performed, AccumulatedCount, ForeignKeys, NextMonth, Amount;
    var stat, ledger := env.registry[p], Performed(env, src, history).ledger;
    if n == 0 {
      AmountNothing(stat, ledger, u, MonthStart(m));
    } else {
      NextMonthStart(m);
      MonthAccounting(env, src, history, p, u, m);
      MonthsPartition(env, src, history, p, u, NextMonth(m), n - 1);
      LaterStarts(NextMonth(m), n - 1);
      AmountSplit(stat, ledger, u, MonthStart(m), MonthStart(NextMonth(m)), MonthStart(MonthsLater(m, n)));
    }
  }
}
