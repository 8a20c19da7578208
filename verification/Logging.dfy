/**
 Statistics logged as events happen.  Their rows are live upserts that fills aggregate and
 undos must spare; the ledger of all increments is the reference they are proved against.
 */
module Logging {
  import opened Options
  import opened Sums
  import opened Times
  import opened CountTables
  import opened Source
  import opened SourceGrowth
  import opened Stats
  import opened Levels
  import opened FillMachine
  import opened FillInvariant
  import opened FillSteps
  import opened FillInserts
  import opened FillActions

  /** The rows increments write: those of the statistic's own table, which no undo deletes. */
  ghost function LoggedRows(stat: Stat, rows: Rows): Rows {
    map k | k in rows && k.property == stat.property && !Derived(stat, k) :: rows[k]
  }

  /** What the increments of one statistic add up to, row by row. */
  ghost function Replay(stat: Stat, ledger: seq<LogEntry>): Rows
    decreases |ledger|
  {
    if ledger == [] then map[]
    else
      var before := Replay(stat, ledger[..|ledger| - 1]);
      var e := ledger[|ledger| - 1];
      if e.property == stat.property then Upsert(before, LogKey(stat, e), e.increment) else before
  }

  /** The sum of the increments of one statistic that satisfy chosen. */
  ghost function Amount(stat: Stat, ledger: seq<LogEntry>, chosen: LogEntry -> bool): int
    decreases |ledger|
  {
    if ledger == [] then 0
    else
      var e := ledger[|ledger| - 1];
      Amount(stat, ledger[..|ledger| - 1], chosen) + if e.property == stat.property && chosen(e) then e.increment else 0
  }

  // ------------------------------------------------------- over all histories

  /** Increments go into the statistic's own table, of an existing user, stream or realm. */
  ghost predicate GoodEntry(env: Env, e: LogEntry) {
    && e.property in env.registry
    && env.registry[e.property].collector == Logs(Some(e.bucket.Home()))
    && e.bucket != Installation
  }

  ghost predicate LogInv(env: Env, sys: System) {
    && (forall e :: e in sys.ledger ==> GoodEntry(env, e))
    && forall p :: p in env.registry && env.registry[p].collector.Logs? ==>
         LoggedRows(env.registry[p], sys.rows) == Replay(env.registry[p], sys.ledger)
  }

  /** What the rows need to be kept apart: known buckets, and undos within their tables. */
  ghost predicate RunsInv(env: Env, sys: System) {
    && ForeignKeys(sys.src) && KnownRows(sys)
    && forall p :: p in env.registry ==> UndoesOwnTables(env.registry[p], PcOf(sys, p))
  }

  predicate UndoesOwnTables(stat: Stat, pc: Pc) {
    pc.Undoing? ==> forall table :: table in pc.left ==> table in UndoTables(stat)
  }

  lemma LoggedAfterInsert(stat: Stat, rows: Rows, added: Rows)
    requires forall k :: k in added ==> k.property != stat.property || Derived(stat, k)
    ensures LoggedRows(stat, rows + added) == LoggedRows(stat, rows)
  {}

  lemma LoggedAfterDelete(stat: Stat, rows: Rows, table: Table, p: string, t: int)
    requires p != stat.property || table in UndoTables(stat)
    ensures LoggedRows(stat, Delete(rows, table, p, t)) == LoggedRows(stat, rows)
  {}

  lemma LoggedAfterUpsert(stat: Stat, rows: Rows, k: RowKey, v: int)
    ensures LoggedRows(stat, Upsert(rows, k, v))
         == if k.property == stat.property && !Derived(stat, k) then Upsert(LoggedRows(stat, rows), k, v)
             else LoggedRows(stat, rows)
  {}

  /** What a step of a run inserts is known, and derived if the run's statistic is a logged one. */
  lemma PulledIsForeign(runner: Stat, sys: System, t: int)
    requires runner.collector.Pulls?
    ensures forall k :: k in PulledRows(runner, sys, t) ==>
              k.property == runner.property && KnownBucket(sys.src, k.bucket)
  {
    hide Pull;
    PullShaped(runner.collector.query, sys.src, StoredActives(sys.rows, t), runner.property, t - runner.interval, t);
  }

  lemma AggregatesAreDerived(runner: Stat, sys: System, t: int)
    ensures var slot := Slot(sys.rows, runner.property, t);
            && (forall k :: k in RealmRows(runner, slot) ==>
                  k.property == runner.property && Derived(runner, k) && KnownBucket(sys.src, k.bucket))
            && (forall k :: k in InstallationRows(slot) ==>
                  k.property == runner.property && Derived(runner, k) && KnownBucket(sys.src, k.bucket))
  {
    hide RealmRows, InstallationRows, Derived;
    var slot := Slot(sys.rows, runner.property, t);
    SlotIsInSlot(sys.rows, runner.property, t);
    RealmRowsShaped(runner, slot, runner.property, t);
    RealmRowsDerived(runner, slot, runner.property, t);
    InstallationRowsShaped(slot, runner.property, t);
    InstallationRowsDerived(runner, slot, runner.property, t);
    AggregatesKnown(sys.src, slot, runner);
  }

  /** No step of a run, its own or another statistic's, changes a logged row: an undo deletes
      only what aggregation writes again. */
  lemma StepSparesLogged(env: Env, sys: System, runner: Stat, stat: Stat)
    requires RunsInv(env, sys) && stat.collector.Logs?
    requires runner.property in env.registry && env.registry[runner.property] == runner
    requires stat.property in env.registry && env.registry[stat.property] == stat
    ensures LoggedRows(stat, Step(env, sys, runner).rows) == LoggedRows(stat, sys.rows)
  {
    hide RealmRows, InstallationRows, PulledRows, Slot, Insertable, LoggedRows, Delete, Derived, ForeignKeys, KnownRows;
    var p := runner.property;
    match PcOf(sys, p)
    case Undoing(_, t, left) =>
      assert UndoesOwnTables(runner, PcOf(sys, p));
      if left != [] { LoggedAfterDelete(stat, sys.rows, left[0], p, t); }
    case Pulling(_, e) =>
      if runner.collector.Pulls? {
        PulledIsForeign(runner, sys, e);
        LoggedAfterInsert(stat, sys.rows, PulledRows(runner, sys, e));
      }
    case Aggregating(_, e) =>
      AggregatesAreDerived(runner, sys, e);
      LoggedAfterInsert(stat, sys.rows, RealmRows(runner, Slot(sys.rows, p, e)));
    case Summarizing(_, e) =>
      AggregatesAreDerived(runner, sys, e);
      LoggedAfterInsert(stat, sys.rows, InstallationRows(Slot(sys.rows, p, e)));
    case _ =>
  }

  lemma StepKeepsKnown(env: Env, sys: System, runner: Stat)
    requires KnownRows(sys)
    ensures KnownRows(Step(env, sys, runner)) && Step(env, sys, runner).src == sys.src
  {
    hide RealmRows, InstallationRows, PulledRows, Slot, Insertable, Derived, LastSuccessfulFill, KnownBucket;
    match PcOf(sys, runner.property)
    case Pulling(_, e) => if runner.collector.Pulls? { PulledIsForeign(runner, sys, e); }
    case Aggregating(_, e) => AggregatesAreDerived(runner, sys, e);
    case Summarizing(_, e) => AggregatesAreDerived(runner, sys, e);
    case _ =>
  }

  lemma StepUndoesOwnTables(env: Env, sys: System, runner: Stat)
    requires UndoesOwnTables(runner, PcOf(sys, runner.property))
    ensures UndoesOwnTables(runner, PcOf(Step(env, sys, runner), runner.property))
    ensures forall q :: q != runner.property ==> PcOf(Step(env, sys, runner), q) == PcOf(sys, q)
  {
    hide RealmRows, InstallationRows, PulledRows, Slot, Insertable, Delete, UndoTables, LastSuccessfulFill;
  }

  lemma StepKeepsRuns(env: Env, sys: System, runner: Stat)
    requires ValidEnv(env) && RunsInv(env, sys)
    requires runner.property in env.registry && env.registry[runner.property] == runner
    ensures RunsInv(env, Step(env, sys, runner))
  {
    hide Step, KnownRows, ForeignKeys, UndoesOwnTables;
    StepKeepsKnown(env, sys, runner);
    assert UndoesOwnTables(runner, PcOf(sys, runner.property));
    StepUndoesOwnTables(env, sys, runner);
    forall q | q in env.registry ensures UndoesOwnTables(env.registry[q], PcOf(Step(env, sys, runner), q)) {
      assert UndoesOwnTables(env.registry[q], PcOf(sys, q));
    }
  }

  lemma SlotIsInSlot(rows: Rows, p: string, t: int)
    ensures InSlot(Slot(rows, p, t), p, t)
  {}

  lemma LogKeepsRuns(env: Env, sys: System, e: LogEntry)
    requires ValidEnv(env) && RunsInv(env, sys) && CanLog(env, sys, e)
    ensures RunsInv(env, FillMachine.Logged(env, sys, e))
  {
    hide ForeignKeys;
    assert WellFormedStat(env.registry, e.property, env.registry[e.property]);
    AddOnConflictIsUpsert(sys, LogKey(env.registry[e.property], e), e.increment);
    forall q | q in env.registry ensures UndoesOwnTables(env.registry[q], PcOf(FillMachine.Logged(env, sys, e), q)) {
      assert UndoesOwnTables(env.registry[q], PcOf(sys, q));
    }
  }

  lemma LogKeepsLogInv(env: Env, sys: System, e: LogEntry)
    requires ValidEnv(env) && RunsInv(env, sys) && LogInv(env, sys) && CanLog(env, sys, e)
    ensures RunsInv(env, FillMachine.Logged(env, sys, e)) && LogInv(env, FillMachine.Logged(env, sys, e))
  {
    LogKeepsRuns(env, sys, e);
    hide RunsInv, AddOnConflict, LoggedRows, Upsert;
    var own := env.registry[e.property];
    assert WellFormedStat(env.registry, e.property, own);
    KnownFromRuns(env, sys);
    AddOnConflictIsUpsert(sys, LogKey(own, e), e.increment);
    assert !Derived(own, LogKey(own, e));
    var ledger := sys.ledger + [e];
    assert ledger[..|ledger| - 1] == sys.ledger;
    forall p | p in env.registry && env.registry[p].collector.Logs?
      ensures LoggedRows(env.registry[p], Upsert(sys.rows, LogKey(own, e), e.increment))
           == Replay(env.registry[p], ledger)
    {
      assert WellFormedStat(env.registry, p, env.registry[p]);
      LoggedAfterUpsert(env.registry[p], sys.rows, LogKey(own, e), e.increment);
    }
  }

  lemma AdvanceKeepsLogInv(env: Env, sys: System, q: string)
    requires ValidEnv(env) && RunsInv(env, sys) && LogInv(env, sys) && q in env.registry
    ensures RunsInv(env, Step(env, sys, env.registry[q])) && LogInv(env, Step(env, sys, env.registry[q]))
  {
    hide LoggedRows, Replay, RunsInv, Step;
    assert WellFormedStat(env.registry, q, env.registry[q]);
    StepKeepsRuns(env, sys, env.registry[q]);
    StepKeepsLedger(env, sys, env.registry[q]);
    forall p | p in env.registry && env.registry[p].collector.Logs?
      ensures LoggedRows(env.registry[p], Step(env, sys, env.registry[q]).rows) == LoggedRows(env.registry[p], sys.rows)
    {
      assert WellFormedStat(env.registry, p, env.registry[p]);
      StepSparesLogged(env, sys, env.registry[q], env.registry[p]);
    }
  }

  lemma PerformKeepsLogInv(env: Env, sys: System, a: Action)
    requires ValidEnv(env) && RunsInv(env, sys) && LogInv(env, sys)
    ensures RunsInv(env, Perform(env, sys, a)) && LogInv(env, Perform(env, sys, a))
  {
    hide LoggedRows, Replay, FillMachine.Logged, Step;
    match a
    case Advance(q) => if q in env.registry { AdvanceKeepsLogInv(env, sys, q); }
    case Log(e) => if CanLog(env, sys, e) { LogKeepsLogInv(env, sys, e); }
    case Grow(grown) =>
    case Start(p, fillTo) => RunsElsewhere(env, sys, Perform(env, sys, a), p);
    case Crash(p) => RunsElsewhere(env, sys, Perform(env, sys, a), p);
  }

  lemma RunsElsewhere(env: Env, sys: System, next: System, p: string)
    requires RunsInv(env, sys) && next.src == sys.src && next.rows == sys.rows
    requires forall q :: q != p ==> PcOf(next, q) == PcOf(sys, q)
    requires PcOf(next, p) == PcOf(sys, p) || !PcOf(next, p).Undoing?
    ensures RunsInv(env, next)
  {
    forall q | q in env.registry ensures UndoesOwnTables(env.registry[q], PcOf(next, q)) {
      assert UndoesOwnTables(env.registry[q], PcOf(sys, q));
    }
  }

  lemma InitialLogInv(env: Env, src: Source)
    requires ForeignKeys(src)
    ensures RunsInv(env, Initial(env, src)) && LogInv(env, Initial(env, src))
  {}

  /** After every history, whenever increments come, the logged rows are those of the ledger. */
  lemma {:induction false} LogInvAlways(env: Env, src: Source, history: seq<Action>)
    requires ValidEnv(env) && ForeignKeys(src)
    ensures RunsInv(env, Performed(env, src, history)) && LogInv(env, Performed(env, src, history))
    decreases |history|
  {
    hide RunsInv, LogInv, Perform, Initial;
    if history == [] {
      InitialLogInv(env, src);
    } else {
      LogInvAlways(env, src, history[..|history| - 1]);
      PerformKeepsLogInv(env, Performed(env, src, history[..|history| - 1]), history[|history| - 1]);
    }
  }

  /** In particular if those in slots whose filling has begun do not happen. */
  lemma {:induction false} OnTimeLogInv(env: Env, src: Source, history: seq<Action>)
    requires ValidEnv(env) && ForeignKeys(src)
    ensures RunsInv(env, After(env, src, history)) && LogInv(env, After(env, src, history))
    decreases |history|
  {
    hide RunsInv, LogInv, Initial;
    if history == [] {
      InitialLogInv(env, src);
    } else {
      var before, a := history[..|history| - 1], history[|history| - 1];
      OnTimeLogInv(env, src, before);
      ApplyIsPerform(env, After(env, src, before), a);
      PerformKeepsLogInv(env, After(env, src, before), a);
    }
  }

  /** The two ways to take a history differ only in late increments. */
  lemma ApplyIsPerform(env: Env, sys: System, a: Action)
    ensures Apply(env, sys, a) == sys || Apply(env, sys, a) == Perform(env, sys, a)
    ensures !a.Log? || a.entry.property !in env.registry || OnTime(env, sys, a.entry) ==>
              Apply(env, sys, a) == Perform(env, sys, a)
  {
    hide Step, Grows, FillMachine.Logged;
  }

  // -------------------------------------------------------------- row by row

  /** The row is for the increment's property, bucket and subgroup, and its end time is the end of the hour or
      day the event lies in; an event on a boundary belongs to the slot that ends there. */
  predicate GoesInto(stat: Stat, e: LogEntry, k: RowKey) {
    && e.property == k.property && e.bucket == k.bucket && e.subgroup == k.subgroup
    && Aligned(stat.frequency, k.endTime)
    && k.endTime - Increment(stat.frequency) < e.eventTime <= k.endTime
  }

  lemma GoesIntoIs(stat: Stat, e: LogEntry, k: RowKey)
    ensures LogKey(stat, e) == k <==> GoesInto(stat, e, k)
  {
    if GoesInto(stat, e, k) {
      AlignedStep(stat.frequency, k.endTime);
      CeilingMonotone(stat.frequency, k.endTime, e.eventTime);
      CeilingMonotone(stat.frequency, k.endTime - Increment(stat.frequency), e.eventTime);
      if Ceiling(stat.frequency, e.eventTime) < k.endTime {
        AlignedApart(stat.frequency, Ceiling(stat.frequency, e.eventTime), k.endTime);
      }
    }
  }

  ghost predicate InLedger(stat: Stat, ledger: seq<LogEntry>, k: RowKey) {
    exists e :: e in ledger && e.property == stat.property && GoesInto(stat, e, k)
  }

  lemma {:induction false} ReplayHas(stat: Stat, ledger: seq<LogEntry>, k: RowKey)
    ensures k in Replay(stat, ledger) <==> InLedger(stat, ledger, k)
    decreases |ledger|
  {
    if ledger != [] {
      var before, e := ledger[..|ledger| - 1], ledger[|ledger| - 1];
      ReplayHas(stat, before, k);
      assert ledger == before + [e];
      forall d ensures d in ledger <==> d in before || d == e {}
      GoesIntoIs(stat, e, k);
      if e.property == stat.property && GoesInto(stat, e, k) { assert InLedger(stat, ledger, k); }
    }
  }

  /** What the replayed rows chosen by q hold is what the increments chosen by p add up to. */
  lemma {:induction false} ReplayWhere(stat: Stat, ledger: seq<LogEntry>, q: RowKey -> bool, p: LogEntry -> bool)
    requires forall e :: e in ledger && e.property == stat.property ==> (q(LogKey(stat, e)) <==> p(e))
    ensures Sum(Where(Replay(stat, ledger), q)) == Amount(stat, ledger, p)
    decreases |ledger|
  {
    if ledger == [] {
      assert Where(Replay(stat, ledger), q) == map[];
    } else {
      var before, e := ledger[..|ledger| - 1], ledger[|ledger| - 1];
      ReplayWhere(stat, before, q, p);
      if e.property == stat.property {
        WhereUpsert(Replay(stat, before), LogKey(stat, e), e.increment, q);
        SumUpsert(Where(Replay(stat, before), q), LogKey(stat, e), e.increment);
      }
    }
  }

  lemma WhereOne(rows: Rows, k: RowKey)
    ensures Sum(Where(rows, (j: RowKey) => j == k)) == if k in rows then rows[k] else 0
  {
    var one := Where(rows, (j: RowKey) => j == k);
    if k in rows {
      SumRemove(one, k);
      assert one - {k} == map[];
    } else {
      assert one == map[];
    }
  }

  /** Logged-count conservation, row by row: under any interleaving of increments, runs, crashes
      and undos there is a row for a bucket, subgroup and end time iff there was an increment for them,
      its event in the hour or day that ends then, and it holds the sum of these, late ones included. */
  lemma LoggedRowIsSum(env: Env, src: Source, history: seq<Action>, p: string, k: RowKey)
    requires ValidEnv(env) && ForeignKeys(src)
    requires p in env.registry && env.registry[p].collector.Logs? && k.property == p && !Derived(env.registry[p], k)
    ensures var sys := Performed(env, src, history);
            && (k in sys.rows <==> InLedger(env.registry[p], sys.ledger, k))
            && (k in sys.rows ==>
                  sys.rows[k] == Amount(env.registry[p], sys.ledger,
                                        (e: LogEntry) => GoesInto(env.registry[p], e, k)))
  {
    hide Derived, ForeignKeys, Performed, GoesInto, LogKey;
    var sys := Performed(env, src, history);
    var stat := env.registry[p];
    LogInvAlways(env, src, history);
    assert WellFormedStat(env.registry, p, stat);
    ReplayHas(stat, sys.ledger, k);
    assert k in sys.rows <==> k in LoggedRows(stat, sys.rows);
    forall e | e in sys.ledger ensures LogKey(stat, e) == k <==> GoesInto(stat, e, k) {
      GoesIntoIs(stat, e, k);
    }
    ReplayWhere(stat, sys.ledger, (j: RowKey) => j == k, (e: LogEntry) => GoesInto(stat, e, k));
    WhereOne(Replay(stat, sys.ledger), k);
  }

  lemma {:induction false} LedgerGrows(env: Env, sys: System, actions: seq<Action>)
    ensures sys.ledger <= PerformAll(env, sys, actions).ledger
    decreases |actions|
  {
    hide Perform;
    if actions != [] {
      LedgerGrows(env, sys, actions[..|actions| - 1]);
      PerformGrowsLedger(env, PerformAll(env, sys, actions[..|actions| - 1]), actions[|actions| - 1]);
    }
  }

  lemma PerformGrowsLedger(env: Env, sys: System, a: Action)
    ensures sys.ledger <= Perform(env, sys, a).ledger
  {
    hide Grows, AddOnConflict, CanLog, Step;
    if a.Advance? && a.property in env.registry { StepKeepsLedger(env, sys, env.registry[a.property]); }
  }

  lemma StepKeepsLedger(env: Env, sys: System, stat: Stat)
    ensures Step(env, sys, stat).ledger == sys.ledger
  {
    hide RealmRows, InstallationRows, PulledRows, Slot, Insertable, Delete;
  }

  lemma {:induction false} PerformMore(env: Env, sys: System, a: seq<Action>, b: seq<Action>)
    ensures PerformAll(env, sys, a + b) == PerformAll(env, PerformAll(env, sys, a), b)
    decreases |b|
  {
    hide Perform;
    if b == [] {
      assert a + b == a;
    } else {
      assert (a + b)[..|a + b| - 1] == a + b[..|b| - 1];
      PerformMore(env, sys, a, b[..|b| - 1]);
    }
  }

  /** No logged row is ever deleted. */
  lemma LoggedRowsPersist(env: Env, src: Source, history: seq<Action>, more: seq<Action>, p: string, k: RowKey)
    requires ValidEnv(env) && ForeignKeys(src)
    requires p in env.registry && env.registry[p].collector.Logs? && k.property == p && !Derived(env.registry[p], k)
    requires k in Performed(env, src, history).rows
    ensures k in Performed(env, src, history + more).rows
  {
    hide PerformAll, Derived, GoesInto;
    LoggedRowIsSum(env, src, history, p, k);
    LoggedRowIsSum(env, src, history + more, p, k);
    PerformMore(env, Initial(env, src), history, more);
    LedgerGrows(env, Performed(env, src, history), more);
    var was, now := Performed(env, src, history).ledger, Performed(env, src, history + more).ledger;
    var e :| e in was && e.property == p && GoesInto(env.registry[p], e, k);
    assert e in now[..|was|];
  }

  // ---------------------------------------------------------------- any order

  lemma {:induction false} ReplayAround(stat: Stat, before: seq<LogEntry>, e: LogEntry, after: seq<LogEntry>)
    ensures Replay(stat, before + [e] + after)
         == if e.property == stat.property then Upsert(Replay(stat, before + after), LogKey(stat, e), e.increment)
            else Replay(stat, before + after)
    decreases |after|
  {
    if after == [] {
      assert before + [e] + after == before + [e];
      assert (before + [e])[..|before|] == before;
      assert before + after == before;
    } else {
      var shorter, last := after[..|after| - 1], after[|after| - 1];
      ReplayAround(stat, before, e, shorter);
      assert (before + [e] + after)[..|before + [e] + after| - 1] == before + [e] + shorter;
      assert (before + after)[..|before + after| - 1] == before + shorter;
      UpsertCommutes(Replay(stat, before + shorter), LogKey(stat, e), e.increment, LogKey(stat, last), last.increment);
    }
  }

  lemma Removed<T>(a: seq<T>, b: seq<T>, i: nat)
    requires a != [] && multiset(a) == multiset(b) && i < |b| && b[i] == a[|a| - 1]
    ensures multiset(a[..|a| - 1]) == multiset(b[..i] + b[i + 1..])
  {
    assert a == a[..|a| - 1] + [b[i]];
    assert b == b[..i] + [b[i]] + b[i + 1..];
    assert multiset(a[..|a| - 1]) == multiset(a) - multiset{b[i]};
    assert multiset(b[..i] + b[i + 1..]) == multiset(b[..i]) + multiset(b[i + 1..]) == multiset(b) - multiset{b[i]};
  }

  /** The logged rows do not depend on the order in which the increments arrived. */
  lemma {:induction false} AnyOrder(stat: Stat, a: seq<LogEntry>, b: seq<LogEntry>)
    requires multiset(a) == multiset(b)
    ensures Replay(stat, a) == Replay(stat, b)
    decreases |a|
  {
    if a == [] {
      assert |b| == |multiset(b)| == 0;
    } else {
      var e, shorter := a[|a| - 1], a[..|a| - 1];
      assert a == shorter + [e] + [];
      assert e in multiset(b);
      var i :| 0 <= i < |b| && b[i] == e;
      Removed(a, b, i);
      assert b == b[..i] + [e] + b[i + 1..];
      assert shorter + [] == shorter;
      ReplayAround(stat, shorter, e, []);
      ReplayAround(stat, b[..i], e, b[i + 1..]);
      AnyOrder(stat, shorter, b[..i] + b[i + 1..]);
    }
  }

  // ------------------------------------------------------------ filled slots

  /** The increments that fall into the slot and into a selection. */
  function InSelection(stat: Stat, t: int, sel: Selection): LogEntry -> bool {
    (e: LogEntry) => LogKey(stat, e).endTime == t && Inside(sel)(LogKey(stat, e))
  }

  lemma KeptIsLogged(stat: Stat, rows: Rows, t: int, sel: Selection)
    ensures Where(Kept(stat, Slot(rows, stat.property, t)), Inside(sel))
         == Where(LoggedRows(stat, rows), (k: RowKey) => k.endTime == t && Inside(sel)(k))
  {}

  lemma KeptIsBase(env: Env, sys: System, stat: Stat, t: int)
    requires LogInv(env, sys) && stat.property in env.registry && env.registry[stat.property] == stat
    requires stat.collector.Logs? && stat.collector.into.Some? && stat.collector.into != Some(InstallationCount)
    ensures IsBase(stat, Kept(stat, Slot(sys.rows, stat.property, t)), stat.property, t)
  {
    var slot := Kept(stat, Slot(sys.rows, stat.property, t));
    forall k | k in slot ensures k.bucket.Home() == OutputTable(stat).value {
      assert k in LoggedRows(stat, sys.rows);
      ReplayHas(stat, sys.ledger, k);
      var e :| e in sys.ledger && e.property == stat.property && GoesInto(stat, e, k);
      assert GoodEntry(env, e);
    }
  }

  lemma LoggedTotal(env: Env, sys: System, stat: Stat, t: int, sel: Selection)
    requires Ready(env, sys, stat) && LogInv(env, sys) && Filled(env, stat, t, t)
    requires stat.collector.Logs? && stat.collector.into.Some? && stat.collector.into != Some(InstallationCount)
    requires LastSuccessfulFill(stat, sys.fill).Some? && t <= LastSuccessfulFill(stat, sys.fill).value
    requires sel.bucket.Home() == OutputTable(stat).value || sel.bucket.OfRealm? || sel.bucket == Installation
    ensures TotalAt(Slot(sys.rows, stat.property, t), sel) == Amount(stat, sys.ledger, InSelection(stat, t, sel))
  {
    hide TotalAt, Complete, Where, Amount, LogInv, IsBase, Slot, Replay, Filled, Inv, ValidEnv;
    FilledSlot(env, sys, stat, t);
    KeptIsBase(env, sys, stat, t);
    CompleteTotal(stat, Kept(stat, Slot(sys.rows, stat.property, t)), stat.property, t, sel);
    KeptIsLogged(stat, sys.rows, t, sel);
    LoggedIsReplay(env, sys, stat);
    ReplayWhere(stat, sys.ledger, (k: RowKey) => k.endTime == t && Inside(sel)(k), InSelection(stat, t, sel));
  }

  lemma LoggedIsReplay(env: Env, sys: System, stat: Stat)
    requires LogInv(env, sys) && stat.collector.Logs? && stat.property in env.registry
    requires env.registry[stat.property] == stat
    ensures LoggedRows(stat, sys.rows) == Replay(stat, sys.ledger)
  {}

  /** Logged-count conservation, level by level: in every filled slot, what the tables hold for a
      user or realm of the statistic's own table, for a realm and for the installation, by
      subgroup or over all of them, is the sum of the increments of that slot inside. */
  lemma LoggedTotals(env: Env, src: Source, history: seq<Action>, p: string, t: int, sel: Selection)
    requires ValidEnv(env) && ForeignKeys(src)
    requires p in env.registry && env.registry[p].collector.Logs?
    requires env.registry[p].collector.into.Some? && env.registry[p].collector.into != Some(InstallationCount)
    requires Filled(env, env.registry[p], t, t)
    requires DependenciesReach(env, After(env, src, history), [p], t)
    requires sel.bucket.Home() == env.registry[p].collector.into.value || sel.bucket.OfRealm?
               || sel.bucket == Installation
    ensures TotalAt(Slot(After(env, src, history).rows, p, t), sel)
         == Amount(env.registry[p], After(env, src, history).ledger, InSelection(env.registry[p], t, sel))
  {
    hide Ready, TotalAt, Amount, LogInv, Slot, After, DependenciesReach, Filled, InSelection;
    Reached(env, src, history, [p], p, t);
    OnTimeLogInv(env, src, history);
    LoggedTotal(env, After(env, src, history), env.registry[p], t, sel);
  }

  // --------------------------------------------------------- late increments

  lemma LoggedSlotTotal(env: Env, sys: System, e: LogEntry, p: string, t: int, sel: Selection)
    requires KnownRows(sys) && CanLog(env, sys, e) && ValidEnv(env)
    ensures TotalAt(Slot(FillMachine.Logged(env, sys, e).rows, p, t), sel)
         == TotalAt(Slot(sys.rows, p, t), sel)
          + if e.property == p && OwnSelection(env.registry[p], t, sel)(e) then e.increment else 0
  {
    hide KnownRows;
    var k := LogKey(env.registry[e.property], e);
    AddOnConflictIsUpsert(sys, k, e.increment);
    UpsertSlots(sys.rows, k, e.increment, p, t);
    IncrementChangesOwnTotal(Slot(sys.rows, p, t), k, e.increment, sel);
  }

  /** The increments of the slot that go into the selected bucket itself. */
  function OwnSelection(stat: Stat, t: int, sel: Selection): LogEntry -> bool {
    (e: LogEntry) => LogKey(stat, e).endTime == t && e.bucket == sel.bucket && RightSubgroup(sel, LogKey(stat, e))
  }

  /** An increment changes exactly the totals of its own bucket. */
  lemma IncrementChangesOwnTotal(slot: Rows, k: RowKey, v: int, sel: Selection)
    ensures TotalAt(Upsert(slot, k, v), sel)
         == TotalAt(slot, sel) + if k.bucket == sel.bucket && RightSubgroup(sel, k) then v else 0
  {
    WhereUpsert(slot, k, v, Levels.At(sel));
    SumUpsert(Where(slot, Levels.At(sel)), k, v);
  }

  ghost predicate OnlyLogs(actions: seq<Action>) {
    forall i :: 0 <= i < |actions| ==> actions[i].Log?
  }

  lemma {:induction false} LogsAddUp(env: Env, sys: System, late: seq<Action>, p: string, t: int, sel: Selection)
    requires ValidEnv(env) && RunsInv(env, sys) && LogInv(env, sys) && OnlyLogs(late) && p in env.registry
    ensures var end := PerformAll(env, sys, late);
            && RunsInv(env, end) && LogInv(env, end) && sys.ledger <= end.ledger
            && TotalAt(Slot(end.rows, p, t), sel)
            == TotalAt(Slot(sys.rows, p, t), sel)
                + Amount(env.registry[p], end.ledger[|sys.ledger|..], OwnSelection(env.registry[p], t, sel))
    decreases |late|
  {
    hide RunsInv, LogInv, TotalAt, FillMachine.Logged, OwnSelection;
    if late == [] {
      assert sys.ledger[|sys.ledger|..] == [];
    } else {
      var before := PerformAll(env, sys, late[..|late| - 1]);
      var e := late[|late| - 1].entry;
      LogsAddUp(env, sys, late[..|late| - 1], p, t, sel);
      PerformKeepsLogInv(env, before, Log(e));
      if CanLog(env, before, e) {
        assert WellFormedStat(env.registry, p, env.registry[p]);
        KnownFromRuns(env, before);
        LoggedSlotTotal(env, before, e, p, t, sel);
        LoggedLedger(env, before, e, |sys.ledger|);
      }
    }
  }

  lemma KnownFromRuns(env: Env, sys: System)
    requires RunsInv(env, sys)
    ensures KnownRows(sys)
  {}

  lemma LoggedLedger(env: Env, sys: System, e: LogEntry, n: nat)
    requires e.property in env.registry && n <= |sys.ledger|
    ensures e.increment == 0 ==> FillMachine.Logged(env, sys, e).ledger == sys.ledger
    ensures var ledger := FillMachine.Logged(env, sys, e).ledger;
            e.increment != 0 ==>
              && ledger == sys.ledger + [e] && ledger[n..] == sys.ledger[n..] + [e]
              && ledger[n..][..|ledger[n..]| - 1] == sys.ledger[n..]
  {}

  lemma {:induction false} AmountAppended(stat: Stat, a: seq<LogEntry>, b: seq<LogEntry>, chosen: LogEntry -> bool)
    ensures Amount(stat, a + b, chosen) == Amount(stat, a, chosen) + Amount(stat, b, chosen)
    decreases |b|
  {
    if b == [] {
      assert a + b == a;
    } else {
      assert (a + b)[..|a + b| - 1] == a + b[..|b| - 1];
      AmountAppended(stat, a, b[..|b| - 1], chosen);
    }
  }

  lemma {:induction false} AmountOfNone(stat: Stat, ledger: seq<LogEntry>, chosen: LogEntry -> bool)
    requires forall e :: e in ledger && e.property == stat.property ==> !chosen(e)
    ensures Amount(stat, ledger, chosen) == 0
    decreases |ledger|
  {
    if ledger != [] {
      AmountOfNone(stat, ledger[..|ledger| - 1], chosen);
    }
  }

  /** Late increments are what the levels disagree by.  Whatever increments come after a slot has been
      filled, the totals of realms and of the installation derived from it fall short of the sum of
      the slot's increments by exactly the late ones inside: they agree iff those add up to zero. */
  lemma LateIncrementsAreMissing(env: Env, src: Source, history: seq<Action>, late: seq<Action>, p: string, t: int,
                                 sel: Selection)
    requires ValidEnv(env) && ForeignKeys(src) && OnlyLogs(late)
    requires p in env.registry && env.registry[p].collector.Logs?
    requires env.registry[p].collector.into.Some? && env.registry[p].collector.into != Some(InstallationCount)
    requires Filled(env, env.registry[p], t, t)
    requires DependenciesReach(env, After(env, src, history), [p], t)
    requires sel.bucket.Home() != env.registry[p].collector.into.value
               && (sel.bucket.OfRealm? || sel.bucket == Installation)
    ensures var sys := After(env, src, history);
            var end := PerformAll(env, sys, late);
            var inside := InSelection(env.registry[p], t, sel);
            && sys.ledger <= end.ledger
            && Amount(env.registry[p], end.ledger, inside)
            == TotalAt(Slot(end.rows, p, t), sel) + Amount(env.registry[p], end.ledger[|sys.ledger|..], inside)
  {
    hide TotalAt, LogInv, RunsInv, After, DependenciesReach, Filled, PerformAll, Amount, ForeignKeys, ValidEnv;
    var sys := After(env, src, history);
    var end := PerformAll(env, sys, late);
    var stat := env.registry[p];
    OnTimeLogInv(env, src, history);
    LoggedTotals(env, src, history, p, t, sel);
    LogsAddUp(env, sys, late, p, t, sel);
    Reached(env, src, history, [p], p, t);
    NoneOfItsOwn(env, end, stat, t, sel, end.ledger[|sys.ledger|..]);
    assert end.ledger == sys.ledger + end.ledger[|sys.ledger|..];
    AmountAppended(stat, sys.ledger, end.ledger[|sys.ledger|..], InSelection(stat, t, sel));
  }

  lemma NoneOfItsOwn(env: Env, sys: System, stat: Stat, t: int, sel: Selection, ledger: seq<LogEntry>)
    requires LogInv(env, sys) && stat.property in env.registry && env.registry[stat.property] == stat
    requires stat.collector.Logs? && stat.collector.into.Some? && sel.bucket.Home() != stat.collector.into.value
    requires forall e :: e in ledger ==> e in sys.ledger
    ensures Amount(stat, ledger, OwnSelection(stat, t, sel)) == 0
  {
    forall e | e in ledger && e.property == stat.property ensures !OwnSelection(stat, t, sel)(e) {
      assert GoodEntry(env, e);
      assert e.bucket != sel.bucket && LogKey(stat, e).bucket == e.bucket;
    }
    AmountOfNone(stat, ledger, OwnSelection(stat, t, sel));
  }
}
