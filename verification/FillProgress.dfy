/**
 Progress of runs: where an uninterrupted run stops, and what clean runs leave behind.
 */
module FillProgress {
  import opened Options
  import opened Times
  import opened CountTables
  import opened Source
  import opened Stats
  import opened FillMachine
  import opened FillInvariant
  import opened FillSteps
  import opened FillInserts
  import opened FillActions
  import opened FillTheorems

  // ------------------------------------------------------ bounds on a run

  /** fill_to_time lowered to every dependency's last successful fill; None if one never ran. */
  function Bounded(env: Env, fill: map<string, FillState>, deps: seq<string>, fillTo: int): Option<int>
    decreases |deps|
  {
    if deps == [] then Some(fillTo)
    else if deps[0] !in env.registry then None
    else
      match LastSuccessfulFill(env.registry[deps[0]], fill)
      case None => None
      case Some(t) => Bounded(env, fill, deps[1..], if t < fillTo then t else fillTo)
  }

  ghost predicate EverFilled(env: Env, fill: map<string, FillState>, d: string) {
    d in env.registry && LastSuccessfulFill(env.registry[d], fill).Some?
  }

  /** The bound is the least of fill_to_time and the dependencies' last successful fills. */
  lemma {:induction false} BoundedIsLeast(env: Env, fill: map<string, FillState>, deps: seq<string>, fillTo: int)
    ensures var bound := Bounded(env, fill, deps, fillTo);
            if exists d :: d in deps && !EverFilled(env, fill, d) then bound.None?
            else
              && bound.Some? && bound.value <= fillTo
              && (forall d :: d in deps ==> bound.value <= LastSuccessfulFill(env.registry[d], fill).value)
              && (bound.value == fillTo
                  || exists d :: d in deps && bound.value == LastSuccessfulFill(env.registry[d], fill).value)
    decreases |deps|
  {
    if deps != [] && EverFilled(env, fill, deps[0]) {
      var t := LastSuccessfulFill(env.registry[deps[0]], fill).value;
      BoundedIsLeast(env, fill, deps[1..], if t < fillTo then t else fillTo);
      assert forall d :: d in deps <==> d == deps[0] || d in deps[1..];
    } else if deps != [] {
      assert deps[0] in deps;
    }
  }

  /** A run changes no fill state of a statistic other than its own, so not its bound either. */
  lemma {:induction false} BoundedFrame(env: Env, fill: map<string, FillState>, next: map<string, FillState>,
                                        deps: seq<string>,
                                        fillTo: int, p: string)
    requires ValidEnv(env) && p !in deps
    requires forall q :: q != p ==> (q in next <==> q in fill) && (q in fill ==> next[q] == fill[q])
    ensures Bounded(env, next, deps, fillTo) == Bounded(env, fill, deps, fillTo)
    decreases |deps|
  {
    if deps != [] && deps[0] in env.registry {
      StatIsNamed(env, deps[0]);
      var last := LastSuccessfulFill(env.registry[deps[0]], fill);
      assert LastSuccessfulFill(env.registry[deps[0]], next) == last;
      if last.Some? {
        BoundedFrame(env, fill, next, deps[1..], if last.value < fillTo then last.value else fillTo, p);
      }
    }
  }

  lemma NotItsOwnDependency(env: Env, stat: Stat)
    requires ValidEnv(env) && stat.property in env.registry && env.registry[stat.property] == stat
    ensures stat.property !in stat.dependencies
  {
    assert WellFormedStat(env.registry, stat.property, stat);
  }

  // ------------------------------------------------------ where a run stops

  /** The greatest grid point up to fillTo, or where the fill already was. */
  function StopsAt(stat: Stat, from: int, fillTo: int): int {
    var end := Floor(stat.frequency, fillTo);
    if from < end then end else from
  }

  ghost function FilledTo(env: Env, sys: System, stat: Stat): int {
    var last := LastSuccessfulFill(stat, sys.fill);
    if last.Some? then last.value else env.epoch
  }

  /** Without a bound, because a dependency has never run, the run stops where the fill was. */
  function Stop(stat: Stat, from: int, limit: Option<int>): int {
    match limit
    case None => from
    case Some(t) => StopsAt(stat, from, t)
  }

  /** Where the run at pc is going to stop if nothing interrupts it. */
  ghost function Goal(env: Env, sys: System, stat: Stat): int {
    match PcOf(sys, stat.property)
    case Idle => FilledTo(env, sys, stat)
    case Beginning(fillTo) => Stop(stat, FilledTo(env, sys, stat), Bounded(env, sys.fill, stat.dependencies, fillTo))
    case Undoing(fillTo, t, _) =>
      Stop(stat, t - Increment(stat.frequency), Bounded(env, sys.fill, stat.dependencies, fillTo))
    case Checking(fillTo, filled, unread) => Stop(stat, filled, Bounded(env, sys.fill, unread, fillTo))
    case Looping(fillTo, filled) => StopsAt(stat, filled, fillTo)
    case Pulling(fillTo, t) => StopsAt(stat, t, fillTo)
    case Aggregating(fillTo, t) => StopsAt(stat, t, fillTo)
    case Summarizing(fillTo, t) => StopsAt(stat, t, fillTo)
    case Finishing(fillTo, t) => StopsAt(stat, t, fillTo)
  }

  /** What remains of a run: its phase, the time still to fill, and the stage of the slot. */
  ghost function Remaining(pc: Pc): (nat, int, nat) {
    match pc
    case Idle => (0, 0, 0)
    case Beginning(_) => (4, 0, 0)
    case Undoing(_, _, left) => (3, 0, |left|)
    case Checking(_, _, unread) => (2, 0, |unread|)
    case Looping(fillTo, filled) => (1, fillTo - filled, 0)
    case Pulling(fillTo, t) => (1, fillTo - t, 4)
    case Aggregating(fillTo, t) => (1, fillTo - t, 3)
    case Summarizing(fillTo, t) => (1, fillTo - t, 2)
    case Finishing(fillTo, t) => (1, fillTo - t, 1)
  }

  predicate Less(a: (nat, int, nat), b: (nat, int, nat)) {
    a.0 < b.0 || (a.0 == b.0 && ((0 <= a.1 < b.1) || (a.1 == b.1 && a.2 < b.2)))
  }

  lemma LoopStops(stat: Stat, filled: int, fillTo: int)
    requires Aligned(stat.frequency, filled)
    ensures filled + Increment(stat.frequency) <= fillTo ==>
              StopsAt(stat, filled + Increment(stat.frequency), fillTo) == StopsAt(stat, filled, fillTo)
    ensures filled + Increment(stat.frequency) > fillTo ==> StopsAt(stat, filled, fillTo) == filled
  {
    var inc := Increment(stat.frequency);
    var end := Floor(stat.frequency, fillTo);
    AlignedStep(stat.frequency, filled);
    if filled < end { AlignedApart(stat.frequency, filled, end); }
    if end < filled + inc { if filled + inc <= fillTo { AlignedApart(stat.frequency, end, filled + inc); } }
  }

  ghost predicate Nearer(env: Env, sys: System, next: System, stat: Stat) {
    if PcOf(next, stat.property) == Idle then
      stat.property in next.fill && next.fill[stat.property] == Done(Goal(env, sys, stat))
    else
      && Goal(env, next, stat) == Goal(env, sys, stat)
      && Less(Remaining(PcOf(next, stat.property)), Remaining(PcOf(sys, stat.property)))
  }

  lemma LoopingNears(env: Env, sys: System, stat: Stat)
    requires Ready(env, sys, stat) && PcOf(sys, stat.property).Looping?
    ensures Nearer(env, sys, Step(env, sys, stat), stat)
  {
    hide PulledRows, RealmRows, InstallationRows, Slot, SlotOk, Insertable, Delete, KnownBucket, DependenciesReach,
         Derived, StopsAt, Bounded;
    assert StatInv(env, sys, stat);
    LoopStops(stat, PcOf(sys, stat.property).filled, PcOf(sys, stat.property).fillTo);
  }

  lemma UndoingNears(env: Env, sys: System, stat: Stat)
    requires Ready(env, sys, stat) && PcOf(sys, stat.property).Undoing?
    ensures Nearer(env, sys, Step(env, sys, stat), stat)
  {
    hide PulledRows, RealmRows, InstallationRows, Slot, SlotOk, Insertable, Delete, KnownBucket, Aligned,
         DependenciesReach, Derived, Stop, Bounded;
    assert StatInv(env, sys, stat);
    NotItsOwnDependency(env, stat);
    BoundedFrame(env, sys.fill, Step(env, sys, stat).fill, stat.dependencies, PcOf(sys, stat.property).fillTo,
                 stat.property);
  }

  lemma CheckingNears(env: Env, sys: System, stat: Stat)
    requires Ready(env, sys, stat) && PcOf(sys, stat.property).Checking?
    ensures Nearer(env, sys, Step(env, sys, stat), stat)
  {
    hide PulledRows, RealmRows, InstallationRows, Slot, SlotOk, Insertable, Delete, KnownBucket, Aligned,
         DependenciesReach, Derived;
    assert StatInv(env, sys, stat);
  }

  lemma InsertingNears(env: Env, sys: System, stat: Stat)
    requires Ready(env, sys, stat)
    requires PcOf(sys, stat.property).Pulling? || PcOf(sys, stat.property).Aggregating?
               || PcOf(sys, stat.property).Summarizing?
    ensures Nearer(env, sys, Step(env, sys, stat), stat)
  {
    hide Insertable, RealmRows, InstallationRows, PulledRows, IdealPull, Slot, Base, Complete, WithRealm, Inv, Aligned;
    match PcOf(sys, stat.property)
    case Pulling(_, _) => PullingFacts(env, sys, stat);
    case Aggregating(_, _) => AggregatingFacts(env, sys, stat);
    case Summarizing(_, _) => SummarizingFacts(env, sys, stat);
  }

  lemma BeginningNears(env: Env, sys: System, stat: Stat)
    requires Ready(env, sys, stat) && PcOf(sys, stat.property).Beginning?
    ensures Nearer(env, sys, Step(env, sys, stat), stat)
  {
    hide PulledRows, RealmRows, InstallationRows, Slot, SlotOk, Insertable, Delete, KnownBucket, Aligned,
         DependenciesReach, Derived, Stop, Bounded;
    assert StatInv(env, sys, stat);
    NotItsOwnDependency(env, stat);
    BoundedFrame(env, sys.fill, Step(env, sys, stat).fill, stat.dependencies, PcOf(sys, stat.property).fillTo,
                 stat.property);
  }

  lemma FinishingNears(env: Env, sys: System, stat: Stat)
    requires Ready(env, sys, stat) && PcOf(sys, stat.property).Finishing?
    ensures Nearer(env, sys, Step(env, sys, stat), stat)
  {
    hide PulledRows, RealmRows, InstallationRows, Slot, SlotOk, Insertable, Delete, KnownBucket, Aligned,
         DependenciesReach, Derived;
    assert StatInv(env, sys, stat);
  }

  /** No step of a run fails, except for want of a dependency's first run; each step brings the same goal
      nearer, and the last one finds the fill there. */
  lemma NearsGoal(env: Env, sys: System, stat: Stat)
    requires Ready(env, sys, stat) && PcOf(sys, stat.property) != Idle
    ensures Nearer(env, sys, Step(env, sys, stat), stat)
  {
    hide Nearer, Step, Ready;
    match PcOf(sys, stat.property)
    case Beginning(_) => BeginningNears(env, sys, stat);
    case Undoing(_, _, _) => UndoingNears(env, sys, stat);
    case Checking(_, _, _) => CheckingNears(env, sys, stat);
    case Looping(_, _) => LoopingNears(env, sys, stat);
    case Finishing(_, _) => FinishingNears(env, sys, stat);
    case _ => InsertingNears(env, sys, stat);
  }

  /** The state after n steps of stat with no crash and nothing else in between. */
  ghost function Uninterrupted(env: Env, sys: System, stat: Stat, n: nat): System
    decreases n
  {
    if n == 0 then sys else Uninterrupted(env, Step(env, sys, stat), stat, n - 1)
  }

  lemma {:induction false} UninterruptedStep(env: Env, sys: System, stat: Stat, n: nat)
    ensures Uninterrupted(env, sys, stat, n + 1) == Step(env, Uninterrupted(env, sys, stat, n), stat)
    decreases n
  {
    hide Step;
    if n > 0 {
      UninterruptedStep(env, Step(env, sys, stat), stat, n - 1);
    }
  }

  lemma {:induction false} UninterruptedKeeps(env: Env, sys: System, stat: Stat, n: nat)
    requires Ready(env, sys, stat)
    ensures Ready(env, Uninterrupted(env, sys, stat, n), stat)
    decreases n
  {
    if n > 0 {
      StepKeeps(env, sys, stat);
      UninterruptedKeeps(env, Step(env, sys, stat), stat, n - 1);
    }
  }

  /** An uninterrupted run ends, and its last step finds the fill at the goal. */
  lemma {:induction false} RunEnds(env: Env, sys: System, stat: Stat) returns (n: nat)
    requires Ready(env, sys, stat) && PcOf(sys, stat.property) != Idle
    ensures var end := Uninterrupted(env, sys, stat, n);
            PcOf(end, stat.property) == Idle && Inv(env, end)
            && stat.property in end.fill && end.fill[stat.property] == Done(Goal(env, sys, stat))
    decreases Remaining(PcOf(sys, stat.property)).0, Remaining(PcOf(sys, stat.property)).1,
        Remaining(PcOf(sys, stat.property)).2
  {
    hide Inv, Step, Goal;
    var next := Step(env, sys, stat);
    StepKeeps(env, sys, stat);
    NearsGoal(env, sys, stat);
    if PcOf(next, stat.property) == Idle {
      n := 1;
      assert Uninterrupted(env, next, stat, 0) == next;
    } else {
      var m := RunEnds(env, next, stat);
      n := m + 1;
    }
  }

  /** Where a run of p to fillTo stops when it starts in sys. */
  ghost function StopOf(env: Env, sys: System, p: string, fillTo: int): int
    requires p in env.registry
  {
    Stop(env.registry[p], FilledTo(env, sys, env.registry[p]),
         Bounded(env, sys.fill, env.registry[p].dependencies, fillTo))
  }

  /** Progress and exact stopping: from any reachable state, in particular after a crash at any
      point, an uninterrupted run to fillTo ends, with the statistic done up to the greatest
      grid point not after fillTo and every dependency's last successful fill (or where it already
      was) and its tables ideal. */
  lemma RunStopsExactly(env: Env, src: Source, history: seq<Action>, p: string, fillTo: int) returns (n: nat)
    requires ValidEnv(env) && ForeignKeys(src) && p in env.registry
    requires Aligned(Hourly, fillTo) && PcOf(After(env, src, history), p) == Idle
    ensures var sys := After(env, src, history);
            var end := Uninterrupted(env, Apply(env, sys, Start(p, fillTo)), env.registry[p], n);
            var t := StopOf(env, sys, p, fillTo);
            && PcOf(end, p) == Idle && p in end.fill && end.fill[p] == Done(t)
            && (env.registry[p].collector.Pulls? ==>
                  StatRows(end.rows, p) == IdealRows(env, env.registry[p], env.registry[p].collector.query, end.src, t))
  {
    hide Bounded, Stop;
    var sys := After(env, src, history);
    var stat := env.registry[p];
    InvAlways(env, src, history);
    ApplyKeeps(env, sys, Start(p, fillTo));
    StatIsNamed(env, p);
    var started := Apply(env, sys, Start(p, fillTo));
    n := RunEnds(env, started, stat);
    var end := Uninterrupted(env, started, stat, n);
    assert StatInv(env, end, stat);
    if stat.collector.Pulls? {
      SettledRowsAreIdeal(env, end, stat, stat.collector.query, end.fill[p].endTime);
    }
  }

  // --------------------------------------------------------------- clean runs

  /** One run: its start, and steps of nothing but itself. */
  datatype Run = Run(property: string, fillTo: int, steps: nat)

  ghost function Advances(p: string, n: nat): seq<Action>
    decreases n
  {
    if n == 0 then [] else Advances(p, n - 1) + [Advance(p)]
  }

  ghost function ActionsOf(runs: seq<Run>): seq<Action>
    decreases |runs|
  {
    if runs == [] then []
    else
      var last := runs[|runs| - 1];
      ActionsOf(runs[..|runs| - 1]) + [Start(last.property, last.fillTo)] + Advances(last.property, last.steps)
  }

  lemma AfterOne(env: Env, src: Source, history: seq<Action>, a: Action)
    ensures After(env, src, history + [a]) == Apply(env, After(env, src, history), a)
  {
    assert (history + [a])[..|history|] == history;
  }

  lemma AdvanceIsStep(env: Env, sys: System, p: string)
    requires p in env.registry
    ensures Apply(env, sys, Advance(p)) == Step(env, sys, env.registry[p])
  {}

  lemma {:induction false} AfterAdvances(env: Env, src: Source, history: seq<Action>, p: string, n: nat)
    requires p in env.registry
    ensures After(env, src, history + Advances(p, n))
         == Uninterrupted(env, After(env, src, history), env.registry[p], n)
    decreases n
  {
    hide Step, Apply, After;
    if n == 0 {
      assert history + Advances(p, 0) == history;
    } else {
      AfterAdvances(env, src, history, p, n - 1);
      assert history + Advances(p, n) == history + Advances(p, n - 1) + [Advance(p)];
      AfterOne(env, src, history + Advances(p, n - 1), Advance(p));
      AdvanceIsStep(env, After(env, src, history + Advances(p, n - 1)), p);
      UninterruptedStep(env, After(env, src, history), env.registry[p], n - 1);
    }
  }

  /** The other statistics' fill states and runs, and the source, are as before. */
  ghost predicate OnlyRan(sys: System, next: System, p: string) {
    && next.src == sys.src
    && forall q :: q != p ==>
         (q in next.fill <==> q in sys.fill) && (q in sys.fill ==> next.fill[q] == sys.fill[q])
             && PcOf(next, q) == PcOf(sys, q)
  }

  lemma {:induction false} UninterruptedTouches(env: Env, sys: System, stat: Stat, n: nat)
    requires Ready(env, sys, stat)
    ensures OnlyRan(sys, Uninterrupted(env, sys, stat, n), stat.property)
    decreases n
  {
    hide Step, Inv, StatInv;
    if n > 0 {
      var next := Step(env, sys, stat);
      StepKeeps(env, sys, stat);
      StepTouches(env, sys, stat);
      UninterruptedTouches(env, next, stat, n - 1);
    }
  }

  lemma StepTouches(env: Env, sys: System, stat: Stat)
    requires Ready(env, sys, stat)
    ensures OnlyRan(sys, Step(env, sys, stat), stat.property)
  {
    hide StatInv, DependentInv, KnownRows, FillAdvances;
    if PcOf(sys, stat.property) != Idle { StepKeepsOwn(env, sys, stat); }
  }

  /** Adding a run of p to a sequence of runs. */
  lemma RunNext(env: Env, src: Source, runs: seq<Run>, p: string, fillTo: int) returns (r: Run)
    requires ValidEnv(env) && ForeignKeys(src) && p in env.registry
    requires Aligned(Hourly, fillTo) && PcOf(After(env, src, ActionsOf(runs)), p) == Idle
    ensures r.property == p && r.fillTo == fillTo
    ensures var sys := After(env, src, ActionsOf(runs));
            var end := After(env, src, ActionsOf(runs + [r]));
            var t := StopOf(env, sys, p, fillTo);
            && OnlyRan(sys, end, p) && PcOf(end, p) == Idle && p in end.fill && end.fill[p] == Done(t)
            && (env.registry[p].collector.Pulls? ==>
                  StatRows(end.rows, p) == IdealRows(env, env.registry[p], env.registry[p].collector.query, end.src, t))
  {
    hide StopOf, After, Inv, StatRows, IdealRows;
    var history := ActionsOf(runs);
    var sys := After(env, src, history);
    var n := RunStopsExactly(env, src, history, p, fillTo);
    r := Run(p, fillTo, n);
    assert (runs + [r])[..|runs|] == runs;
    AfterOne(env, src, history, Start(p, fillTo));
    AfterAdvances(env, src, history + [Start(p, fillTo)], p, n);
    InvAlways(env, src, history);
    StatIsNamed(env, p);
    ApplyKeeps(env, sys, Start(p, fillTo));
    UninterruptedTouches(env, Apply(env, sys, Start(p, fillTo)), env.registry[p], n);
  }

  /** Every statistic comes after its dependencies. */
  ghost predicate Ordered(env: Env, order: seq<string>) {
    forall i :: 0 <= i < |order| ==> order[i] in env.registry && DependsOnlyOn(env.registry[order[i]], order[..i])
  }

  ghost predicate DependsOnlyOn(stat: Stat, earlier: seq<string>) {
    forall d :: d in stat.dependencies ==> d in earlier
  }

  /** No run is under way, and exactly these statistics have been filled, to t. */
  ghost predicate AllFilledTo(sys: System, filled: seq<string>, t: int) {
    && (forall q :: PcOf(sys, q) == Idle)
    && (forall q :: q in sys.fill <==> q in filled)
    && (forall q :: q in filled ==> sys.fill[q] == Done(t))
  }

  lemma {:induction false} BoundedByAll(env: Env, sys: System, filled: seq<string>, t: int, deps: seq<string>,
                                        fillTo: int)
    requires ValidEnv(env) && AllFilledTo(sys, filled, t) && fillTo <= t
    requires forall d :: d in deps ==> d in env.registry && d in filled
    ensures Bounded(env, sys.fill, deps, fillTo) == Some(fillTo)
    decreases |deps|
  {
    if deps != [] {
      assert deps[0] in deps;
      StatIsNamed(env, deps[0]);
      BoundedByAll(env, sys, filled, t, deps[1..], fillTo);
    }
  }

  /** After clean runs of its dependencies to a later time, a run of p to t stops at t. */
  lemma StopsAtOnce(env: Env, sys: System, filled: seq<string>, p: string, day: int, t: int)
    requires ValidEnv(env) && p in env.registry && AllFilledTo(sys, filled, day)
    requires p in filled ==> t == day
    requires forall q :: q in filled ==> q in env.registry
    requires Aligned(env.registry[p].frequency, t) && env.epoch <= t <= day && DependsOnlyOn(env.registry[p], filled)
    ensures StopOf(env, sys, p, t) == t
  {
    StatIsNamed(env, p);
    BoundedByAll(env, sys, filled, day, env.registry[p].dependencies, t);
    HourlyToo(env.registry[p].frequency, t);
  }

  lemma {:induction false} OrderedRuns(env: Env, src: Source, order: seq<string>, day: int) returns (runs: seq<Run>)
    requires ValidEnv(env) && ForeignKeys(src) && Ordered(env, order)
    requires Aligned(Daily, day) && env.epoch <= day
    ensures |runs| == |order| && forall i :: 0 <= i < |runs| ==> runs[i].property == order[i] && runs[i].fillTo == day
    ensures After(env, src, ActionsOf(runs)).src == src && AllFilledTo(After(env, src, ActionsOf(runs)), order, day)
    decreases |order|
  {
    hide Apply, ForeignKeys, StopOf, Ordered, ValidEnv;
    if order == [] {
      runs := [];
    } else {
      var front, p := order[..|order| - 1], order[|order| - 1];
      assert order == front + [p];
      OrderedFront(env, order);
      runs := OrderedRuns(env, src, front, day);
      AlignedDayIsAligned(Hourly, day);
      AlignedDayIsAligned(env.registry[p].frequency, day);
      StopsAtOnce(env, After(env, src, ActionsOf(runs)), front, p, day, day);
      var r := RunNext(env, src, runs, p, day);
      runs := runs + [r];
    }
  }

  lemma OrderedFront(env: Env, order: seq<string>)
    requires Ordered(env, order) && order != []
    ensures Ordered(env, order[..|order| - 1])
    ensures forall q :: q in order ==> q in env.registry
    ensures DependsOnlyOn(env.registry[order[|order| - 1]], order[..|order| - 1])
  {
    var front := order[..|order| - 1];
    forall i | 0 <= i < |front| ensures front[i] in env.registry && DependsOnlyOn(env.registry[front[i]], front[..i]) {
      assert front[..i] == order[..i] && front[i] == order[i];
    }
  }

  /** Crashes leave no trace: after any history that ends with the statistic done up to t, its rows in
      all four tables are those of clean first runs over the same source, one after the other: of what it
      depends on, directly or not, each after its own dependencies, to a day not before t, and then of
      the statistic to t. */
  lemma CrashesLeaveNoTrace(env: Env, src: Source, history: seq<Action>, p: string, t: int, order: seq<string>)
    returns (runs: seq<Run>)
    requires ValidEnv(env) && ForeignKeys(src)
    requires p in env.registry && env.registry[p].collector.Pulls?
    requires Ordered(env, order) && DependsOnlyOn(env.registry[p], order) && p !in order
    requires p in After(env, src, history).fill && After(env, src, history).fill[p] == Done(t)
    ensures |runs| == |order| + 1 && runs[|order|].property == p && runs[|order|].fillTo == t
    ensures forall i :: 0 <= i < |order| ==> runs[i].property == order[i] && runs[i].fillTo == Ceiling(Daily, t)
    ensures var sys := After(env, src, history);
            var clean := After(env, sys.src, ActionsOf(runs));
            && (forall q :: PcOf(clean, q) == Idle) && p in clean.fill && clean.fill[p] == Done(t)
            && StatRows(clean.rows, p) == StatRows(sys.rows, p)
  {
    hide Apply, IdealRows, StatRows, ForeignKeys, After, Ordered;
    var sys := After(env, src, history);
    var stat := env.registry[p];
    InvAlways(env, src, history);
    StatIsNamed(env, p);
    assert StatInv(env, sys, stat);
    CrashRefinement(env, src, history, p, t);
    HourlyToo(stat.frequency, t);
    CeilingMonotone(Daily, t, t);
    OrderedKnown(env, order);
    runs := OrderedRuns(env, sys.src, order, Ceiling(Daily, t));
    StopsAtOnce(env, After(env, sys.src, ActionsOf(runs)), order, p, Ceiling(Daily, t), t);
    var r := RunNext(env, sys.src, runs, p, t);
    runs := runs + [r];
  }

  lemma OrderedKnown(env: Env, order: seq<string>)
    requires Ordered(env, order)
    ensures forall q :: q in order ==> q in env.registry
  {}

  lemma HourlyToo(f: Frequency, t: int)
    requires Aligned(f, t)
    ensures Aligned(Hourly, t) && Floor(f, t) == t
  {
    if f == Daily { AlignedDayIsAligned(Hourly, t); }
  }

  /** Running to t1 and then to t2 stops where running to the later of the two stops. */
  lemma StopsCompose(stat: Stat, from: int, t1: int, t2: int)
    ensures StopsAt(stat, StopsAt(stat, from, t1), t2) == StopsAt(stat, from, if t1 <= t2 then t2 else t1)
  {
    if t1 <= t2 && Floor(stat.frequency, t2) < Floor(stat.frequency, t1) {
      AlignedApart(stat.frequency, Floor(stat.frequency, t2), Floor(stat.frequency, t1));
    }
    if t2 <= t1 && Floor(stat.frequency, t1) < Floor(stat.frequency, t2) {
      AlignedApart(stat.frequency, Floor(stat.frequency, t1), Floor(stat.frequency, t2));
    }
  }

  /** The slots a fresh statistic has filled after a run to fillTo are the end times a reader
      asks for with time_range(epoch + increment, fillTo, frequency, None). */
  lemma FilledSlotsAreTimeRange(env: Env, stat: Stat, fillTo: int, t: int)
    requires ValidEnv(env)
    ensures Filled(env, stat, StopsAt(stat, env.epoch, fillTo), t)
        <==> t in Grid(stat.frequency, env.epoch + Increment(stat.frequency), fillTo)
  {
    var end := Floor(stat.frequency, fillTo);
    GridMember(stat.frequency, env.epoch + Increment(stat.frequency), fillTo, t);
    AlignedDayIsAligned(stat.frequency, env.epoch);
    if Aligned(stat.frequency, t) {
      if env.epoch < t { AlignedApart(stat.frequency, env.epoch, t); }
      if end < t <= fillTo { AlignedApart(stat.frequency, end, t); }
    }
  }
}
