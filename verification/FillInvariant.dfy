/**
 What holds of the tables after every history of runs, crashes, increments and source
 changes: slots up to the last successful fill are exactly right, the slot being filled
 is as far as the run has got (or arbitrary after a crash), later slots hold nothing a
 fill has written.
 */
module FillInvariant {
  import opened Times
  import opened CountTables
  import opened Source
  import opened Stats
  import opened FillMachine

  ghost predicate Settled(env: Env, sys: System, stat: Stat, upTo: int) {
    forall t :: SlotOk(env, stat, sys.src, Slot(sys.rows, stat.property, t), upTo, t)
  }

  /** Settled everywhere but in the slot being filled. */
  ghost predicate SettledBut(env: Env, sys: System, stat: Stat, upTo: int, open: int) {
    forall t :: t != open ==> SlotOk(env, stat, sys.src, Slot(sys.rows, stat.property, t), upTo, t)
  }

  ghost predicate GoodEnd(env: Env, sys: System, stat: Stat, t: int) {
    Aligned(stat.frequency, t) && env.epoch <= t <= sys.horizon
  }

  /** Every dependency has successfully been filled up to t. */
  ghost predicate DependenciesReach(env: Env, sys: System, deps: seq<string>, t: int) {
    forall d :: d in deps ==>
      d in env.registry && var last := LastSuccessfulFill(env.registry[d], sys.fill); last.Some? && t <= last.value
  }

  ghost predicate DoneLocals(env: Env, sys: System, stat: Stat, filled: int, pc: Pc) {
    match pc
    case Idle => true
    case Beginning(fillTo) => fillTo <= sys.horizon
    case Checking(fillTo, f, unread) =>
      f == filled && fillTo <= sys.horizon && (forall d :: d in unread ==> d in stat.dependencies)
      && forall d :: d in stat.dependencies && d !in unread ==> DependenciesReach(env, sys, [d], fillTo)
    case Looping(fillTo, f) => f == filled && fillTo <= sys.horizon
        && DependenciesReach(env, sys, stat.dependencies, fillTo)
    case _ => false
  }

  /** The part of slot already written when the run is at pc. */
  ghost predicate StartedLocals(env: Env, sys: System, stat: Stat, t: int, slot: Rows, pc: Pc) {
    match pc
    case Idle => true
    case Beginning(fillTo) => fillTo <= sys.horizon
    case Undoing(fillTo, s, left) =>
      s == t && fillTo <= sys.horizon && (forall k :: k in slot && Derived(stat, k) ==> k.bucket.Home() in left)
      && (forall d :: d in left ==> d in UndoTables(stat))
    case Pulling(fillTo, s) => s == t && InRun(env, sys, stat, fillTo, t) && stat.collector.Pulls? && slot == map[]
    case Aggregating(fillTo, s) => s == t && InRun(env, sys, stat, fillTo, t)
        && slot == Base(env, stat, sys.src, slot, t)
    case Summarizing(fillTo, s) =>
      s == t && InRun(env, sys, stat, fillTo, t) && slot == WithRealm(stat, Base(env, stat, sys.src, slot, t))
    case Finishing(fillTo, s) =>
      s == t && InRun(env, sys, stat, fillTo, t) && slot == Complete(stat, Base(env, stat, sys.src, slot, t))
    case _ => false
  }

  ghost predicate InRun(env: Env, sys: System, stat: Stat, fillTo: int, t: int) {
    t <= fillTo <= sys.horizon && DependenciesReach(env, sys, stat.dependencies, fillTo)
  }

  ghost predicate StatInv(env: Env, sys: System, stat: Stat) {
    var p := stat.property;
    var pc := PcOf(sys, p);
    if p !in sys.fill then
      Settled(env, sys, stat, env.epoch) && (pc == Idle || (pc.Beginning? && pc.fillTo <= sys.horizon))
    else
      match sys.fill[p]
      case Done(e) => GoodEnd(env, sys, stat, e) && Settled(env, sys, stat, e) && DoneLocals(env, sys, stat, e, pc)
      case Started(e) =>
        && GoodEnd(env, sys, stat, e) && env.epoch < e
        && SettledBut(env, sys, stat, e - Increment(stat.frequency), e)
        && StartedLocals(env, sys, stat, e, Slot(sys.rows, p, e), pc)
  }

  /** A statistic is never filled, nor being filled, past a dependency. */
  ghost predicate DependentInv(env: Env, sys: System, stat: Stat) {
    stat.property in sys.fill && sys.fill[stat.property].endTime > env.epoch
    ==> DependenciesReach(env, sys, stat.dependencies, sys.fill[stat.property].endTime)
  }

  ghost predicate KnownRows(sys: System) {
    forall k :: k in sys.rows ==> KnownBucket(sys.src, k.bucket)
  }

  ghost predicate Inv(env: Env, sys: System) {
    && ForeignKeys(sys.src)
    && env.epoch <= sys.horizon
    && KnownRows(sys)
    && forall p :: p in env.registry ==> StatInv(env, sys, env.registry[p]) && DependentInv(env, sys, env.registry[p])
  }

  // ------------------------------------------------------------------ frames

  /** Everything StatInv reads about stat is as before, or only further ahead. */
  ghost predicate Undisturbed(env: Env, sys: System, next: System, stat: Stat) {
    && next.src == sys.src
    && sys.horizon <= next.horizon
    && (forall t :: Slot(next.rows, stat.property, t) == Slot(sys.rows, stat.property, t))
    && (stat.property in next.fill <==> stat.property in sys.fill)
    && (stat.property in sys.fill ==> next.fill[stat.property] == sys.fill[stat.property])
    && PcOf(next, stat.property) == PcOf(sys, stat.property)
  }

  /** last_successful_fill of every statistic is at least what it was. */
  ghost predicate FillsAdvance(env: Env, sys: System, next: System) {
    forall p :: p in env.registry ==> FillAdvances(env.registry[p], sys, next)
  }

  ghost predicate FillAdvances(stat: Stat, sys: System, next: System) {
    LastSuccessfulFill(stat, sys.fill).Some? ==>
      && LastSuccessfulFill(stat, next.fill).Some?
      && LastSuccessfulFill(stat, sys.fill).value <= LastSuccessfulFill(stat, next.fill).value
  }

  lemma DependenciesStillReach(env: Env, sys: System, next: System, deps: seq<string>, t: int)
    requires FillsAdvance(env, sys, next) && DependenciesReach(env, sys, deps, t)
    ensures DependenciesReach(env, next, deps, t)
  {
    forall d | d in deps
      ensures d in env.registry && var last := LastSuccessfulFill(env.registry[d], next.fill);
                last.Some? && t <= last.value
    {
      assert FillAdvances(env.registry[d], sys, next);
    }
  }

  lemma DoneLocalsFrame(env: Env, sys: System, next: System, stat: Stat, filled: int, pc: Pc)
    requires FillsAdvance(env, sys, next) && sys.horizon <= next.horizon
    requires DoneLocals(env, sys, stat, filled, pc)
    ensures DoneLocals(env, next, stat, filled, pc)
  {
    match pc
    case Checking(fillTo, f, unread) =>
      forall d | d in stat.dependencies && d !in unread ensures DependenciesReach(env, next, [d], fillTo) {
        DependenciesStillReach(env, sys, next, [d], fillTo);
      }
    case Looping(fillTo, f) => DependenciesStillReach(env, sys, next, stat.dependencies, fillTo);
    case _ =>
  }

  lemma StartedLocalsFrame(env: Env, sys: System, next: System, stat: Stat, t: int, slot: Rows, pc: Pc)
    requires FillsAdvance(env, sys, next) && sys.horizon <= next.horizon
    requires forall s :: env.epoch < s <= sys.horizon ==>
               Base(env, stat, next.src, slot, s) == Base(env, stat, sys.src, slot, s)
    requires env.epoch < t <= sys.horizon
    requires StartedLocals(env, sys, stat, t, slot, pc)
    ensures StartedLocals(env, next, stat, t, slot, pc)
  {
    if pc.Pulling? || pc.Aggregating? || pc.Summarizing? || pc.Finishing? {
      DependenciesStillReach(env, sys, next, stat.dependencies, pc.fillTo);
      assert InRun(env, next, stat, pc.fillTo, t);
    }
  }

  /** Steps of other statistics, crashes elsewhere and later horizons keep the invariant. */
  lemma StatInvFrame(env: Env, sys: System, next: System, stat: Stat)
    requires FillsAdvance(env, sys, next) && Undisturbed(env, sys, next, stat)
    requires StatInv(env, sys, stat)
    ensures StatInv(env, next, stat)
  {
    var p := stat.property;
    if p in sys.fill {
      match sys.fill[p]
      case Done(e) => DoneLocalsFrame(env, sys, next, stat, e, PcOf(sys, p));
      case Started(e) => StartedLocalsFrame(env, sys, next, stat, e, Slot(sys.rows, p, e), PcOf(sys, p));
    }
  }

  lemma DependentInvFrame(env: Env, sys: System, next: System, stat: Stat)
    requires FillsAdvance(env, sys, next) && Undisturbed(env, sys, next, stat)
    requires DependentInv(env, sys, stat)
    ensures DependentInv(env, next, stat)
  {
    if stat.property in sys.fill && sys.fill[stat.property].endTime > env.epoch {
      DependenciesStillReach(env, sys, next, stat.dependencies, sys.fill[stat.property].endTime);
    }
  }
}
