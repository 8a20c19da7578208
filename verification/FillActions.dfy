/**
 The actions around the runs: starting, crashing, source changes and logged increments;
 and the invariant over whole histories.
 */
module FillActions {
  import opened Sums
  import opened Times
  import opened CountTables
  import opened Source
  import opened SourceGrowth
  import opened Stats
  import opened FillMachine
  import opened FillInvariant
  import opened FillSteps
  import opened FillInserts

  lemma SameFillsAdvance(env: Env, sys: System, next: System)
    requires next.fill == sys.fill
    ensures FillsAdvance(env, sys, next)
  {}

  /** A crash or the start of a run changes nothing but where runs are. */
  lemma RestartKeeps(env: Env, sys: System, next: System, p: string)
    requires ValidEnv(env) && Inv(env, sys)
    requires next == sys.(pcs := next.pcs, horizon := next.horizon) && sys.horizon <= next.horizon
    requires forall q :: q != p ==> PcOf(next, q) == PcOf(sys, q)
    requires PcOf(next, p) == Idle || (PcOf(next, p).Beginning? && PcOf(next, p).fillTo <= next.horizon)
    ensures Inv(env, next)
  {
    SameFillsAdvance(env, sys, next);
    forall q | q in env.registry
      ensures StatInv(env, next, env.registry[q]) && DependentInv(env, next, env.registry[q])
    {
      var stat := env.registry[q];
      assert WellFormedStat(env.registry, q, stat);
      assert StatInv(env, sys, stat) && DependentInv(env, sys, stat);
      if q != p {
        assert Undisturbed(env, sys, next, stat);
        StatInvFrame(env, sys, next, stat);
        DependentInvFrame(env, sys, next, stat);
      } else {
        RestartedStat(env, sys, next, stat);
      }
    }
  }

  lemma RestartedStat(env: Env, sys: System, next: System, stat: Stat)
    requires StatInv(env, sys, stat) && DependentInv(env, sys, stat)
    requires next == sys.(pcs := next.pcs, horizon := next.horizon) && sys.horizon <= next.horizon
    requires var pc := PcOf(next, stat.property); pc == Idle || (pc.Beginning? && pc.fillTo <= next.horizon)
    ensures StatInv(env, next, stat) && DependentInv(env, next, stat)
  {
    var p := stat.property;
    if p !in sys.fill {
      assert Settled(env, next, stat, env.epoch);
    } else {
      match sys.fill[p]
      case Done(e) => assert Settled(env, next, stat, e);
      case Started(e) => assert SettledBut(env, next, stat, e - Increment(stat.frequency), e);
    }
  }

  // ---------------------------------------------------------- source changes

  lemma IdealActivesStable(env: Env, src: Source, grown: Source, horizon: int, t: int)
    requires ValidEnv(env) && ForeignKeys(src) && Grows(src, grown, horizon) && t <= horizon
    ensures IdealActives(env, grown, t) == IdealActives(env, src, t)
  {
    if FIFTEEN_DAY_ACTIVES in env.registry {
      var a := env.registry[FIFTEEN_DAY_ACTIVES];
      assert WellFormedStat(env.registry, FIFTEEN_DAY_ACTIVES, a);
      ActivesStable(src, grown, horizon, FIFTEEN_DAY_ACTIVES, t - a.interval, t);
    }
  }

  /** The ideal contents of a slot do not depend on when they are computed. */
  lemma BaseStable(env: Env, src: Source, grown: Source, horizon: int, stat: Stat, slot: Rows, t: int)
    requires ValidEnv(env) && stat.property in env.registry && env.registry[stat.property] == stat
    requires ForeignKeys(src) && Grows(src, grown, horizon) && t <= horizon
    ensures Base(env, stat, grown, slot, t) == Base(env, stat, src, slot, t)
  {
    if stat.collector.Pulls? {
      assert stat.interval > 0 by { assert WellFormedStat(env.registry, stat.property, stat); }
      IdealActivesStable(env, src, grown, horizon, t);
      IdealPullStable(env, src, grown, horizon, stat, stat.collector.query, t);
    }
  }

  lemma IdealPullStable(env: Env, src: Source, grown: Source, horizon: int, stat: Stat, q: Query, t: int)
    requires stat.interval > 0 && IdealActives(env, grown, t) == IdealActives(env, src, t)
    requires ForeignKeys(src) && Grows(src, grown, horizon) && t <= horizon
    ensures IdealPull(env, stat, q, grown, t) == IdealPull(env, stat, q, src, t)
  {
    hide Pull, Grows, ForeignKeys;
    PullStable(q, src, grown, horizon, IdealActives(env, src, t), stat.property, t - stat.interval, t);
  }

  lemma SlotStable(env: Env, sys: System, grown: Source, stat: Stat, slot: Rows, upTo: int, t: int)
    requires ValidEnv(env) && stat.property in env.registry && env.registry[stat.property] == stat
    requires ForeignKeys(sys.src) && Grows(sys.src, grown, sys.horizon) && upTo <= sys.horizon
    requires SlotOk(env, stat, sys.src, slot, upTo, t)
    ensures SlotOk(env, stat, grown, slot, upTo, t)
  {
    if Filled(env, stat, upTo, t) {
      BaseStable(env, sys.src, grown, sys.horizon, stat, slot, t);
    }
  }

  lemma GrownStat(env: Env, sys: System, grown: Source, stat: Stat)
    requires Ready(env, sys, stat) && Grows(sys.src, grown, sys.horizon)
    ensures StatInv(env, sys.(src := grown), stat)
  {
    var p := stat.property;
    var next := sys.(src := grown);
    SameFillsAdvance(env, sys, next);
    assert StatInv(env, sys, stat);
    var upTo := if p !in sys.fill then env.epoch else if sys.fill[p].Done? then sys.fill[p].endTime
        else sys.fill[p].endTime - Increment(stat.frequency);
    forall t | SlotOk(env, stat, sys.src, Slot(sys.rows, p, t), upTo, t)
      ensures SlotOk(env, stat, grown, Slot(next.rows, p, t), upTo, t)
    {
      SlotStable(env, sys, grown, stat, Slot(sys.rows, p, t), upTo, t);
    }
    if p in sys.fill {
      GrownLocals(env, sys, grown, stat);
    }
  }

  lemma GrownLocals(env: Env, sys: System, grown: Source, stat: Stat)
    requires Ready(env, sys, stat) && Grows(sys.src, grown, sys.horizon) && stat.property in sys.fill
    ensures match sys.fill[stat.property]
            case Done(e) => DoneLocals(env, sys.(src := grown), stat, e, PcOf(sys, stat.property))
            case Started(e) => StartedLocals(env, sys.(src := grown), stat, e, Slot(sys.rows, stat.property, e),
                                             PcOf(sys, stat.property))
  {
    var p := stat.property;
    var next := sys.(src := grown);
    SameFillsAdvance(env, sys, next);
    assert StatInv(env, sys, stat);
    match sys.fill[p]
    case Done(e) => DoneLocalsFrame(env, sys, next, stat, e, PcOf(sys, p));
    case Started(e) =>
      var slot := Slot(sys.rows, p, e);
      forall s | env.epoch < s <= sys.horizon
        ensures Base(env, stat, next.src, slot, s) == Base(env, stat, sys.src, slot, s)
      {
        BaseStable(env, sys.src, grown, sys.horizon, stat, slot, s);
      }
      StartedLocalsFrame(env, sys, next, stat, e, slot, PcOf(sys, p));
  }

  lemma GrowKeeps(env: Env, sys: System, grown: Source)
    requires ValidEnv(env) && Inv(env, sys) && Grows(sys.src, grown, sys.horizon)
    ensures Inv(env, sys.(src := grown))
  {
    var next := sys.(src := grown);
    SameFillsAdvance(env, sys, next);
    forall q | q in env.registry
      ensures StatInv(env, next, env.registry[q]) && DependentInv(env, next, env.registry[q])
    {
      assert WellFormedStat(env.registry, q, env.registry[q]);
      GrownStat(env, sys, grown, env.registry[q]);
    }
  }

  // ------------------------------------------------------- logged increments

  /** The conflict target of the upsert is the row with exactly the same columns. */
  lemma AddOnConflictIsUpsert(sys: System, k: RowKey, increment: int)
    requires KnownRows(sys) && KnownBucket(sys.src, k.bucket)
    ensures AddOnConflict(sys.rows, k, increment) == Upsert(sys.rows, k, increment)
  {
    forall hit | hit in sys.rows && Collides(hit, k) ensures hit == k {
      KnownCollision(sys.src, hit, k);
    }
    assert Collides(k, k);
  }

  lemma UpsertSlots(rows: Rows, k: RowKey, v: int, q: string, u: int)
    ensures Slot(Upsert(rows, k, v), q, u)
         == if q == k.property && u == k.endTime then Upsert(Slot(rows, q, u), k, v) else Slot(rows, q, u)
  {}

  lemma LoggedKeyIsBase(env: Env, sys: System, e: LogEntry)
    requires MayLog(env, sys, e)
    ensures !Derived(env.registry[e.property], LogKey(env.registry[e.property], e))
  {}

  lemma LoggedStat(env: Env, sys: System, e: LogEntry)
    requires ValidEnv(env) && Inv(env, sys) && MayLog(env, sys, e)
    ensures var stat := env.registry[e.property];
            StatInv(env, sys.(rows := Upsert(sys.rows, LogKey(stat, e), e.increment)), stat)
  {
    var stat := env.registry[e.property];
    var k := LogKey(stat, e);
    var p := e.property;
    var next := sys.(rows := Upsert(sys.rows, k, e.increment));
    assert WellFormedStat(env.registry, p, stat);
    LoggedKeyIsBase(env, sys, e);
    SameFillsAdvance(env, sys, next);
    assert StatInv(env, sys, stat);
    var upTo := if p !in sys.fill then env.epoch else if sys.fill[p].Done? then sys.fill[p].endTime
        else sys.fill[p].endTime - Increment(stat.frequency);
    forall t | SlotOk(env, stat, sys.src, Slot(sys.rows, p, t), upTo, t)
      ensures SlotOk(env, stat, sys.src, Slot(next.rows, p, t), upTo, t)
    {
      UpsertSlots(sys.rows, k, e.increment, p, t);
      if t == k.endTime {
        assert !Filled(env, stat, upTo, t);
        LoggedSlot(stat, Slot(sys.rows, p, t), k, e.increment);
      }
    }
    if p in sys.fill {
      var s := sys.fill[p].endTime;
      UpsertSlots(sys.rows, k, e.increment, p, s);
      if sys.fill[p].Done? {
        DoneLocalsFrame(env, sys, next, stat, s, PcOf(sys, p));
      } else {
        StartedLocalsFrame(env, sys, next, stat, s, Slot(sys.rows, p, s), PcOf(sys, p));
      }
    }
  }

  lemma LoggedSlot(stat: Stat, slot: Rows, k: RowKey, v: int)
    requires slot == Kept(stat, slot) && !Derived(stat, k)
    ensures Upsert(slot, k, v) == Kept(stat, Upsert(slot, k, v))
  {
    forall j | j in slot ensures !Derived(stat, j) {}
  }

  lemma LogKeeps(env: Env, sys: System, e: LogEntry)
    requires ValidEnv(env) && Inv(env, sys) && MayLog(env, sys, e)
    ensures var k := LogKey(env.registry[e.property], e);
            Inv(env, sys.(rows := AddOnConflict(sys.rows, k, e.increment), ledger := sys.ledger + [e]))
  {
    var stat := env.registry[e.property];
    var k := LogKey(stat, e);
    AddOnConflictIsUpsert(sys, k, e.increment);
    var next := sys.(rows := Upsert(sys.rows, k, e.increment), ledger := sys.ledger + [e]);
    SameFillsAdvance(env, sys, next);
    forall q | q in env.registry
      ensures StatInv(env, next, env.registry[q]) && DependentInv(env, next, env.registry[q])
    {
      assert WellFormedStat(env.registry, q, env.registry[q]);
      if q == e.property {
        LoggedStat(env, sys, e);
        var mid := sys.(rows := Upsert(sys.rows, k, e.increment));
        SameFillsAdvance(env, mid, next);
        StatInvFrame(env, mid, next, stat);
      } else {
        forall t ensures Slot(next.rows, q, t) == Slot(sys.rows, q, t) { UpsertSlots(sys.rows, k, e.increment, q, t); }
        StatInvFrame(env, sys, next, env.registry[q]);
      }
    }
  }

  // ------------------------------------------------------------- histories

  lemma ApplyKeeps(env: Env, sys: System, a: Action)
    requires ValidEnv(env) && Inv(env, sys)
    ensures Inv(env, Apply(env, sys, a)) && FillsAdvance(env, sys, Apply(env, sys, a))
  {
    var next := Apply(env, sys, a);
    match a
    case Start(p, fillTo) =>
      SameFillsAdvance(env, sys, next);
      if PcOf(sys, p) == Idle { RestartKeeps(env, sys, next, p); }
    case Advance(p) =>
      if p in env.registry {
        assert WellFormedStat(env.registry, p, env.registry[p]);
        StepKeeps(env, sys, env.registry[p]);
      }
    case Crash(p) => SameFillsAdvance(env, sys, next); RestartKeeps(env, sys, next, p);
    case Grow(grown) =>
      SameFillsAdvance(env, sys, next);
      if Grows(sys.src, grown, sys.horizon) { GrowKeeps(env, sys, grown); }
    case Log(e) =>
      SameFillsAdvance(env, sys, next);
      if MayLog(env, sys, e) && e.increment != 0 { LogKeeps(env, sys, e); }
  }

  /** The invariant holds after every history. */
  lemma {:induction false} InvAlways(env: Env, src: Source, history: seq<Action>)
    requires ValidEnv(env) && ForeignKeys(src)
    ensures Inv(env, After(env, src, history))
  {
    if history == [] {
      var sys := Initial(env, src);
      forall p | p in env.registry
        ensures StatInv(env, sys, env.registry[p]) && DependentInv(env, sys, env.registry[p])
      {
        assert WellFormedStat(env.registry, p, env.registry[p]);
        assert Settled(env, sys, env.registry[p], env.epoch);
      }
    } else {
      var before := history[..|history| - 1];
      InvAlways(env, src, before);
      ApplyKeeps(env, After(env, src, before), history[|history| - 1]);
    }
  }

  /** What the theorems about a filled slot start from. */
  lemma Reached(env: Env, src: Source, history: seq<Action>, filled: seq<string>, p: string, t: int)
    requires ValidEnv(env) && ForeignKeys(src) && p in env.registry && p in filled
    requires DependenciesReach(env, After(env, src, history), filled, t)
    ensures env.registry[p].property == p
    ensures var sys := After(env, src, history);
            var last := LastSuccessfulFill(env.registry[p], sys.fill);
            ForeignKeys(sys.src) && Ready(env, sys, env.registry[p]) && last.Some? && t <= last.value
  {
    InvAlways(env, src, history);
    assert WellFormedStat(env.registry, p, env.registry[p]);
  }
}
