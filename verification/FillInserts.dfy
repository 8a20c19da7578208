/**
 The INSERT statements of a fill: none can violate a unique constraint, and each brings
 the slot one stage further.
 */
module FillInserts {
  import opened Sums
  import opened Times
  import opened CountTables
  import opened Source
  import opened Stats
  import opened FillMachine
  import opened FillInvariant
  import opened FillSteps

  /** Rows with known buckets that violate a constraint are the same row. */
  lemma KnownCollision(src: Source, a: RowKey, b: RowKey)
    requires KnownBucket(src, a.bucket) && KnownBucket(src, b.bucket) && Collides(a, b)
    ensures a == b
  {}

  lemma InsertableIntoSlot(sys: System, added: Rows, p: string, t: int, table: Table)
    requires KnownRows(sys) && InSlot(added, p, t) && InTable(added, table)
    requires forall k :: k in added ==> KnownBucket(sys.src, k.bucket)
    requires forall k :: k in Slot(sys.rows, p, t) ==> k.bucket.Home() != table
    ensures Insertable(sys.rows, added)
  {
    forall a, b | a in added && b in added && a != b ensures !Collides(a, b) {
      if Collides(a, b) { KnownCollision(sys.src, a, b); }
    }
    forall a, b | a in sys.rows && b in added ensures !Collides(a, b) {
      assert a.property == p && a.endTime == t ==> a in Slot(sys.rows, p, t);
      if Collides(a, b) { KnownCollision(sys.src, a, b); }
    }
  }

  /** An accepted INSERT into the slot being filled disturbs no other slot. */
  lemma InsertedSlots(sys: System, stat: Stat, added: Rows, e: int, pc: Pc)
    requires KnownRows(sys) && InSlot(added, stat.property, e) && Insertable(sys.rows, added)
    requires forall k :: k in added ==> KnownBucket(sys.src, k.bucket)
    ensures var next := InsertThen(sys, stat, added, pc);
            && OnlyTouches(sys, next, stat) && KnownRows(next) && next.fill == sys.fill
            && PcOf(next, stat.property) == pc
            && Slot(next.rows, stat.property, e) == Slot(sys.rows, stat.property, e) + added
            && forall t :: t != e ==> Slot(next.rows, stat.property, t) == Slot(sys.rows, stat.property, t)
  {
    var next := InsertThen(sys, stat, added, pc);
    assert next.rows == sys.rows + added;
    forall q, u ensures Slot(next.rows, q, u)
                     == if q == stat.property && u == e then Slot(sys.rows, stat.property, e) + added
                         else Slot(sys.rows, q, u) {
      SlotOfInsert(sys.rows, added, stat.property, e, q, u);
    }
  }

  /** The invariant after an accepted INSERT, given what the slot now holds. */
  lemma InsertKeeps(env: Env, sys: System, stat: Stat, added: Rows, e: int, pc: Pc)
    requires Ready(env, sys, stat)
    requires stat.property in sys.fill && sys.fill[stat.property] == Started(e)
    requires InSlot(added, stat.property, e) && Insertable(sys.rows, added)
    requires forall k :: k in added ==> KnownBucket(sys.src, k.bucket)
    requires StartedLocals(env, sys, stat, e, Slot(sys.rows, stat.property, e) + added, pc)
    ensures KeepsStat(env, sys, InsertThen(sys, stat, added, pc), stat)
  {
    InsertedSlots(sys, stat, added, e, pc);
    var next := InsertThen(sys, stat, added, pc);
    assert StatInv(env, sys, stat) && DependentInv(env, sys, stat);
    assert FillAdvances(stat, sys, next);
    TouchedFillsAdvance(env, sys, next, stat);
    assert SettledBut(env, next, stat, e - Increment(stat.frequency), e);
    StartedLocalsFrame(env, sys, next, stat, e, Slot(next.rows, stat.property, e), pc);
    if e > env.epoch {
      DependenciesStillReach(env, sys, next, stat.dependencies, e);
    }
  }

  // ------------------------------------------------------------- the pull

  lemma PullIgnoresActives(q: Query, src: Source, a: Rows, b: Rows, p: string, start: int, end: int)
    requires q != CountActiveHumans
    ensures Pull(q, src, a, p, start, end) == Pull(q, src, b, p, start, end)
  {}

  lemma OnlyAdded(base: Rows, added: Rows, table: Table, other: Table)
    requires InTable(added, other) && table != other
    ensures Only(base + added, table) == Only(base, table)
  {}

  lemma OnlyBase(stat: Stat, base: Rows, p: string, t: int)
    requires InSlot(base, p, t) && InTable(base, UserCount)
    ensures Only(Complete(stat, base), UserCount) == base
  {
    RealmRowsShaped(stat, base, p, t);
    OnlyAdded(base, RealmRows(stat, base), UserCount, RealmCount);
    InstallationRowsShaped(WithRealm(stat, base), p, t);
    OnlyAdded(WithRealm(stat, base), InstallationRows(WithRealm(stat, base)), UserCount, InstallationCount);
  }

  /** A slot up to the last successful fill is complete, whatever its statistic is doing now. */
  lemma FilledSlot(env: Env, sys: System, stat: Stat, t: int)
    requires Ready(env, sys, stat) && Filled(env, stat, t, t)
    requires LastSuccessfulFill(stat, sys.fill).Some? && t <= LastSuccessfulFill(stat, sys.fill).value
    ensures var slot := Slot(sys.rows, stat.property, t);
            slot == Complete(stat, Base(env, stat, sys.src, slot, t))
  {
    var last := LastSuccessfulFill(stat, sys.fill).value;
    assert StatInv(env, sys, stat);
    assert SlotOk(env, stat, sys.src, Slot(sys.rows, stat.property, t), last, t);
  }

  /** At a slot no later than its last successful fill, 15day_actives is complete. */
  lemma ActivesComplete(env: Env, sys: System, t: int)
    requires ValidEnv(env) && Inv(env, sys) && FIFTEEN_DAY_ACTIVES in env.registry
    requires env.registry[FIFTEEN_DAY_ACTIVES].collector == Pulls(ListActives)
    requires Filled(env, env.registry[FIFTEEN_DAY_ACTIVES], t, t)
    requires DependenciesReach(env, sys, [FIFTEEN_DAY_ACTIVES], t)
    ensures StoredActives(sys.rows, t) == IdealActives(env, sys.src, t)
  {
    var stat := env.registry[FIFTEEN_DAY_ACTIVES];
    var p := FIFTEEN_DAY_ACTIVES;
    assert WellFormedStat(env.registry, p, stat);
    assert p in [p];
    FilledSlot(env, sys, stat, t);
    ActivesOfComplete(env, stat, sys.src, Slot(sys.rows, p, t), t);
  }

  lemma ActivesOfComplete(env: Env, stat: Stat, src: Source, slot: Rows, t: int)
    requires stat.property == FIFTEEN_DAY_ACTIVES && stat.collector == Pulls(ListActives)
    requires FIFTEEN_DAY_ACTIVES in env.registry && env.registry[FIFTEEN_DAY_ACTIVES] == stat
    requires slot == Complete(stat, Base(env, stat, src, slot, t))
    ensures Only(slot, UserCount) == IdealActives(env, src, t)
  {
    hide Complete, ActiveRows, Only;
    var base := Base(env, stat, src, slot, t);
    BaseShaped(env, stat, ListActives, src, t);
    OnlyBase(stat, base, FIFTEEN_DAY_ACTIVES, t);
  }

  lemma PulledIsIdeal(env: Env, sys: System, stat: Stat, q: Query, t: int)
    requires Ready(env, sys, stat) && stat.collector == Pulls(q)
    requires Aligned(stat.frequency, t) && env.epoch < t
    requires DependenciesReach(env, sys, stat.dependencies, t)
    ensures PulledRows(stat, sys, t) == IdealPull(env, stat, q, sys.src, t)
  {
    if q == CountActiveHumans {
      assert WellFormedStat(env.registry, stat.property, stat);
      assert DependenciesReach(env, sys, [FIFTEEN_DAY_ACTIVES], t) by {
        assert FIFTEEN_DAY_ACTIVES in stat.dependencies;
      }
      ActivesComplete(env, sys, t);
    } else {
      PullIgnoresActives(q, sys.src, StoredActives(sys.rows, t), IdealActives(env, sys.src, t), stat.property,
                         t - stat.interval, t);
    }
  }

  /** In a reachable state about to pull, the rows to insert and where they go. */
  lemma PullingFacts(env: Env, sys: System, stat: Stat)
    requires Ready(env, sys, stat) && PcOf(sys, stat.property).Pulling?
    ensures stat.collector.Pulls?
    ensures var e := PcOf(sys, stat.property).slot;
            var added := PulledRows(stat, sys, e);
            && stat.property in sys.fill && sys.fill[stat.property] == Started(e)
            && added == IdealPull(env, stat, stat.collector.query, sys.src, e)
            && Shaped(added, sys.src, OutputOf(stat.collector.query), stat.property, e)
            && Slot(sys.rows, stat.property, e) == map[]
            && Insertable(sys.rows, added)
  {
    assert StatInv(env, sys, stat);
    var e := PcOf(sys, stat.property).slot;
    var q := stat.collector.query;
    assert DependenciesReach(env, sys, stat.dependencies, e);
    PulledIsIdeal(env, sys, stat, q, e);
    BaseShaped(env, stat, q, sys.src, e);
    InsertableIntoSlot(sys, PulledRows(stat, sys, e), stat.property, e, OutputOf(q));
  }

  lemma PullingStep(env: Env, sys: System, stat: Stat)
    requires Ready(env, sys, stat) && PcOf(sys, stat.property).Pulling?
    ensures KeepsStat(env, sys, Step(env, sys, stat), stat)
  {
    PullingFacts(env, sys, stat);
    var Pulling(fillTo, e) := PcOf(sys, stat.property);
    var added := PulledRows(stat, sys, e);
    assert StatInv(env, sys, stat);
    assert map[] + added == added;
    InsertKeeps(env, sys, stat, added, e, Aggregating(fillTo, e));
  }

  // --------------------------------------------------------- aggregation

  /** Aggregated rows carry no user or stream. */
  lemma AggregatesKnown(src: Source, slot: Rows, stat: Stat)
    ensures forall k :: k in RealmRows(stat, slot) ==> KnownBucket(src, k.bucket)
    ensures forall k :: k in InstallationRows(slot) ==> KnownBucket(src, k.bucket)
  {
    if DependsOnRealm(stat) {
      RollKeys(Only(slot, OutputTable(stat).value), ToRealm);
    }
    RollKeys(Only(slot, RealmCount), ToInstallation);
  }

  lemma BaseHasNoRealmRows(env: Env, stat: Stat, src: Source, slot: Rows, t: int)
    requires DependsOnRealm(stat) && slot == Base(env, stat, src, slot, t)
    ensures forall k :: k in slot ==> k.bucket.Home() != RealmCount
  {
    if stat.collector.Pulls? {
      BaseShaped(env, stat, stat.collector.query, src, t);
    } else {
      assert RealmCount in UndoTables(stat);
    }
  }

  lemma AggregatingFacts(env: Env, sys: System, stat: Stat)
    requires Ready(env, sys, stat) && PcOf(sys, stat.property).Aggregating?
    ensures var e := PcOf(sys, stat.property).slot;
            var slot := Slot(sys.rows, stat.property, e);
            var added := RealmRows(stat, slot);
            && stat.property in sys.fill && sys.fill[stat.property] == Started(e)
            && slot == Base(env, stat, sys.src, slot, e)
            && InSlot(added, stat.property, e)
            && (forall k :: k in added ==> KnownBucket(sys.src, k.bucket))
            && Insertable(sys.rows, added)
  {
    assert StatInv(env, sys, stat);
    var e := PcOf(sys, stat.property).slot;
    var slot := Slot(sys.rows, stat.property, e);
    if DependsOnRealm(stat) {
      RealmRowsShaped(stat, slot, stat.property, e);
      BaseHasNoRealmRows(env, stat, sys.src, slot, e);
      AggregatesKnown(sys.src, slot, stat);
      InsertableIntoSlot(sys, RealmRows(stat, slot), stat.property, e, RealmCount);
    }
  }

  lemma AggregatingStep(env: Env, sys: System, stat: Stat)
    requires Ready(env, sys, stat) && PcOf(sys, stat.property).Aggregating?
    ensures KeepsStat(env, sys, Step(env, sys, stat), stat)
  {
    AggregatingFacts(env, sys, stat);
    var Aggregating(fillTo, e) := PcOf(sys, stat.property);
    var slot := Slot(sys.rows, stat.property, e);
    assert StatInv(env, sys, stat);
    KeptOfWithRealm(stat, slot, stat.property, e);
    InsertKeeps(env, sys, stat, RealmRows(stat, slot), e, Summarizing(fillTo, e));
  }

  lemma BaseHasNoInstallationRows(env: Env, stat: Stat, src: Source, slot: Rows, p: string, t: int)
    requires InSlot(slot, p, t) && p == stat.property && slot == WithRealm(stat, Base(env, stat, src, slot, t))
    ensures forall k :: k in slot ==> k.bucket.Home() != InstallationCount
  {
    var base := Base(env, stat, src, slot, t);
    if stat.collector.Pulls? {
      BaseShaped(env, stat, stat.collector.query, src, t);
    } else {
      assert InstallationCount in UndoTables(stat);
    }
    RealmRowsShaped(stat, base, p, t);
  }

  lemma SummarizingFacts(env: Env, sys: System, stat: Stat)
    requires Ready(env, sys, stat) && PcOf(sys, stat.property).Summarizing?
    ensures var e := PcOf(sys, stat.property).slot;
            var slot := Slot(sys.rows, stat.property, e);
            var added := InstallationRows(slot);
            && stat.property in sys.fill && sys.fill[stat.property] == Started(e)
            && slot == WithRealm(stat, Base(env, stat, sys.src, slot, e))
            && InSlot(added, stat.property, e)
            && (forall k :: k in added ==> KnownBucket(sys.src, k.bucket))
            && Insertable(sys.rows, added)
  {
    assert StatInv(env, sys, stat);
    var e := PcOf(sys, stat.property).slot;
    var slot := Slot(sys.rows, stat.property, e);
    InstallationRowsShaped(slot, stat.property, e);
    BaseHasNoInstallationRows(env, stat, sys.src, slot, stat.property, e);
    AggregatesKnown(sys.src, slot, stat);
    InsertableIntoSlot(sys, InstallationRows(slot), stat.property, e, InstallationCount);
  }

  lemma SummarizingStep(env: Env, sys: System, stat: Stat)
    requires Ready(env, sys, stat) && PcOf(sys, stat.property).Summarizing?
    ensures KeepsStat(env, sys, Step(env, sys, stat), stat)
  {
    SummarizingFacts(env, sys, stat);
    var Summarizing(fillTo, e) := PcOf(sys, stat.property);
    var slot := Slot(sys.rows, stat.property, e);
    assert StatInv(env, sys, stat);
    InstallationRowsDerived(stat, slot, stat.property, e);
    KeptOfAdded(stat, slot, InstallationRows(slot));
    InsertKeeps(env, sys, stat, InstallationRows(slot), e, Finishing(fillTo, e));
  }

  lemma StepKeepsOwn(env: Env, sys: System, stat: Stat)
    requires Ready(env, sys, stat) && PcOf(sys, stat.property) != Idle
    ensures KeepsStat(env, sys, Step(env, sys, stat), stat)
  {
    match PcOf(sys, stat.property)
    case Beginning(_) => BeginningStep(env, sys, stat);
    case Undoing(_, _, left) => if left != [] { UndoingStep(env, sys, stat); } else { UndoneStep(env, sys, stat); }
    case Checking(_, _, _) => CheckingStep(env, sys, stat);
    case Looping(_, _) => LoopingStep(env, sys, stat);
    case Pulling(_, _) => PullingStep(env, sys, stat);
    case Aggregating(_, _) => AggregatingStep(env, sys, stat);
    case Summarizing(_, _) => SummarizingStep(env, sys, stat);
    case Finishing(_, _) => FinishingStep(env, sys, stat);
  }

  /** Every step of a run keeps the invariant and moves no fill backwards. */
  lemma StepKeeps(env: Env, sys: System, stat: Stat)
    requires Ready(env, sys, stat)
    ensures Inv(env, Step(env, sys, stat)) && FillsAdvance(env, sys, Step(env, sys, stat))
  {
    if PcOf(sys, stat.property) != Idle {
      var next := Step(env, sys, stat);
      StepKeepsOwn(env, sys, stat);
      OthersKept(env, sys, next, stat);
      TouchedFillsAdvance(env, sys, next, stat);
    }
  }
}
