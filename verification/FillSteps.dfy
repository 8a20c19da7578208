/**
 Every action keeps the invariant, one kind of step at a time.
 */
module FillSteps {
  import opened Times
  import opened CountTables
  import opened Source
  import opened Stats
  import opened FillMachine
  import opened FillInvariant

  /** What a step of stat leaves alone. */
  ghost predicate OnlyTouches(sys: System, next: System, stat: Stat) {
    && next.src == sys.src && next.horizon == sys.horizon && next.ledger == sys.ledger
    && (forall q, t :: q != stat.property ==> Slot(next.rows, q, t) == Slot(sys.rows, q, t))
    && (forall q :: q != stat.property ==> (q in next.fill <==> q in sys.fill) && PcOf(next, q) == PcOf(sys, q))
    && (forall q :: q != stat.property && q in sys.fill ==> next.fill[q] == sys.fill[q])
  }

  ghost predicate KeepsStat(env: Env, sys: System, next: System, stat: Stat) {
    OnlyTouches(sys, next, stat) && FillAdvances(stat, sys, next) && KnownRows(next)
    && StatInv(env, next, stat) && DependentInv(env, next, stat)
  }

  ghost predicate Ready(env: Env, sys: System, stat: Stat) {
    && ValidEnv(env) && Inv(env, sys)
    && stat.property in env.registry && env.registry[stat.property] == stat
  }

  lemma TouchedFillsAdvance(env: Env, sys: System, next: System, stat: Stat)
    requires ValidEnv(env) && OnlyTouches(sys, next, stat) && FillAdvances(stat, sys, next)
    requires stat.property in env.registry && env.registry[stat.property] == stat
    ensures FillsAdvance(env, sys, next)
  {
    forall p | p in env.registry ensures FillAdvances(env.registry[p], sys, next) {
      assert WellFormedStat(env.registry, p, env.registry[p]);
    }
  }

  lemma OthersKept(env: Env, sys: System, next: System, stat: Stat)
    requires Ready(env, sys, stat) && KeepsStat(env, sys, next, stat)
    ensures Inv(env, next)
  {
    TouchedFillsAdvance(env, sys, next, stat);
    forall p | p in env.registry
      ensures StatInv(env, next, env.registry[p]) && DependentInv(env, next, env.registry[p])
    {
      assert WellFormedStat(env.registry, p, env.registry[p]);
      if p != stat.property {
        assert Undisturbed(env, sys, next, env.registry[p]);
        StatInvFrame(env, sys, next, env.registry[p]);
        DependentInvFrame(env, sys, next, env.registry[p]);
      }
    }
  }

  // ---------------------------------------------------------- run steps

  lemma BeginningStep(env: Env, sys: System, stat: Stat)
    requires Ready(env, sys, stat) && PcOf(sys, stat.property).Beginning?
    ensures KeepsStat(env, sys, Step(env, sys, stat), stat)
  {
    hide KeepsStat, Step, Inv;
    if stat.property in sys.fill {
      ResumedRunStep(env, sys, stat);
    } else {
      FirstRunStep(env, sys, stat);
    }
  }

  /** The first run ever marks the statistic as done up to the epoch. */
  lemma FirstRunStep(env: Env, sys: System, stat: Stat)
    requires Ready(env, sys, stat) && PcOf(sys, stat.property).Beginning? && stat.property !in sys.fill
    ensures KeepsStat(env, sys, Step(env, sys, stat), stat)
  {
    hide SlotOk, Slot, PulledRows, RealmRows, InstallationRows, Insertable, Delete, UndoTables, KnownBucket;
    assert StatInv(env, sys, stat) && DependentInv(env, sys, stat);
    AlignedDayIsAligned(stat.frequency, env.epoch);
    assert Settled(env, Step(env, sys, stat), stat, env.epoch);
  }

  lemma ResumedRunStep(env: Env, sys: System, stat: Stat)
    requires Ready(env, sys, stat) && PcOf(sys, stat.property).Beginning? && stat.property in sys.fill
    ensures KeepsStat(env, sys, Step(env, sys, stat), stat)
  {
    hide SlotOk, Slot, PulledRows, RealmRows, InstallationRows, Insertable, Delete, UndoTables, KnownBucket, Aligned;
    assert StatInv(env, sys, stat) && DependentInv(env, sys, stat);
    var next := Step(env, sys, stat);
    match sys.fill[stat.property]
    case Done(e) => assert Settled(env, next, stat, e);
    case Started(e) => assert SettledBut(env, next, stat, e - Increment(stat.frequency), e);
  }

  lemma UndoneTable(sys: System, next: System, stat: Stat, e: int, table: Table)
    requires next.rows == Delete(sys.rows, table, stat.property, e)
    ensures forall q, t :: (q != stat.property || t != e) ==> Slot(next.rows, q, t) == Slot(sys.rows, q, t)
    ensures forall k :: k in Slot(next.rows, stat.property, e) ==>
              k in Slot(sys.rows, stat.property, e) && k.bucket.Home() != table
    ensures forall k :: k in next.rows ==> k in sys.rows
  {
    forall q, u ensures Slot(next.rows, q, u)
                     == if q == stat.property && u == e
                        then Delete(Slot(sys.rows, stat.property, e), table, stat.property, e)
                        else Slot(sys.rows, q, u) {
      SlotOfDelete(sys.rows, table, stat.property, e, q, u);
    }
  }

  /** Deleting the slot being undone from one table changes no other slot. */
  lemma UndoingStep(env: Env, sys: System, stat: Stat)
    requires Ready(env, sys, stat) && PcOf(sys, stat.property).Undoing? && PcOf(sys, stat.property).left != []
    ensures KeepsStat(env, sys, Step(env, sys, stat), stat)
  {
    hide SlotOk, RealmRows, InstallationRows, Insertable, PulledRows, Aligned, Slot, Delete, UndoTables;
    var Undoing(fillTo, e, left) := PcOf(sys, stat.property);
    assert StatInv(env, sys, stat) && DependentInv(env, sys, stat);
    var next := Step(env, sys, stat);
    UndoneTable(sys, next, stat, e, left[0]);
    assert SettledBut(env, next, stat, e - Increment(stat.frequency), e);
  }

  /** With all derived rows deleted, the slot counts as not filled and the fill steps back. */
  lemma UndoneStep(env: Env, sys: System, stat: Stat)
    requires Ready(env, sys, stat) && PcOf(sys, stat.property).Undoing? && PcOf(sys, stat.property).left == []
    ensures KeepsStat(env, sys, Step(env, sys, stat), stat)
  {
    hide PulledRows, RealmRows, InstallationRows, Insertable, Delete, KnownBucket, WithRealm, Complete, IdealPull, Slot;
    var p := stat.property;
    var Undoing(fillTo, e, left) := PcOf(sys, p);
    var inc := Increment(stat.frequency);
    assert StatInv(env, sys, stat) && DependentInv(env, sys, stat);
    var next := Step(env, sys, stat);
    AlignedStep(stat.frequency, e);
    AlignedDayIsAligned(stat.frequency, env.epoch);
    AlignedApart(stat.frequency, env.epoch, e);
    assert Slot(sys.rows, p, e) == Kept(stat, Slot(sys.rows, p, e));
    forall t ensures SlotOk(env, stat, next.src, Slot(next.rows, p, t), e - inc, t) {
      if t != e {
        assert SlotOk(env, stat, sys.src, Slot(sys.rows, p, t), e - inc, t);
      }
    }
    UndoneDependent(env, sys, next, stat, e);
  }

  lemma UndoneDependent(env: Env, sys: System, next: System, stat: Stat, e: int)
    requires DependentInv(env, sys, stat) && Ready(env, sys, stat)
    requires stat.property in sys.fill && sys.fill[stat.property] == Started(e) && env.epoch < e
    requires next.fill == sys.fill[stat.property := Done(e - Increment(stat.frequency))]
    ensures DependentInv(env, next, stat)
  {
    assert WellFormedStat(env.registry, stat.property, stat);
    assert DependenciesReach(env, sys, stat.dependencies, e);
    forall d | d in stat.dependencies
      ensures d in env.registry && var last := LastSuccessfulFill(env.registry[d], next.fill);
              last.Some? && e - Increment(stat.frequency) <= last.value
    {
      assert WellFormedStat(env.registry, d, env.registry[d]);
    }
  }

  lemma CheckingStep(env: Env, sys: System, stat: Stat)
    requires Ready(env, sys, stat) && PcOf(sys, stat.property).Checking?
    ensures KeepsStat(env, sys, Step(env, sys, stat), stat)
  {
    hide KeepsStat, Step, Inv;
    if PcOf(sys, stat.property).unread == [] {
      AllCheckedStep(env, sys, stat);
    } else {
      ReadingStep(env, sys, stat);
    }
  }

  /** With every dependency read, fillTo is bounded by all of them. */
  lemma AllCheckedStep(env: Env, sys: System, stat: Stat)
    requires Ready(env, sys, stat) && PcOf(sys, stat.property).Checking? && PcOf(sys, stat.property).unread == []
    ensures KeepsStat(env, sys, Step(env, sys, stat), stat)
  {
    hide SlotOk, Slot, PulledRows, RealmRows, InstallationRows, Insertable, Delete, UndoTables, KnownBucket, Aligned;
    var Checking(fillTo, filled, unread) := PcOf(sys, stat.property);
    assert StatInv(env, sys, stat) && DependentInv(env, sys, stat);
    assert Settled(env, Step(env, sys, stat), stat, filled);
    forall d | d in stat.dependencies
      ensures d in env.registry && var last := LastSuccessfulFill(env.registry[d], sys.fill);
                last.Some? && fillTo <= last.value
    {
      assert DependenciesReach(env, sys, [d], fillTo);
      assert d in [d];
    }
  }

  /** Reading one dependency's last successful fill. */
  lemma ReadingStep(env: Env, sys: System, stat: Stat)
    requires Ready(env, sys, stat) && PcOf(sys, stat.property).Checking? && PcOf(sys, stat.property).unread != []
    ensures KeepsStat(env, sys, Step(env, sys, stat), stat)
  {
    hide SlotOk, Slot, PulledRows, RealmRows, InstallationRows, Insertable, Delete, UndoTables, KnownBucket, Aligned;
    var Checking(fillTo, filled, unread) := PcOf(sys, stat.property);
    assert StatInv(env, sys, stat) && DependentInv(env, sys, stat);
    var next := Step(env, sys, stat);
    assert Settled(env, next, stat, filled);
    if PcOf(next, stat.property).Checking? {
      CheckedLocals(env, sys, next, stat, fillTo, filled, unread);
    }
  }

  lemma CheckedLocals(env: Env, sys: System, next: System, stat: Stat, fillTo: int, filled: int, unread: seq<string>)
    requires DoneLocals(env, sys, stat, filled, Checking(fillTo, filled, unread))
    requires unread != [] && next.fill == sys.fill && next.horizon == sys.horizon
    requires unread[0] in env.registry && LastSuccessfulFill(env.registry[unread[0]], sys.fill).Some?
    ensures var t := LastSuccessfulFill(env.registry[unread[0]], sys.fill).value;
            DoneLocals(env, next, stat, filled, Checking(if t < fillTo then t else fillTo, filled, unread[1..]))
  {
    var t := LastSuccessfulFill(env.registry[unread[0]], sys.fill).value;
    var least := if t < fillTo then t else fillTo;
    forall d | d in stat.dependencies && d !in unread[1..] ensures DependenciesReach(env, next, [d], least) {
      if d != unread[0] {
        assert d !in unread;
        assert DependenciesReach(env, sys, [d], fillTo);
        assert d in [d];
      }
    }
  }

  lemma LoopingStep(env: Env, sys: System, stat: Stat)
    requires Ready(env, sys, stat) && PcOf(sys, stat.property).Looping?
    ensures KeepsStat(env, sys, Step(env, sys, stat), stat)
  {
    hide KeepsStat, Step, Inv;
    if PcOf(sys, stat.property).filled + Increment(stat.frequency) <= PcOf(sys, stat.property).fillTo {
      StartingStep(env, sys, stat);
    } else {
      EndingStep(env, sys, stat);
    }
  }

  lemma EndingStep(env: Env, sys: System, stat: Stat)
    requires Ready(env, sys, stat) && PcOf(sys, stat.property).Looping?
    requires PcOf(sys, stat.property).filled + Increment(stat.frequency) > PcOf(sys, stat.property).fillTo
    ensures KeepsStat(env, sys, Step(env, sys, stat), stat)
  {
    hide SlotOk, Slot, PulledRows, RealmRows, InstallationRows, Insertable, Delete, UndoTables, KnownBucket, Aligned;
    assert StatInv(env, sys, stat) && DependentInv(env, sys, stat);
    assert Settled(env, Step(env, sys, stat), stat, PcOf(sys, stat.property).filled);
  }

  /** Marking the next slot as started: it holds nothing a fill has written. */
  lemma StartingStep(env: Env, sys: System, stat: Stat)
    requires Ready(env, sys, stat) && PcOf(sys, stat.property).Looping?
    requires PcOf(sys, stat.property).filled + Increment(stat.frequency) <= PcOf(sys, stat.property).fillTo
    ensures KeepsStat(env, sys, Step(env, sys, stat), stat)
  {
    hide PulledRows, RealmRows, InstallationRows, Insertable, Delete, UndoTables, KnownBucket, WithRealm, Complete,
         IdealPull, Slot;
    var Looping(fillTo, filled) := PcOf(sys, stat.property);
    var e := filled + Increment(stat.frequency);
    assert StatInv(env, sys, stat) && DependentInv(env, sys, stat);
    var next := Step(env, sys, stat);
    AlignedStep(stat.frequency, filled);
    assert SettledBut(env, next, stat, filled, e);
    var slot := Slot(sys.rows, stat.property, e);
    assert SlotOk(env, stat, sys.src, slot, filled, e);
    if stat.collector.Pulls? {
      NothingKept(stat, slot);
    }
    StartedDependencies(env, sys, next, stat, fillTo);
  }

  lemma StartedDependencies(env: Env, sys: System, next: System, stat: Stat, t: int)
    requires Ready(env, sys, stat) && DependenciesReach(env, sys, stat.dependencies, t)
    requires forall q :: q != stat.property ==> (q in next.fill <==> q in sys.fill)
    requires forall q :: q != stat.property && q in sys.fill ==> next.fill[q] == sys.fill[q]
    ensures DependenciesReach(env, next, stat.dependencies, t)
  {
    assert WellFormedStat(env.registry, stat.property, stat);
    forall d | d in stat.dependencies
      ensures d in env.registry && var last := LastSuccessfulFill(env.registry[d], next.fill);
                last.Some? && t <= last.value
    {
      assert WellFormedStat(env.registry, d, env.registry[d]);
    }
  }

  /** Marking the slot as done extends the settled part of the tables by that slot. */
  lemma FinishingStep(env: Env, sys: System, stat: Stat)
    requires Ready(env, sys, stat) && PcOf(sys, stat.property).Finishing?
    ensures KeepsStat(env, sys, Step(env, sys, stat), stat)
  {
    hide PulledRows, RealmRows, InstallationRows, Insertable, Delete, UndoTables, KnownBucket, WithRealm, Complete,
         IdealPull, Slot;
    var p := stat.property;
    var Finishing(fillTo, e) := PcOf(sys, p);
    assert StatInv(env, sys, stat) && DependentInv(env, sys, stat);
    var next := Step(env, sys, stat);
    forall t ensures SlotOk(env, stat, next.src, Slot(next.rows, p, t), e, t) {
      if t != e {
        assert SlotOk(env, stat, sys.src, Slot(sys.rows, p, t), e - Increment(stat.frequency), t);
        if Aligned(stat.frequency, t) && t < e {
          AlignedApart(stat.frequency, t, e);
        }
      }
    }
    StartedDependencies(env, sys, next, stat, fillTo);
    StartedDependencies(env, sys, next, stat, e);
  }
}
