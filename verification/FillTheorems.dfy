/**
 The guarantees of the fill engine, for every history of runs, crashes, source changes
 and logged increments.
 */
module FillTheorems {
  import opened Times
  import opened CountTables
  import opened Source
  import opened SourceGrowth
  import opened Stats
  import opened FillMachine
  import opened FillInvariant
  import opened FillInserts
  import opened FillActions

  // ------------------------------------------------------ crash refinement

  /** All rows of one statistic, in all four tables. */
  ghost function StatRows(rows: Rows, p: string): Rows {
    map k | k in rows && k.property == p :: rows[k]
  }

  /** What the tables should hold for stat when it is filled up to upTo, from the source alone. */
  ghost function IdealRows(env: Env, stat: Stat, q: Query, src: Source, upTo: int): Rows
    decreases upTo - env.epoch
  {
    if upTo <= env.epoch then map[]
    else
      var earlier := IdealRows(env, stat, q, src, upTo - Increment(stat.frequency));
      earlier + Complete(stat, IdealPull(env, stat, q, src, upTo))
  }

  /** Filling one more slot. */
  lemma FilledNext(env: Env, stat: Stat, upTo: int, t: int)
    requires Aligned(stat.frequency, upTo) && env.epoch < upTo
    ensures Aligned(stat.frequency, upTo - Increment(stat.frequency))
    ensures Filled(env, stat, upTo, t) <==> t == upTo || Filled(env, stat, upTo - Increment(stat.frequency), t)
    ensures !Filled(env, stat, upTo - Increment(stat.frequency), upTo)
  {
    AlignedStep(stat.frequency, upTo);
    if Aligned(stat.frequency, t) && t < upTo {
      AlignedApart(stat.frequency, t, upTo);
    }
  }

  lemma NothingFilled(env: Env, stat: Stat, upTo: int, t: int)
    requires upTo <= env.epoch
    ensures !Filled(env, stat, upTo, t) && Slot(map[], stat.property, t) == map[]
  {}

  lemma {:induction false} IdealSlot(env: Env, stat: Stat, q: Query, src: Source, upTo: int, t: int)
    requires ValidEnv(env) && stat.collector == Pulls(q) && Aligned(stat.frequency, upTo)
    ensures Slot(IdealRows(env, stat, q, src, upTo), stat.property, t)
         == if Filled(env, stat, upTo, t) then Complete(stat, IdealPull(env, stat, q, src, t)) else map[]
    ensures forall k :: k in IdealRows(env, stat, q, src, upTo) ==> k.property == stat.property
    decreases upTo - env.epoch
  {
    hide Complete, IdealPull, Filled, Slot, ValidEnv, Aligned;
    if upTo <= env.epoch {
      NothingFilled(env, stat, upTo, t);
    } else {
      var inc := Increment(stat.frequency);
      var earlier, last := IdealRows(env, stat, q, src, upTo - inc), Complete(stat, IdealPull(env, stat, q, src, upTo));
      FilledNext(env, stat, upTo, t);
      IdealSlot(env, stat, q, src, upTo - inc, t);
      BaseShaped(env, stat, q, src, upTo);
      KeptOfComplete(stat, IdealPull(env, stat, q, src, upTo), stat.property, upTo);
      SlotOfInsert(earlier, last, stat.property, upTo, stat.property, t);
      assert map[] + last == last;
    }
  }

  lemma SameSlotsSameRows(a: Rows, b: Rows, p: string)
    requires forall t :: Slot(a, p, t) == Slot(b, p, t)
    ensures StatRows(a, p) == StatRows(b, p)
  {
    forall k: RowKey | k.property == p
      ensures k in a <==> k in b
      ensures k in a ==> a[k] == b[k]
    {
      assert k in a <==> k in Slot(a, p, k.endTime);
      assert k in b <==> k in Slot(b, p, k.endTime);
    }
  }

  lemma SettledRowsAreIdeal(env: Env, sys: System, stat: Stat, q: Query, upTo: int)
    requires ValidEnv(env) && stat.collector == Pulls(q) && Aligned(stat.frequency, upTo)
    requires Settled(env, sys, stat, upTo)
    ensures StatRows(sys.rows, stat.property) == IdealRows(env, stat, q, sys.src, upTo)
  {
    hide Complete, IdealPull;
    var ideal := IdealRows(env, stat, q, sys.src, upTo);
    forall t ensures Slot(sys.rows, stat.property, t) == Slot(ideal, stat.property, t) {
      IdealSlot(env, stat, q, sys.src, upTo, t);
      assert SlotOk(env, stat, sys.src, Slot(sys.rows, stat.property, t), upTo, t);
      NothingKept(stat, Slot(sys.rows, stat.property, t));
    }
    SameSlotsSameRows(sys.rows, ideal, stat.property);
    IdealSlot(env, stat, q, sys.src, upTo, upTo);
    assert StatRows(ideal, stat.property) == ideal;
  }

  /** Crash refinement: whenever a pulled statistic is marked done up to t, its rows in all
      four tables are a function of the source and t alone, whatever runs, crashes, undos
      and other statistics' steps came before. */
  lemma CrashRefinement(env: Env, src: Source, history: seq<Action>, p: string, t: int)
    requires ValidEnv(env) && ForeignKeys(src)
    requires p in env.registry && env.registry[p].collector.Pulls?
    requires var sys := After(env, src, history); p in sys.fill && sys.fill[p] == Done(t)
    ensures var sys := After(env, src, history);
            StatRows(sys.rows, p) == IdealRows(env, env.registry[p], env.registry[p].collector.query, sys.src, t)
  {
    InvAlways(env, src, history);
    var sys := After(env, src, history);
    var stat := env.registry[p];
    assert WellFormedStat(env.registry, p, stat);
    assert StatInv(env, sys, stat);
    SettledRowsAreIdeal(env, sys, stat, stat.collector.query, t);
  }

  // ---------------------------------------------------------- insert safety

  /** The rows are in one table, for one user, stream or realm or the installation, and agree in property,
      subgroup or want of one, and end time. */
  predicate SameCell(a: RowKey, b: RowKey) {
    a.property == b.property && a.subgroup == b.subgroup && a.endTime == b.endTime
    && match a.bucket
       case OfUser(_, u) => b.bucket.OfUser? && u == b.bucket.user
       case OfStream(_, s) => b.bucket.OfStream? && s == b.bucket.stream
       case OfRealm(r) => b.bucket.OfRealm? && r == b.bucket.realm
       case Installation => b.bucket.Installation?
  }

  /** The added rows fill cells of their own, each one. */
  ghost predicate NewCells(rows: Rows, added: Rows) {
    && (forall a, b :: a in rows && b in added ==> !SameCell(a, b))
    && (forall a, b :: a in added && b in added && SameCell(a, b) ==> a == b)
  }

  /** What both partial constraints accept, in columns. */
  lemma InsertableMeans(rows: Rows, added: Rows)
    ensures Insertable(rows, added) <==> NewCells(rows, added)
  {
    hide SameCell, Collides;
    forall a, b ensures SameCell(a, b) <==> Collides(a, b) {
      CellIs(a, b);
    }
  }

  lemma CellIs(a: RowKey, b: RowKey)
    ensures SameCell(a, b) <==> Collides(a, b)
  {}

  /** In every reachable state there is one row at most for a user, stream, realm or the installation, a
      property, a subgroup or none, and an end time; and the INSERT a run is about to execute adds rows
      where there is none. */
  lemma InsertSafety(env: Env, src: Source, history: seq<Action>, p: string)
    requires ValidEnv(env) && ForeignKeys(src) && p in env.registry
    ensures var sys := After(env, src, history);
            var stat := env.registry[p];
            && (forall a, b :: a in sys.rows && b in sys.rows && SameCell(a, b) ==> a == b)
            && match PcOf(sys, p)
               case Pulling(_, t) => stat.collector.Pulls? && NewCells(sys.rows, PulledRows(stat, sys, t))
               case Aggregating(_, t) => NewCells(sys.rows, RealmRows(stat, Slot(sys.rows, p, t)))
               case Summarizing(_, t) => NewCells(sys.rows, InstallationRows(Slot(sys.rows, p, t)))
               case _ => true
  {
    InvAlways(env, src, history);
    var sys := After(env, src, history);
    var stat := env.registry[p];
    assert WellFormedStat(env.registry, p, stat);
    forall a, b | a in sys.rows && b in sys.rows && SameCell(a, b) ensures a == b {
      CellIs(a, b);
      KnownCollision(sys.src, a, b);
    }
    hide Insertable, NewCells, Inv;
    match PcOf(sys, p)
    case Pulling(_, t) =>
      PullingFacts(env, sys, stat);
      InsertableMeans(sys.rows, PulledRows(stat, sys, t));
    case Aggregating(_, t) =>
      AggregatingFacts(env, sys, stat);
      InsertableMeans(sys.rows, RealmRows(stat, Slot(sys.rows, p, t)));
    case Summarizing(_, t) =>
      SummarizingFacts(env, sys, stat);
      InsertableMeans(sys.rows, InstallationRows(Slot(sys.rows, p, t)));
    case _ =>
  }

  // ----------------------------------------------------- monotone progress

  lemma FillsAdvanceTransitive(env: Env, a: System, b: System, c: System)
    requires FillsAdvance(env, a, b) && FillsAdvance(env, b, c)
    ensures FillsAdvance(env, a, c)
  {
    forall p | p in env.registry ensures FillAdvances(env.registry[p], a, c) {
      assert FillAdvances(env.registry[p], a, b) && FillAdvances(env.registry[p], b, c);
    }
  }

  /** last_successful_fill never decreases, over steps, undos and crashes alike. */
  lemma {:induction false} NeverBackwards(env: Env, src: Source, history: seq<Action>, more: seq<Action>)
    requires ValidEnv(env) && ForeignKeys(src)
    ensures FillsAdvance(env, After(env, src, history), After(env, src, history + more))
    decreases |more|
  {
    hide Apply, ValidEnv, Inv, FillsAdvance, ForeignKeys;
    if more == [] {
      SameFillsAdvance(env, After(env, src, history), After(env, src, history));
      assert history + more == history;
    } else {
      var shorter := more[..|more| - 1];
      NeverBackwards(env, src, history, shorter);
      InvAlways(env, src, history + shorter);
      ApplyKeeps(env, After(env, src, history + shorter), more[|more| - 1]);
      assert (history + more)[..|history + more| - 1] == history + shorter;
      FillsAdvanceTransitive(env, After(env, src, history), After(env, src, history + shorter),
                             After(env, src, history + more));
    }
  }

  // --------------------------------------------------- dependency soundness

  lemma ApplyGrows(env: Env, sys: System, a: Action)
    requires ForeignKeys(sys.src)
    ensures sys.horizon <= Apply(env, sys, a).horizon
    ensures Apply(env, sys, a).src == sys.src || Grows(sys.src, Apply(env, sys, a).src, sys.horizon)
  {
    hide PulledRows, RealmRows, InstallationRows, Insertable, Delete, Slot, Grows, MayLog, LastSuccessfulFill;
  }

  /** A filled slot of a pulled statistic is final: no later run, undo or crash changes it. */
  lemma {:induction false} FilledSlotsPersist(env: Env, src: Source, history: seq<Action>, more: seq<Action>,
                                              p: string, t: int)
    requires ValidEnv(env) && ForeignKeys(src)
    requires p in env.registry && env.registry[p].collector.Pulls? && Filled(env, env.registry[p], t, t)
    requires DependenciesReach(env, After(env, src, history), [p], t)
    ensures Slot(After(env, src, history + more).rows, p, t) == Slot(After(env, src, history).rows, p, t)
    decreases |more|
  {
    hide Apply, ValidEnv, Inv, DependenciesReach, FillsAdvance, ForeignKeys, Filled, Slot;
    StatIsNamed(env, p);
    if more == [] {
      assert history + more == history;
    } else {
      var shorter := more[..|more| - 1];
      FilledSlotsPersist(env, src, history, shorter, p, t);
      NeverBackwards(env, src, history, shorter);
      assert (history + more)[..|history + more| - 1] == history + shorter;
      DependenciesStillReach(env, After(env, src, history), After(env, src, history + shorter), [p], t);
      InvAlways(env, src, history + shorter);
      FilledSlotPersists(env, After(env, src, history + shorter), more[|more| - 1], env.registry[p], t);
    }
  }

  lemma StatIsNamed(env: Env, p: string)
    requires ValidEnv(env) && p in env.registry
    ensures env.registry[p].property == p
  {
    assert WellFormedStat(env.registry, p, env.registry[p]);
  }

  lemma FilledSlotPersists(env: Env, sys: System, a: Action, stat: Stat, t: int)
    requires ValidEnv(env) && Inv(env, sys) && stat.property in env.registry && env.registry[stat.property] == stat
    requires stat.collector.Pulls? && Filled(env, stat, t, t)
    requires DependenciesReach(env, sys, [stat.property], t)
    ensures Slot(Apply(env, sys, a).rows, stat.property, t) == Slot(sys.rows, stat.property, t)
  {
    hide Apply, Complete, IdealPull, Grows;
    var next := Apply(env, sys, a);
    var p := stat.property;
    ApplyKeeps(env, sys, a);
    ApplyGrows(env, sys, a);
    assert p in [p];
    assert FillAdvances(stat, sys, next);
    FilledSlot(env, sys, stat, t);
    FilledSlot(env, next, stat, t);
    assert t <= sys.horizon by { assert StatInv(env, sys, stat); }
    if next.src != sys.src {
      BaseStable(env, sys.src, next.src, sys.horizon, stat, Slot(sys.rows, p, t), t);
    }
  }

  /** Dependency soundness: under any interleaving a dependent statistic is never filled, nor
      being filled, past the last successful fill of a dependency. */
  lemma DependencySoundness(env: Env, src: Source, history: seq<Action>, p: string, d: string)
    requires ValidEnv(env) && ForeignKeys(src)
    requires p in env.registry && d in env.registry[p].dependencies
    ensures var sys := After(env, src, history);
            p in sys.fill && sys.fill[p].endTime > env.epoch ==>
              d in env.registry && var last := LastSuccessfulFill(env.registry[d], sys.fill);
              last.Some? && sys.fill[p].endTime <= last.value
  {
    InvAlways(env, src, history);
    var sys := After(env, src, history);
    assert WellFormedStat(env.registry, p, env.registry[p]);
    assert DependentInv(env, sys, env.registry[p]);
  }
}
