/**
 process_count_stat and what it calls, on the tables as mutable state.  Each method is
 tied to the steps of the state machine, whose guarantees then hold of the code.
 */
module FillEngine {
  import opened Options
  import opened Sums
  import opened Times
  import opened CountTables
  import opened Source
  import opened Stats
  import opened FillMachine
  import opened FillInvariant
  import opened FillSteps
  import opened FillInserts
  import opened FillActions
  import opened FillTheorems
  import opened FillProgress

  datatype Outcome = Finished | DependencyNotRun | BadFillTime | IntegrityError

  /** The tables after deleting the slot from each of the tables in turn. */
  function DeleteEach(rows: Rows, tables: seq<Table>, p: string, t: int): Rows
    decreases |tables|
  {
    if tables == [] then rows else DeleteEach(Delete(rows, tables[0], p, t), tables[1..], p, t)
  }

  /** A run of stat goes from one state to another without interruption. */
  ghost predicate LeadsTo(env: Env, sys: System, end: System, stat: Stat) {
    exists n: nat :: end == Uninterrupted(env, sys, stat, n)
  }

  lemma LeadsToItself(env: Env, sys: System, stat: Stat)
    ensures LeadsTo(env, sys, sys, stat)
  {
    assert sys == Uninterrupted(env, sys, stat, 0);
  }

  lemma ThenLeadsTo(env: Env, a: System, b: System, c: System, stat: Stat)
    requires LeadsTo(env, a, b, stat) && LeadsTo(env, b, c, stat)
    ensures LeadsTo(env, a, c, stat)
  {
    var m: nat :| b == Uninterrupted(env, a, stat, m);
    var n: nat :| c == Uninterrupted(env, b, stat, n);
    UninterruptedSum(env, a, stat, m, n);
  }

  lemma ThenStep(env: Env, a: System, b: System, stat: Stat)
    requires LeadsTo(env, a, b, stat)
    ensures LeadsTo(env, a, Step(env, b, stat), stat)
  {
    var m: nat :| b == Uninterrupted(env, a, stat, m);
    UninterruptedStep(env, a, stat, m);
  }

  lemma LeadsToKeeps(env: Env, sys: System, end: System, stat: Stat)
    requires Ready(env, sys, stat) && LeadsTo(env, sys, end, stat)
    ensures Ready(env, end, stat) && FillsAdvance(env, sys, end)
  {
    var n: nat :| end == Uninterrupted(env, sys, stat, n);
    UninterruptedKeeps(env, sys, stat, n);
    UninterruptedAdvances(env, sys, stat, n);
  }

  lemma {:induction false} UninterruptedSum(env: Env, sys: System, stat: Stat, m: nat, n: nat)
    ensures Uninterrupted(env, Uninterrupted(env, sys, stat, m), stat, n) == Uninterrupted(env, sys, stat, m + n)
    decreases m
  {
    if m > 0 {
      UninterruptedSum(env, Step(env, sys, stat), stat, m - 1, n);
    }
  }

  /** The deletions of an undo, one step each. */
  lemma {:induction false} UndoSteps(env: Env, sys: System, stat: Stat)
    requires PcOf(sys, stat.property).Undoing?
    ensures var Undoing(fillTo, t, left) := PcOf(sys, stat.property);
            var rows := DeleteEach(sys.rows, left, stat.property, t);
            LeadsTo(env, sys, At(sys.(rows := rows), stat, Undoing(fillTo, t, [])), stat)
    decreases |PcOf(sys, stat.property).left|
  {
    var Undoing(fillTo, t, left) := PcOf(sys, stat.property);
    LeadsToItself(env, sys, stat);
    if left == [] {
      assert At(sys, stat, PcOf(sys, stat.property)) == sys;
    } else {
      var next := Step(env, sys, stat);
      ThenStep(env, sys, sys, stat);
      UndoSteps(env, next, stat);
      assert PcOf(next, stat.property) == Undoing(fillTo, t, left[1..]);
      var end := At(sys.(rows := DeleteEach(sys.rows, left, stat.property, t)), stat, Undoing(fillTo, t, []));
      assert end == At(next.(rows := DeleteEach(next.rows, left[1..], stat.property, t)), stat, Undoing(fillTo, t, []));
      ThenLeadsTo(env, sys, next, end, stat);
    }
  }

  /** The reads of the dependencies' fill states, one step each. */
  lemma {:induction false} CheckSteps(env: Env, sys: System, stat: Stat)
    requires PcOf(sys, stat.property).Checking?
    ensures var Checking(fillTo, filled, unread) := PcOf(sys, stat.property);
            LeadsTo(env, sys, At(sys, stat, match Bounded(env, sys.fill, unread, fillTo)
                                            case Some(limit) => Looping(limit, filled)
                                            case None => Idle), stat)
    decreases |PcOf(sys, stat.property).unread|
  {
    var Checking(fillTo, filled, unread) := PcOf(sys, stat.property);
    var next := Step(env, sys, stat);
    LeadsToItself(env, sys, stat);
    ThenStep(env, sys, sys, stat);
    if PcOf(next, stat.property).Checking? {
      CheckSteps(env, next, stat);
      var end := At(next, stat, match Bounded(env, next.fill, unread[1..], PcOf(next, stat.property).fillTo)
                                case Some(limit) => Looping(limit, filled)
                                case None => Idle);
      ThenLeadsTo(env, sys, next, end, stat);
    }
  }

  // What the three INSERT steps do in a state satisfying the invariant.

  lemma PullStepIs(env: Env, sys: System, stat: Stat)
    requires Ready(env, sys, stat) && PcOf(sys, stat.property).Pulling? && stat.collector.Pulls?
    ensures var Pulling(fillTo, t) := PcOf(sys, stat.property);
            var next := Step(env, sys, stat);
            var added := PulledRows(stat, sys, t);
            && Insertable(sys.rows, added) && Ready(env, next, stat)
            && next == At(sys.(rows := sys.rows + added), stat, Aggregating(fillTo, t))
  {
    hide Inv, Insertable;
    PullingFacts(env, sys, stat);
    StepKeeps(env, sys, stat);
  }

  lemma AggregateStepIs(env: Env, sys: System, stat: Stat)
    requires Ready(env, sys, stat) && PcOf(sys, stat.property).Aggregating?
    ensures var Aggregating(fillTo, t) := PcOf(sys, stat.property);
            var next := Step(env, sys, stat);
            var added := RealmRows(stat, Slot(sys.rows, stat.property, t));
            && Insertable(sys.rows, added) && Ready(env, next, stat)
            && next == At(sys.(rows := sys.rows + added), stat, Summarizing(fillTo, t))
  {
    hide Inv, Insertable;
    AggregatingFacts(env, sys, stat);
    StepKeeps(env, sys, stat);
  }

  lemma SummarizeStepIs(env: Env, sys: System, stat: Stat)
    requires Ready(env, sys, stat) && PcOf(sys, stat.property).Summarizing?
    ensures var Summarizing(fillTo, t) := PcOf(sys, stat.property);
            var next := Step(env, sys, stat);
            var added := InstallationRows(Slot(sys.rows, stat.property, t));
            && Insertable(sys.rows, added) && Ready(env, next, stat)
            && next == At(sys.(rows := sys.rows + added), stat, Finishing(fillTo, t))
  {
    hide Inv, Insertable;
    SummarizingFacts(env, sys, stat);
    StepKeeps(env, sys, stat);
  }

  lemma StartStepIs(env: Env, sys: System, stat: Stat)
    requires Ready(env, sys, stat) && PcOf(sys, stat.property).Looping?
    ensures var Looping(fillTo, filled) := PcOf(sys, stat.property);
            var t := filled + Increment(stat.frequency);
            var next := Step(env, sys, stat);
            && Aligned(stat.frequency, filled) && Ready(env, next, stat)
            && stat.property in sys.fill && sys.fill[stat.property] == Done(filled)
            && DependenciesReach(env, sys, stat.dependencies, fillTo)
            && next == if t <= fillTo then At(Saved(sys, stat, Started(t)), stat,
                                              if stat.collector.Logs? then Aggregating(fillTo, t)
                                                  else Pulling(fillTo, t))
                       else At(sys, stat, Idle)
  {
    assert StatInv(env, sys, stat);
    hide Inv;
    StepKeeps(env, sys, stat);
  }

  lemma FinishStepIs(env: Env, sys: System, stat: Stat)
    requires Ready(env, sys, stat) && PcOf(sys, stat.property).Finishing?
    ensures var Finishing(fillTo, t) := PcOf(sys, stat.property);
            var next := Step(env, sys, stat);
            Ready(env, next, stat) && next == At(Saved(sys, stat, Done(t)), stat, Looping(fillTo, t))
  {
    hide Inv;
    StepKeeps(env, sys, stat);
  }

  lemma FloorIsIdentity(t: int)
    ensures Floor(Hourly, t) == t <==> Aligned(Hourly, t)
  {}

  lemma {:induction false} UninterruptedAdvances(env: Env, sys: System, stat: Stat, n: nat)
    requires Ready(env, sys, stat)
    ensures FillsAdvance(env, sys, Uninterrupted(env, sys, stat, n))
    decreases n
  {
    hide Inv, Step;
    if n > 0 {
      var next := Step(env, sys, stat);
      StepKeeps(env, sys, stat);
      UninterruptedAdvances(env, next, stat, n - 1);
      FillsAdvanceTransitive(env, sys, next, Uninterrupted(env, next, stat, n - 1));
    }
  }

  /** The FillState rows once a run has created or rolled back its own. */
  ghost function Prepared(env: Env, sys: System, stat: Stat): map<string, FillState> {
    sys.fill[stat.property := Done(FilledTo(env, sys, stat))]
  }

  lemma BegunReady(env: Env, sys: System, stat: Stat, fillTo: int)
    requires Ready(env, sys, stat) && PcOf(sys, stat.property) == Idle && Aligned(Hourly, fillTo)
    ensures var begun := Apply(env, sys, Start(stat.property, fillTo));
            && Ready(env, begun, stat) && PcOf(begun, stat.property) == Beginning(fillTo)
            && begun.src == sys.src && begun.rows == sys.rows && begun.fill == sys.fill
            && FilledTo(env, begun, stat) == FilledTo(env, sys, stat)
  {
    hide Inv;
    ApplyKeeps(env, sys, Start(stat.property, fillTo));
  }

  lemma DoneRowsAreIdeal(env: Env, sys: System, stat: Stat)
    requires Ready(env, sys, stat) && stat.collector.Pulls?
    requires stat.property in sys.fill && sys.fill[stat.property].Done?
    ensures StatRows(sys.rows, stat.property)
         == IdealRows(env, stat, stat.collector.query, sys.src, sys.fill[stat.property].endTime)
  {
    assert StatInv(env, sys, stat);
    SettledRowsAreIdeal(env, sys, stat, stat.collector.query, sys.fill[stat.property].endTime);
  }

  class Analytics {
    const env: Env
    var src: Source
    var counts: Rows
    var fill: map<string, FillState>

    constructor (env: Env, src: Source)
      ensures this.env == env && this.src == src && counts == map[] && fill == map[]
    {
      this.env, this.src := env, src;
      counts, fill := map[], map[];
    }

    /** The tables are those of the machine state sys. */
    ghost predicate Holds(sys: System)
      reads this
    {
      sys.src == src && sys.rows == counts && sys.fill == fill
    }

    method InsertRows(added: Rows) returns (ok: bool)
      modifies this`counts
      ensures ok <==> Insertable(old(counts), added)
      ensures counts == if ok then old(counts) + added else old(counts)
    {
      ok := Insertable(counts, added);
      if ok {
        counts := counts + added;
      }
    }

    /** do_update_fill_state. */
    method UpdateFillState(p: string, state: FillState)
      modifies this`fill
      ensures fill == old(fill)[p := state]
    {
      fill := fill[p := state];
    }

    /** do_delete_counts_at_hour. */
    method DeleteCountsAtHour(stat: Stat, t: int)
      modifies this`counts
      ensures counts == DeleteEach(old(counts), UndoTables(stat), stat.property, t)
    {
      ghost var before := counts;
      var p := stat.property;
      if stat.collector.Logs? {
        counts := Delete(counts, InstallationCount, p, t);
        if DependsOnRealm(stat) {
          counts := Delete(counts, RealmCount, p, t);
          assert DeleteEach(Delete(before, InstallationCount, p, t), [RealmCount], p, t) == counts;
        }
      } else {
        counts := Delete(counts, UserCount, p, t);
        counts := Delete(counts, StreamCount, p, t);
        counts := Delete(counts, RealmCount, p, t);
        counts := Delete(counts, InstallationCount, p, t);
        var a := Delete(before, UserCount, p, t);
        var b := Delete(a, StreamCount, p, t);
        var c := Delete(b, RealmCount, p, t);
        assert DeleteEach(c, [InstallationCount], p, t) == counts;
        assert DeleteEach(b, [RealmCount, InstallationCount], p, t) == counts;
        assert DeleteEach(a, [StreamCount, RealmCount, InstallationCount], p, t) == counts;
      }
    }

    /** do_pull_minutes_active: a dictionary of clipped interval lengths filled in a loop. */
    method PullMinutesActive(p: string, start: int, end: int) returns (rows: Rows)
      ensures rows == Pull(SumMinutes, src, map[], p, start, end)
    {
      var secondsActive: Rows := map[];
      var todo := src.intervals.Keys;
      ghost var done: map<int, Entry<RowKey>> := map[];
      ghost var all := ClipEntries(src, p, start, end);
      while todo != {}
        invariant todo <= src.intervals.Keys
        invariant done == map i | i in all && i !in todo :: all[i]
        invariant secondsActive == GroupBy(done)
        decreases |todo|
      {
        ghost var some := SomeElement(todo);
        var i :| i in todo;
        if ClipsIn(src, i, start, end) {
          GroupByPut(done, i, all[i]);
          secondsActive := Upsert(secondsActive, IntervalKey(src, p, end, i), Clipped(src.intervals[i], start, end));
          done := done[i := all[i]];
        }
        todo := todo - {i};
      }
      assert done == all;
      rows := WholeMinutes(secondsActive);
    }

    /** The SELECT of a pull function, executed. */
    method ExecutePull(q: Query, p: string, start: int, end: int) returns (rows: Rows)
      ensures rows == Pull(q, src, StoredActives(counts, end), p, start, end)
    {
      match q
      case CountMessages(grouping) => rows := ExecuteGroupBy(MessageEntries(src, p, start, end, grouping));
      case CountMessageTypes =>
        var inner := ExecuteGroupBy(TypeEntries(src, start, end));
        var tagged := map g | g in inner :: Entry(TypeKey(p, end)(g), inner[g]);
        assert tagged == Tagged(inner, TypeKey(p, end));
        rows := ExecuteGroupBy(tagged);
      case CountStreamMessages => rows := ExecuteGroupBy(StreamEntries(src, p, start, end));
      case CountActiveUsers => rows := ExecuteGroupBy(AuditEntries(src, p, end));
      case ListActives => rows := ActiveRows(src, p, start, end);
      case SumMinutes =>
        rows := PullMinutesActive(p, start, end);
      case CountActiveHumans => rows := ExecuteGroupBy(HumanEntries(src, StoredActives(counts, end), p, end));
    }

    /** The INSERT ... SELECT ... GROUP BY of do_aggregate_to_summary_table. */
    method AggregateInto(rows: Rows, key: RowKey -> RowKey) returns (ok: bool)
      modifies this`counts
      ensures ok <==> Insertable(old(counts), Roll(rows, key))
      ensures counts == if ok then old(counts) + Roll(rows, key) else old(counts)
    {
      var tagged := map k | k in rows :: Entry(key(k), rows[k]);
      assert tagged == Tagged(rows, key);
      var added := ExecuteGroupBy(tagged);
      ok := InsertRows(added);
    }

    /** do_aggregate_to_summary_table, into RealmCount. */
    method AggregateToRealms(stat: Stat, t: int) returns (ok: bool)
      modifies this`counts
      ensures ok <==> Insertable(old(counts), RealmRows(stat, Slot(old(counts), stat.property, t)))
      ensures counts == if ok then old(counts) + RealmRows(stat, Slot(old(counts), stat.property, t)) else old(counts)
    {
      if DependsOnRealm(stat) {
        ok := AggregateInto(Only(Slot(counts, stat.property, t), OutputTable(stat).value), ToRealm);
      } else {
        ok := true;
        assert counts + map[] == counts;
      }
    }

    /** do_aggregate_to_summary_table, into InstallationCount. */
    method AggregateToInstallation(stat: Stat, t: int) returns (ok: bool)
      modifies this`counts
      ensures ok <==> Insertable(old(counts), InstallationRows(Slot(old(counts), stat.property, t)))
      ensures counts == if ok then old(counts) + InstallationRows(Slot(old(counts), stat.property, t)) else old(counts)
    {
      ok := AggregateInto(Only(Slot(counts, stat.property, t), RealmCount), ToInstallation);
    }

    /** The pull of do_fill_count_stat_at_hour. */
    method PullIntoSlot(stat: Stat, t: int, ghost sys: System) returns (ok: bool)
      requires Holds(sys) && Ready(env, sys, stat) && stat.collector.Pulls?
      requires PcOf(sys, stat.property).Pulling? && PcOf(sys, stat.property).slot == t
      modifies this`counts
      ensures ok && Holds(Step(env, sys, stat))
    {
      hide Inv, Insertable, Pull;
      PullStepIs(env, sys, stat);
      var added := ExecutePull(stat.collector.query, stat.property, t - stat.interval, t);
      ok := InsertRows(added);
    }

    /** do_fill_count_stat_at_hour: pull, then aggregate.  No statement can fail. */
    method FillCountStatAtHour(stat: Stat, t: int, ghost sys: System) returns (ok: bool, ghost end: System)
      requires Holds(sys) && Ready(env, sys, stat)
      requires if stat.collector.Pulls? then PcOf(sys, stat.property).Pulling? && PcOf(sys, stat.property).slot == t
               else PcOf(sys, stat.property).Aggregating? && PcOf(sys, stat.property).slot == t
      modifies this`counts
      ensures ok && Ready(env, end, stat)
      ensures Holds(end) && LeadsTo(env, sys, end, stat)
      ensures PcOf(end, stat.property) == Finishing(PcOf(sys, stat.property).fillTo, t)
    {
      hide Ready, Insertable, Step, RealmRows, InstallationRows, LeadsTo;
      ghost var pulled := sys;
      LeadsToItself(env, sys, stat);
      if stat.collector.Pulls? {
        PullStepIs(env, sys, stat);
        ok := PullIntoSlot(stat, t, sys);
        pulled := Step(env, sys, stat);
        ThenStep(env, sys, sys, stat);
      }
      AggregateStepIs(env, pulled, stat);
      ok := AggregateToRealms(stat, t);
      ghost var aggregated := Step(env, pulled, stat);
      ThenStep(env, sys, pulled, stat);
      SummarizeStepIs(env, aggregated, stat);
      ok := AggregateToInstallation(stat, t);
      end := Step(env, aggregated, stat);
      ThenStep(env, sys, aggregated, stat);
    }

    /** The first part of process_count_stat: create the FillState, or undo a half-filled slot. */
    method PrepareFill(stat: Stat, ghost sys: System) returns (filled: int, ghost end: System)
      requires Holds(sys) && Ready(env, sys, stat) && PcOf(sys, stat.property).Beginning?
      modifies this`counts, this`fill
      ensures Holds(end) && LeadsTo(env, sys, end, stat) && end.fill == Prepared(env, sys, stat)
      ensures filled == FilledTo(env, sys, stat)
      ensures PcOf(end, stat.property) == Checking(PcOf(sys, stat.property).fillTo, filled, stat.dependencies)
    {
      hide Ready, LeadsTo;
      var p := stat.property;
      end := Step(env, sys, stat);
      LeadsToItself(env, sys, stat);
      ThenStep(env, sys, sys, stat);
      if p !in fill {
        filled := env.epoch;
        UpdateFillState(p, Done(filled));
      } else if fill[p].Started? {
        var t := fill[p].endTime;
        DeleteCountsAtHour(stat, t);
        UndoSteps(env, end, stat);
        ghost var undone := At(end.(rows := counts), stat, Undoing(PcOf(sys, p).fillTo, t, []));
        ThenLeadsTo(env, sys, end, undone, stat);
        ThenStep(env, sys, undone, stat);
        end := Step(env, undone, stat);
        filled := t - Increment(stat.frequency);
        UpdateFillState(p, Done(filled));
      } else {
        filled := fill[p].endTime;
      }
    }

    /** The dependency loop of process_count_stat. */
    method LowerToDependencies(stat: Stat, fillTo: int) returns (limit: Option<int>)
      ensures limit == Bounded(env, fill, stat.dependencies, fillTo)
    {
      var least := fillTo;
      var i := 0;
      while i < |stat.dependencies|
        invariant 0 <= i <= |stat.dependencies|
        invariant Bounded(env, fill, stat.dependencies, fillTo) == Bounded(env, fill, stat.dependencies[i..], least)
      {
        var d := stat.dependencies[i];
        if d !in env.registry {
          return None;
        }
        var last := LastSuccessfulFill(env.registry[d], fill);
        if last.None? {
          return None;
        }
        least := if last.value < least then last.value else least;
        assert stat.dependencies[i..][1..] == stat.dependencies[i + 1..];
        i := i + 1;
      }
      limit := Some(least);
    }

    /** One iteration of the loop of process_count_stat. */
    method FillNextSlot(stat: Stat, t: int, fillTo: int, ghost sys: System) returns (ghost end: System)
      requires Holds(sys) && Ready(env, sys, stat) && t <= fillTo
      requires PcOf(sys, stat.property) == Looping(fillTo, t - Increment(stat.frequency))
      modifies this`counts, this`fill
      ensures Holds(end) && Ready(env, end, stat) && LeadsTo(env, sys, end, stat)
      ensures PcOf(end, stat.property) == Looping(fillTo, t)
    {
      hide Ready, Step, LeadsTo;
      LeadsToItself(env, sys, stat);
      StartStepIs(env, sys, stat);
      ghost var started := Step(env, sys, stat);
      ThenStep(env, sys, sys, stat);
      UpdateFillState(stat.property, Started(t));
      var ok;
      ghost var full;
      ok, full := FillCountStatAtHour(stat, t, started);
      ThenLeadsTo(env, sys, started, full, stat);
      FinishStepIs(env, full, stat);
      UpdateFillState(stat.property, Done(t));
      end := Step(env, full, stat);
      ThenStep(env, sys, full, stat);
    }

    /** The loop of process_count_stat. */
    method FillSlots(stat: Stat, filled: int, fillTo: int, ghost sys: System) returns (ghost end: System)
      requires Holds(sys) && Ready(env, sys, stat) && PcOf(sys, stat.property) == Looping(fillTo, filled)
      modifies this`counts, this`fill
      ensures Holds(end) && Ready(env, end, stat) && LeadsTo(env, sys, end, stat)
      ensures PcOf(end, stat.property) == Idle
      ensures stat.property in fill && fill[stat.property] == Done(StopsAt(stat, filled, fillTo))
    {
      hide Ready, Step, StopsAt, LeadsTo;
      var currentlyFilled := filled + Increment(stat.frequency);
      end := sys;
      LeadsToItself(env, sys, stat);
      while currentlyFilled <= fillTo
        invariant Holds(end) && Ready(env, end, stat) && LeadsTo(env, sys, end, stat)
        invariant PcOf(end, stat.property) == Looping(fillTo, currentlyFilled - Increment(stat.frequency))
        invariant StopsAt(stat, currentlyFilled - Increment(stat.frequency), fillTo) == StopsAt(stat, filled, fillTo)
        decreases fillTo - currentlyFilled
      {
        StartStepIs(env, end, stat);
        LoopStops(stat, currentlyFilled - Increment(stat.frequency), fillTo);
        ghost var before := end;
        end := FillNextSlot(stat, currentlyFilled, fillTo, before);
        ThenLeadsTo(env, sys, before, end, stat);
        currentlyFilled := currentlyFilled + Increment(stat.frequency);
      }
      StartStepIs(env, end, stat);
      LoopStops(stat, currentlyFilled - Increment(stat.frequency), fillTo);
      ThenStep(env, sys, end, stat);
      end := Step(env, end, stat);
    }

    /** process_count_stat, from any state that runs and crashes can leave behind: it undoes what
        a crash left, stops exactly where it should, and never fails on an INSERT. */
    method ProcessCountStat(stat: Stat, fillTo: int, ghost sys: System) returns (outcome: Outcome, ghost end: System)
      requires Holds(sys) && Ready(env, sys, stat) && PcOf(sys, stat.property) == Idle
      modifies this`counts, this`fill
      ensures Holds(end) && Ready(env, end, stat) && PcOf(end, stat.property) == Idle
      ensures outcome == if !Aligned(Hourly, fillTo) then BadFillTime
                         else if Bounded(env, Prepared(env, sys, stat), stat.dependencies, fillTo).None?
                         then DependencyNotRun
                         else Finished
      ensures outcome == BadFillTime ==> counts == old(counts) && fill == old(fill)
      ensures outcome != BadFillTime ==> LeadsTo(env, Apply(env, sys, Start(stat.property, fillTo)), end, stat)
      ensures outcome == Finished ==>
                var limit := Bounded(env, Prepared(env, sys, stat), stat.dependencies, fillTo).value;
                stat.property in fill && fill[stat.property] == Done(StopsAt(stat, FilledTo(env, sys, stat), limit))
      ensures outcome == Finished && stat.collector.Pulls? ==>
                StatRows(counts, stat.property)
                    == IdealRows(env, stat, stat.collector.query, src, fill[stat.property].endTime)
    {
      hide Ready, Step, StopsAt, LeadsTo, IdealRows;
      FloorIsIdentity(fillTo);
      if Floor(Hourly, fillTo) != fillTo {
        return BadFillTime, sys;
      }
      ghost var begun := Apply(env, sys, Start(stat.property, fillTo));
      BegunReady(env, sys, stat, fillTo);
      var filled;
      filled, end := PrepareFill(stat, begun);
      var limit := LowerToDependencies(stat, fillTo);
      CheckSteps(env, end, stat);
      ghost var checked := At(end, stat, if limit.Some? then Looping(limit.value, filled) else Idle);
      ThenLeadsTo(env, begun, end, checked, stat);
      LeadsToKeeps(env, begun, checked, stat);
      if limit.None? {
        return DependencyNotRun, checked;
      }
      end := FillSlots(stat, filled, limit.value, checked);
      ThenLeadsTo(env, begun, checked, end, stat);
      outcome := Finished;
      if stat.collector.Pulls? {
        DoneRowsAreIdeal(env, end, stat);
      }
    }

    /** do_increment_logging_stat, whenever it is called. */
    method IncrementLoggingStat(e: LogEntry, ghost sys: System)
      requires Holds(sys) && KnownRows(sys) && CanLog(env, sys, e)
      modifies this`counts
      ensures counts == if e.increment == 0 then old(counts)
                        else Upsert(old(counts), LogKey(env.registry[e.property], e), e.increment)
      ensures counts == Perform(env, sys, Log(e)).rows
    {
      if e.increment == 0 {
        return;
      }
      var k := LogKey(env.registry[e.property], e);
      AddOnConflictIsUpsert(sys, k, e.increment);
      if hit :| hit in counts && Collides(hit, k) {
        KnownCollision(sys.src, hit, k);
        counts := counts[hit := counts[hit] + e.increment];
      } else {
        assert Collides(k, k);
        counts := counts[k := e.increment];
      }
    }
  }
}
