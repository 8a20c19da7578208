/**
 The fill protocol as a state machine: one atomic step per SQL statement or save(),
 runs of different statistics interleaved in any way, and a crash possible anywhere.
 */
module FillMachine {
  import opened Options
  import opened Times
  import opened CountTables
  import opened Source
  import opened SourceGrowth
  import opened Stats

  /** A row of the FillState table. */
  datatype FillState = Done(endTime: int) | Started(endTime: int)

  /** Where a run of process_count_stat is, with its local variables. */
  datatype Pc =
    | Idle
    | Beginning(fillTo: int)
    | Undoing(fillTo: int, slot: int, left: seq<Table>)
    | Checking(fillTo: int, filled: int, unread: seq<string>)
    | Looping(fillTo: int, filled: int)
    | Pulling(fillTo: int, slot: int)
    | Aggregating(fillTo: int, slot: int)
    | Summarizing(fillTo: int, slot: int)
    | Finishing(fillTo: int, slot: int)

  /** One call of do_increment_logging_stat that had an effect. */
  datatype LogEntry = LogEntry(property: string, bucket: Bucket, subgroup: Option<Label>, eventTime: int,
                               increment: int)

  /** horizon: the latest fill_to_time used so far; ledger: the increments so far. */
  datatype System = System(
    src: Source, horizon: int, rows: Rows, fill: map<string, FillState>, pcs: map<string, Pc>, ledger: seq<LogEntry>)

  /** CountStat.last_successful_fill. */
  function LastSuccessfulFill(stat: Stat, fill: map<string, FillState>): Option<int> {
    if stat.property !in fill then None
    else
      match fill[stat.property]
      case Done(t) => Some(t)
      case Started(t) => Some(t - Increment(stat.frequency))
  }

  ghost function PcOf(sys: System, p: string): Pc {
    if p in sys.pcs then sys.pcs[p] else Idle
  }

  ghost function At(sys: System, stat: Stat, pc: Pc): System {
    sys.(pcs := sys.pcs[stat.property := pc])
  }

  ghost function Saved(sys: System, stat: Stat, state: FillState): System {
    sys.(fill := sys.fill[stat.property := state])
  }

  /** The 15day_actives rows in UserCount that the active-humans query reads. */
  function StoredActives(rows: Rows, t: int): Rows {
    Only(Slot(rows, FIFTEEN_DAY_ACTIVES, t), UserCount)
  }

  ghost function PulledRows(stat: Stat, sys: System, t: int): Rows
    requires stat.collector.Pulls?
  {
    Pull(stat.collector.query, sys.src, StoredActives(sys.rows, t), stat.property, t - stat.interval, t)
  }

  /** An INSERT statement: on a collision IntegrityError ends the run. */
  ghost function InsertThen(sys: System, stat: Stat, added: Rows, next: Pc): System {
    match Insert(sys.rows, added)
    case Some(rows) => At(sys.(rows := rows), stat, next)
    case None => At(sys, stat, Idle)
  }

  /** The next atomic step of the run of stat. */
  ghost function Step(env: Env, sys: System, stat: Stat): System {
    var p := stat.property;
    var inc := Increment(stat.frequency);
    match PcOf(sys, p)
    case Idle => sys
    case Beginning(fillTo) =>
      if p !in sys.fill then At(Saved(sys, stat, Done(env.epoch)), stat, Checking(fillTo, env.epoch, stat.dependencies))
      else (match sys.fill[p]
            case Started(t) => At(sys, stat, Undoing(fillTo, t, UndoTables(stat)))
            case Done(t) => At(sys, stat, Checking(fillTo, t, stat.dependencies)))
    case Undoing(fillTo, t, left) =>
      if left != [] then At(sys.(rows := Delete(sys.rows, left[0], p, t)), stat, Undoing(fillTo, t, left[1..]))
      else At(Saved(sys, stat, Done(t - inc)), stat, Checking(fillTo, t - inc, stat.dependencies))
    case Checking(fillTo, filled, unread) =>
      if unread == [] then At(sys, stat, Looping(fillTo, filled))
      else if unread[0] !in env.registry then At(sys, stat, Idle)
      else (match LastSuccessfulFill(env.registry[unread[0]], sys.fill)
            case None => At(sys, stat, Idle)
            case Some(t) => At(sys, stat, Checking(if t < fillTo then t else fillTo, filled, unread[1..])))
    case Looping(fillTo, filled) =>
      if filled + inc <= fillTo then
        At(Saved(sys, stat, Started(filled + inc)), stat,
           if stat.collector.Logs? then Aggregating(fillTo, filled + inc) else Pulling(fillTo, filled + inc))
      else At(sys, stat, Idle)
    case Pulling(fillTo, t) =>
      if stat.collector.Pulls? then InsertThen(sys, stat, PulledRows(stat, sys, t), Aggregating(fillTo, t))
      else At(sys, stat, Idle)
    case Aggregating(fillTo, t) =>
      InsertThen(sys, stat, RealmRows(stat, Slot(sys.rows, p, t)), Summarizing(fillTo, t))
    case Summarizing(fillTo, t) =>
      InsertThen(sys, stat, InstallationRows(Slot(sys.rows, p, t)), Finishing(fillTo, t))
    case Finishing(fillTo, t) => At(Saved(sys, stat, Done(t)), stat, Looping(fillTo, t))
  }

  datatype Action =
    | Start(property: string, fillTo: int)
    | Advance(property: string)
    | Crash(property: string)
    | Grow(grown: Source)
    | Log(entry: LogEntry)

  function LogKey(stat: Stat, e: LogEntry): RowKey {
    RowKey(e.bucket, e.property, e.subgroup, Ceiling(stat.frequency, e.eventTime))
  }

  /** INSERT ... ON CONFLICT DO UPDATE SET value = value + EXCLUDED.value: the update hits
      the row the new one collides with. */
  ghost function AddOnConflict(rows: Rows, k: RowKey, increment: int): Rows {
    if hit :| hit in rows && Collides(hit, k) then rows[hit := rows[hit] + increment]
    else rows[k := increment]
  }

  /** An increment for an existing user, stream or realm, into the statistic's own table. */
  ghost predicate CanLog(env: Env, sys: System, e: LogEntry) {
    && e.property in env.registry
    && env.registry[e.property].collector == Logs(Some(e.bucket.Home()))
    && e.bucket != Installation
    && KnownBucket(sys.src, e.bucket)
  }

  /** The filling of the event's slot has not begun. */
  ghost predicate OnTime(env: Env, sys: System, e: LogEntry)
    requires e.property in env.registry
  {
    e.property in sys.fill ==> sys.fill[e.property].endTime < Ceiling(env.registry[e.property].frequency, e.eventTime)
  }

  ghost predicate MayLog(env: Env, sys: System, e: LogEntry) {
    CanLog(env, sys, e) && OnTime(env, sys, e)
  }

  /** do_increment_logging_stat. */
  ghost function Logged(env: Env, sys: System, e: LogEntry): System
    requires e.property in env.registry
  {
    if e.increment == 0 then sys
    else sys.(rows := AddOnConflict(sys.rows, LogKey(env.registry[e.property], e), e.increment),
              ledger := sys.ledger + [e])
  }

  /** Actions that cannot happen in a state leave it as it is. */
  ghost function Apply(env: Env, sys: System, a: Action): System {
    match a
    case Start(p, fillTo) =>
      if p in env.registry && PcOf(sys, p) == Idle && Aligned(Hourly, fillTo) then
        sys.(pcs := sys.pcs[p := Beginning(fillTo)], horizon := if sys.horizon < fillTo then fillTo else sys.horizon)
      else sys
    case Advance(p) => if p in env.registry then Step(env, sys, env.registry[p]) else sys
    case Crash(p) => sys.(pcs := sys.pcs[p := Idle])
    case Grow(grown) => if Grows(sys.src, grown, sys.horizon) then sys.(src := grown) else sys
    case Log(e) => if MayLog(env, sys, e) then Logged(env, sys, e) else sys
  }

  ghost function Initial(env: Env, src: Source): System {
    System(src, env.epoch, map[], map[], map[], [])
  }

  /** The state after a history of actions. */
  ghost function After(env: Env, src: Source, history: seq<Action>): System {
    if history == [] then Initial(env, src)
    else Apply(env, After(env, src, history[..|history| - 1]), history[|history| - 1])
  }

  // The same with increments at any time, late ones included.

  ghost function Perform(env: Env, sys: System, a: Action): System {
    match a
    case Log(e) => if CanLog(env, sys, e) then Logged(env, sys, e) else sys
    case _ => Apply(env, sys, a)
  }

  ghost function PerformAll(env: Env, sys: System, actions: seq<Action>): System
    decreases |actions|
  {
    if actions == [] then sys
    else Perform(env, PerformAll(env, sys, actions[..|actions| - 1]), actions[|actions| - 1])
  }

  ghost function Performed(env: Env, src: Source, history: seq<Action>): System {
    PerformAll(env, Initial(env, src), history)
  }
}
