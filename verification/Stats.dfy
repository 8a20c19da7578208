/**
 The declared statistics, and what one statistic's tables hold for one end time.
 */
module Stats {
  import opened Options
  import opened Sums
  import opened Times
  import opened CountTables
  import opened Source

  /** Where rows come from: a pull function, or increments logged as events happen into
      one of the four tables (None: into a table of the push bouncer). */
  datatype Collector = Pulls(query: Query) | Logs(into: Option<Table>)

  datatype Stat = Stat(property: string, collector: Collector, frequency: Frequency, interval: int,
                       dependencies: seq<string>)

  function OutputTable(stat: Stat): Option<Table> {
    match stat.collector
    case Pulls(query) => Some(OutputOf(query))
    case Logs(into) => into
  }

  /** DataCollector.depends_on_realm. */
  predicate DependsOnRealm(stat: Stat) {
    OutputTable(stat) == Some(UserCount) || OutputTable(stat) == Some(StreamCount)
  }

  /** The tables do_delete_counts_at_hour deletes from, in order. */
  function UndoTables(stat: Stat): seq<Table> {
    match stat.collector
    case Logs(_) => if DependsOnRealm(stat) then [InstallationCount, RealmCount] else [InstallationCount]
    case Pulls(_) => [UserCount, StreamCount, RealmCount, InstallationCount]
  }

  /** Rows that an undo may delete because a fill writes them again. */
  predicate Derived(stat: Stat, k: RowKey) {
    k.bucket.Home() in UndoTables(stat)
  }

  type Registry = map<string, Stat>

  const FIFTEEN_DAY_ACTIVES := "15day_actives::day"

  function Plain(property: string, query: Query, frequency: Frequency): Stat {
    Stat(property, Pulls(query), frequency, Increment(frequency), [])
  }

  function Logging(property: string, into: Option<Table>, frequency: Frequency): Stat {
    Stat(property, Logs(into), frequency, Increment(frequency), [])
  }

  /** get_count_stats, without upload_quota_used_bytes. */
  function DeclaredStats(): seq<Stat> {
    [ Plain("messages_sent:is_bot:hour", CountMessages(BySenderIsBot), Hourly),
      Plain("messages_sent:message_type:day", CountMessageTypes, Daily),
      Plain("messages_sent:client:day", CountMessages(ByClient), Daily),
      Plain("messages_in_stream:is_bot:day", CountStreamMessages, Daily),
      Logging("ai_credit_usage::day", Some(UserCount), Daily),
      Plain("active_users_audit:is_bot:day", CountActiveUsers, Daily),
      Logging("messages_read::hour", Some(UserCount), Hourly),
      Logging("messages_read_interactions::hour", Some(UserCount), Hourly),
      Plain("1day_actives::day", ListActives, Daily).(interval := DAY - MIN_INTERVAL_LENGTH),
      Plain("7day_actives::day", ListActives, Daily).(interval := 7 * DAY - MIN_INTERVAL_LENGTH),
      Plain(FIFTEEN_DAY_ACTIVES, ListActives, Daily).(interval := 15 * DAY - MIN_INTERVAL_LENGTH),
      Plain("minutes_active::day", SumMinutes, Daily),
      Logging("mobile_pushes_sent::day", Some(RealmCount), Daily),
      Logging("invites_sent::day", Some(RealmCount), Daily),
      Plain("realm_active_humans::day", CountActiveHumans, Daily).(dependencies := [FIFTEEN_DAY_ACTIVES]),
      Logging("mobile_pushes_received::day", None, Daily),
      Logging("mobile_pushes_forwarded::day", None, Daily) ]
  }

  ghost predicate WellFormed(reg: Registry) {
    forall p :: p in reg ==> WellFormedStat(reg, p, reg[p])
  }

  ghost predicate WellFormedStat(reg: Registry, p: string, stat: Stat) {
    && stat.property == p
    && stat.interval > 0
    && (forall d :: d in stat.dependencies ==> d in reg && d != p)
    && (stat.collector == Pulls(CountActiveHumans) ==>
          stat.frequency == Daily && FIFTEEN_DAY_ACTIVES in stat.dependencies
          && reg[FIFTEEN_DAY_ACTIVES].collector == Pulls(ListActives) && reg[FIFTEEN_DAY_ACTIVES].frequency == Daily)
  }

  function Register(stats: seq<Stat>): Registry {
    if stats == [] then map[] else Register(stats[..|stats| - 1])[stats[|stats| - 1].property := stats[|stats| - 1]]
  }

  // ------------------------------------------------- one slot of one statistic

  /** The fixed surroundings of a run: the declared statistics and installation_epoch(). */
  datatype Env = Env(registry: Registry, epoch: int)

  ghost predicate ValidEnv(env: Env) {
    WellFormed(env.registry) && Aligned(Daily, env.epoch)
  }

  /** The aggregation of do_aggregate_to_summary_table into RealmCount. */
  ghost function RealmRows(stat: Stat, slot: Rows): Rows {
    if DependsOnRealm(stat) then Roll(Only(slot, OutputTable(stat).value), ToRealm) else map[]
  }

  /** The aggregation of do_aggregate_to_summary_table into InstallationCount. */
  ghost function InstallationRows(slot: Rows): Rows {
    Roll(Only(slot, RealmCount), ToInstallation)
  }

  ghost function WithRealm(stat: Stat, base: Rows): Rows {
    base + RealmRows(stat, base)
  }

  ghost function Complete(stat: Stat, base: Rows): Rows {
    WithRealm(stat, base) + InstallationRows(WithRealm(stat, base))
  }

  /** The rows an undo leaves alone. */
  ghost function Kept(stat: Stat, slot: Rows): Rows {
    map k | k in slot && !Derived(stat, k) :: slot[k]
  }

  /** The rows 15day_actives pulls for this end time. */
  ghost function IdealActives(env: Env, src: Source, t: int): Rows {
    if FIFTEEN_DAY_ACTIVES in env.registry then
      ActiveRows(src, FIFTEEN_DAY_ACTIVES, t - env.registry[FIFTEEN_DAY_ACTIVES].interval, t)
    else map[]
  }

  /** What the pull of a slot inserts when all it reads is complete. */
  ghost function IdealPull(env: Env, stat: Stat, q: Query, src: Source, t: int): Rows {
    Pull(q, src, IdealActives(env, src, t), stat.property, t - stat.interval, t)
  }

  /** The rows of a slot before aggregation: pulled, or logged in the slot. */
  ghost function Base(env: Env, stat: Stat, src: Source, slot: Rows, t: int): Rows {
    match stat.collector
    case Pulls(q) => IdealPull(env, stat, q, src, t)
    case Logs(_) => Kept(stat, slot)
  }

  predicate Filled(env: Env, stat: Stat, upTo: int, t: int) {
    Aligned(stat.frequency, t) && env.epoch < t <= upTo
  }

  /** A filled slot holds exactly its base rows and their aggregates; any other slot holds
      nothing a fill has written. */
  ghost predicate SlotOk(env: Env, stat: Stat, src: Source, slot: Rows, upTo: int, t: int) {
    if Filled(env, stat, upTo, t) then slot == Complete(stat, Base(env, stat, src, slot, t))
    else slot == Kept(stat, slot)
  }

  lemma NothingKept(stat: Stat, slot: Rows)
    requires stat.collector.Pulls?
    ensures Kept(stat, slot) == map[]
  {
    forall k | k in slot ensures Derived(stat, k) {
      match k.bucket case _ => {}
    }
  }

  lemma BaseShaped(env: Env, stat: Stat, q: Query, src: Source, t: int)
    requires stat.collector == Pulls(q)
    ensures Shaped(IdealPull(env, stat, q, src, t), src, OutputOf(q), stat.property, t)
  {
    hide Pull, Shaped;
    PullShaped(q, src, IdealActives(env, src, t), stat.property, t - stat.interval, t);
  }

  /** What aggregation adds to a slot is in the slot, in one table, and deletable. */
  lemma RealmRowsShaped(stat: Stat, slot: Rows, p: string, t: int)
    requires InSlot(slot, p, t)
    ensures InSlot(RealmRows(stat, slot), p, t) && InTable(RealmRows(stat, slot), RealmCount)
  {
    if DependsOnRealm(stat) {
      RollIntoRealm(Only(slot, OutputTable(stat).value), p, t, OutputTable(stat).value);
    }
  }

  lemma InstallationRowsShaped(slot: Rows, p: string, t: int)
    requires InSlot(slot, p, t)
    ensures InSlot(InstallationRows(slot), p, t) && InTable(InstallationRows(slot), InstallationCount)
  {
    RollIntoInstallation(Only(slot, RealmCount), p, t);
  }

  lemma KeptOfAdded(stat: Stat, slot: Rows, added: Rows)
    requires forall k :: k in added ==> Derived(stat, k)
    ensures Kept(stat, slot + added) == Kept(stat, slot)
  {}

  lemma RealmRowsDerived(stat: Stat, slot: Rows, p: string, t: int)
    requires InSlot(slot, p, t)
    ensures forall k :: k in RealmRows(stat, slot) ==> Derived(stat, k)
  {
    RealmRowsShaped(stat, slot, p, t);
    if DependsOnRealm(stat) {
      assert RealmCount in UndoTables(stat);
    }
  }

  lemma InstallationRowsDerived(stat: Stat, slot: Rows, p: string, t: int)
    requires InSlot(slot, p, t)
    ensures forall k :: k in InstallationRows(slot) ==> Derived(stat, k)
  {
    InstallationRowsShaped(slot, p, t);
    assert InstallationCount in UndoTables(stat);
  }

  /** Completing a slot adds no row that an undo would leave alone. */
  lemma KeptOfWithRealm(stat: Stat, base: Rows, p: string, t: int)
    requires InSlot(base, p, t)
    ensures InSlot(WithRealm(stat, base), p, t)
    ensures Kept(stat, WithRealm(stat, base)) == Kept(stat, base)
  {
    RealmRowsShaped(stat, base, p, t);
    RealmRowsDerived(stat, base, p, t);
    KeptOfAdded(stat, base, RealmRows(stat, base));
  }

  lemma KeptOfComplete(stat: Stat, base: Rows, p: string, t: int)
    requires InSlot(base, p, t)
    ensures InSlot(Complete(stat, base), p, t)
    ensures Kept(stat, Complete(stat, base)) == Kept(stat, base)
  {
    KeptOfWithRealm(stat, base, p, t);
    var s := WithRealm(stat, base);
    InstallationRowsShaped(s, p, t);
    InstallationRowsDerived(stat, s, p, t);
    KeptOfAdded(stat, s, InstallationRows(s));
  }
}
