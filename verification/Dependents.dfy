/**
 realm_active_humans: a dependent statistic reads complete rows only, so its value is
 what its definition says; and the declared statistics.
 */
module Dependents {
  import opened Options
  import opened Sums
  import opened Times
  import opened CountTables
  import opened Source
  import opened Stats
  import opened FillMachine
  import opened FillInvariant
  import opened FillSteps
  import opened FillActions
  import opened Stored
  import opened Activity

  // ------------------------------------------------- the declared statistics

  lemma {:induction false} RegisterHolds(stats: seq<Stat>, i: nat)
    requires i < |stats|
    requires forall a, b :: 0 <= a < b < |stats| ==> stats[a].property != stats[b].property
    ensures stats[i].property in Register(stats) && Register(stats)[stats[i].property] == stats[i]
    decreases |stats|
  {
    if i < |stats| - 1 {
      RegisterHolds(stats[..|stats| - 1], i);
    }
  }

  lemma {:induction false} RegisterOnly(stats: seq<Stat>, p: string)
    requires p in Register(stats)
    ensures exists i :: 0 <= i < |stats| && stats[i].property == p && Register(stats)[p] == stats[i]
    decreases |stats|
  {
    var last := stats[|stats| - 1];
    if p != last.property {
      RegisterOnly(stats[..|stats| - 1], p);
    }
  }

  lemma DeclaredDistinct()
    ensures var s := DeclaredStats(); forall a, b :: 0 <= a < b < |s| ==> s[a].property != s[b].property
  {}

  /** The declared statistics meet every requirement of the theorems. */
  lemma DeclaredWellFormed()
    ensures WellFormed(Register(DeclaredStats()))
  {
    hide Register;
    var s := DeclaredStats();
    var reg := Register(s);
    DeclaredDistinct();
    RegisterHolds(s, 10);
    forall p | p in reg ensures WellFormedStat(reg, p, reg[p]) {
      RegisterOnly(s, p);
    }
  }

  /** A pulled statistic whose slots are as long as its intervals. */
  ghost predicate Collects(env: Env, p: string, query: Query, f: Frequency) {
    && p in env.registry && env.registry[p].collector == Pulls(query)
    && env.registry[p].frequency == f && env.registry[p].interval == Increment(f)
  }

  lemma DeclaredAt(env: Env, i: nat)
    requires env.registry == Register(DeclaredStats()) && i < |DeclaredStats()|
    ensures DeclaredStats()[i].property in env.registry
    ensures env.registry[DeclaredStats()[i].property] == DeclaredStats()[i]
  {
    hide Register;
    DeclaredDistinct();
    RegisterHolds(DeclaredStats(), i);
  }

  /** What the theorems about particular statistics ask of a registry holds of the declared one. */
  lemma DeclaredMeetHypotheses(env: Env)
    requires env.registry == Register(DeclaredStats())
    ensures ActivesStat(env, "1day_actives::day", 1) && ActivesStat(env, "7day_actives::day", 7)
    ensures ActivesStat(env, FIFTEEN_DAY_ACTIVES, 15) && MinutesStat(env, "minutes_active::day")
    ensures Collects(env, "messages_sent:is_bot:hour", CountMessages(BySenderIsBot), Hourly)
    ensures Collects(env, "messages_sent:message_type:day", CountMessageTypes, Daily)
    ensures Collects(env, "messages_sent:client:day", CountMessages(ByClient), Daily)
    ensures Collects(env, "messages_in_stream:is_bot:day", CountStreamMessages, Daily)
    ensures Collects(env, "active_users_audit:is_bot:day", CountActiveUsers, Daily)
    ensures Collects(env, "realm_active_humans::day", CountActiveHumans, Daily)
  {
    hide Register;
    forall i: nat | i < |DeclaredStats()|
      ensures DeclaredStats()[i].property in env.registry
      ensures env.registry[DeclaredStats()[i].property] == DeclaredStats()[i]
    {
      DeclaredAt(env, i);
    }
    var s := DeclaredStats();
    assert s[0].property in env.registry && s[1].property in env.registry && s[2].property in env.registry;
    assert s[3].property in env.registry && s[5].property in env.registry && s[8].property in env.registry;
    assert s[9].property in env.registry && s[10].property in env.registry && s[11].property in env.registry;
    assert s[14].property in env.registry;
  }

  // ---------------------------------------------------- realm_active_humans

  predicate Activates(kind: AuditKind) {
    kind == UserCreated || kind == UserActivated || kind == UserReactivated
  }

  ghost predicate NoneLater(src: Source, u: int, t: int, e: int)
    requires e in src.audit
  {
    forall d :: d in src.audit && src.audit[d].user == u && src.audit[d].time < t ==>
      src.audit[d].kind == Unrelated || src.audit[d].time <= src.audit[e].time
  }

  /** The user's latest counted event before t created, activated or reactivated the user. */
  ghost predicate LeftActive(src: Source, u: int, t: int) {
    exists e :: e in src.audit && src.audit[e].user == u && src.audit[e].time < t && Activates(src.audit[e].kind)
        && NoneLater(src, u, t, e)
  }

  lemma LeftActiveIs(src: Source, u: int, t: int)
    ensures LeftActive(src, u, t) <==> LastEventActive(src, u, t)
  {
    if LastEventActive(src, u, t) {
      var e :| e in src.audit && IsLastEvent(src, u, t, e) && src.audit[e].kind != UserDeactivated;
      forall d | d in src.audit && src.audit[d].user == u && src.audit[d].time < t && src.audit[d].kind != Unrelated
        ensures src.audit[d].time <= src.audit[e].time
      {
        assert IsEvent(src, u, t, d);
      }
    }
    if LeftActive(src, u, t) {
      var e :| e in src.audit && src.audit[e].user == u && src.audit[e].time < t && Activates(src.audit[e].kind)
          && NoneLater(src, u, t, e);
      assert IsLastEvent(src, u, t, e);
    }
  }

  /** The users of a realm whose last audit event before t leaves them active. */
  ghost function ActiveUsers(src: Source, realm: int, isBot: bool, t: int): set<int> {
    set u | u in src.users && src.users[u].realm == realm && src.users[u].isBot == isBot && LeftActive(src, u, t)
  }

  /** The definition of the statistic: humans left active by their last event who have an interval that
      starts before t and does not end before the window. */
  ghost function ActiveHumans(src: Source, realm: int, window: int, t: int): set<int> {
    set u | u in ActiveUsers(src, realm, false, t)
            && exists i :: i in src.intervals && src.intervals[i].user == u
                && src.intervals[i].start < t && t - window <= src.intervals[i].end
  }

  ghost function CountedRows<K>(entries: map<K, Entry<RowKey>>, k: RowKey): set<K> {
    set x | x in entries && entries[x].group == k
  }

  /** A GROUP BY of ones counts the rows of each group. */
  lemma CountOf<K>(entries: map<K, Entry<RowKey>>, k: RowKey)
    requires forall x :: x in entries ==> entries[x].value == 1
    ensures ValueAt(GroupBy(entries), k) == |CountedRows(entries, k)|
    ensures k in GroupBy(entries) <==> CountedRows(entries, k) != {}
  {
    assert Fiber(entries, k).Keys == CountedRows(entries, k);
    SumOnes(Fiber(entries, k));
    forall x | x in entries ensures entries[x].group in Groups(entries) {}
    if k in Groups(entries) {
      var x :| x in entries && entries[x].group == k;
      assert x in CountedRows(entries, k);
    }
    assert |Fiber(entries, k)| == |Fiber(entries, k).Keys|;
  }

  /** The UserCount rows that count towards a realm are those of its active humans. */
  lemma CountedHumans(src: Source, p: string, window: int, t: int, realm: int, j: RowKey)
    requires ForeignKeys(src)
    ensures j in CountedRows(HumanEntries(src, ActiveRows(src, FIFTEEN_DAY_ACTIVES, t - window, t), p, t),
              RowKey(OfRealm(realm), p, None, t))
       <==> j == ActiveKey(realm, j, t) && j.bucket.OfUser? && j.bucket.user in ActiveHumans(src, realm, window, t)
  {
    hide LastEventActive, LeftActive, ActiveRows;
    ActivesKeys(src, FIFTEEN_DAY_ACTIVES, t - window, t, j);
    LeftActiveIs(src, UserOf(j), t);
  }

  function UserOf(j: RowKey): int {
    if j.bucket.OfUser? then j.bucket.user else 0
  }

  function ActiveKey(realm: int, j: RowKey, t: int): RowKey {
    RowKey(OfUser(realm, UserOf(j)), FIFTEEN_DAY_ACTIVES, None, t)
  }

  lemma HumansOf(src: Source, p: string, window: int, t: int, realm: int)
    requires ForeignKeys(src)
    ensures var entries := HumanEntries(src, ActiveRows(src, FIFTEEN_DAY_ACTIVES, t - window, t), p, t);
            var k := RowKey(OfRealm(realm), p, None, t);
            && ValueAt(GroupBy(entries), k) == |ActiveHumans(src, realm, window, t)|
            && (k in GroupBy(entries) <==> ActiveHumans(src, realm, window, t) != {})
  {
    var entries := HumanEntries(src, ActiveRows(src, FIFTEEN_DAY_ACTIVES, t - window, t), p, t);
    var k := RowKey(OfRealm(realm), p, None, t);
    CountOf(entries, k);
    HumansCounted(src, p, window, t, realm);
  }

  lemma HumansCounted(src: Source, p: string, window: int, t: int, realm: int)
    requires ForeignKeys(src)
    ensures var counted :=
              CountedRows(HumanEntries(src, ActiveRows(src, FIFTEEN_DAY_ACTIVES, t - window, t), p, t),
                          RowKey(OfRealm(realm), p, None, t));
            |counted| == |ActiveHumans(src, realm, window, t)|
                && (counted == {} <==> ActiveHumans(src, realm, window, t) == {})
  {
    hide CountedRows, HumanEntries, ActiveHumans, ActiveRows, ForeignKeys;
    var counted := CountedRows(HumanEntries(src, ActiveRows(src, FIFTEEN_DAY_ACTIVES, t - window, t), p, t),
                               RowKey(OfRealm(realm), p, None, t));
    var humans := ActiveHumans(src, realm, window, t);
    forall j ensures j in counted <==> j == ActiveKey(realm, j, t) && j.bucket.OfUser? && j.bucket.user in humans {
      CountedHumans(src, p, window, t, realm, j);
    }
    forall u | u in humans ensures exists j :: j in counted && UserOf(j) == u {
      assert RowKey(OfUser(realm, u), FIFTEEN_DAY_ACTIVES, None, t) in counted;
    }
    ImageSize(counted, UserOf, humans);
    if counted == {} {
      assert |humans| == 0;
    }
  }

  lemma AuditOf(src: Source, p: string, t: int, realm: int, isBot: bool)
    ensures ValueAt(GroupBy(AuditEntries(src, p, t)), RowKey(OfRealm(realm), p, Some(BoolLabel(isBot)), t))
         == |ActiveUsers(src, realm, isBot, t)|
  {
    var k := RowKey(OfRealm(realm), p, Some(BoolLabel(isBot)), t);
    CountOf(AuditEntries(src, p, t), k);
    hide LastEventActive, LeftActive;
    forall u ensures LeftActive(src, u, t) <==> LastEventActive(src, u, t) {
      LeftActiveIs(src, u, t);
    }
    assert CountedRows(AuditEntries(src, p, t), k) == ActiveUsers(src, realm, isBot, t);
  }

  lemma HumansInState(env: Env, sys: System, stat: Stat, realm: int, t: int)
    requires Ready(env, sys, stat) && ForeignKeys(sys.src)
    requires stat.collector == Pulls(CountActiveHumans) && FIFTEEN_DAY_ACTIVES in env.registry
    requires Filled(env, stat, t, t)
    requires LastSuccessfulFill(stat, sys.fill).Some? && t <= LastSuccessfulFill(stat, sys.fill).value
    ensures var k := RowKey(OfRealm(realm), stat.property, None, t);
            var humans := ActiveHumans(sys.src, realm, env.registry[FIFTEEN_DAY_ACTIVES].interval, t);
            ValueAt(sys.rows, k) == |humans| && (k in sys.rows <==> humans != {})
  {
    hide Ready, ActiveHumans, ValueAt, HumanEntries, ActiveRows, Filled;
    StoredRow(env, sys, stat, CountActiveHumans, t, RowKey(OfRealm(realm), stat.property, None, t));
    HumansOf(sys.src, stat.property, env.registry[FIFTEEN_DAY_ACTIVES].interval, t, realm);
  }

  /** realm_active_humans, wherever it has been filled, is the number of humans of the realm
      whose last audit event leaves them active and who were active in the 15-day window: a
      row for every realm with at least one, and no other. */
  lemma ActiveHumansExact(env: Env, src: Source, history: seq<Action>, p: string, realm: int, t: int)
    requires ValidEnv(env) && ForeignKeys(src)
    requires p in env.registry && env.registry[p].collector == Pulls(CountActiveHumans)
    requires Filled(env, env.registry[p], t, t)
    requires DependenciesReach(env, After(env, src, history), [p], t)
    ensures FIFTEEN_DAY_ACTIVES in env.registry
    ensures var sys := After(env, src, history);
            var k := RowKey(OfRealm(realm), p, None, t);
            var humans := ActiveHumans(sys.src, realm, env.registry[FIFTEEN_DAY_ACTIVES].interval, t);
            ValueAt(sys.rows, k) == |humans| && (k in sys.rows <==> humans != {})
  {
    hide ActiveHumans, ValueAt;
    InvAlways(env, src, history);
    var stat := env.registry[p];
    assert WellFormedStat(env.registry, p, stat);
    assert p in [p];
    HumansInState(env, After(env, src, history), stat, realm, t);
  }

  /** active_users_audit, wherever it has been filled, is the number of users of the realm, bots or not,
      whose last audit event before the end time leaves them active. */
  lemma ActiveUsersExact(env: Env, src: Source, history: seq<Action>, audit: string, realm: int, isBot: bool, t: int)
    requires ValidEnv(env) && ForeignKeys(src)
    requires audit in env.registry && env.registry[audit].collector == Pulls(CountActiveUsers)
    requires Filled(env, env.registry[audit], t, t)
    requires DependenciesReach(env, After(env, src, history), [audit], t)
    ensures ValueAt(After(env, src, history).rows, RowKey(OfRealm(realm), audit, Some(BoolLabel(isBot)), t))
         == |ActiveUsers(After(env, src, history).src, realm, isBot, t)|
  {
    hide ActiveUsers, ValueAt, AuditEntries, After, DependenciesReach, Ready, Filled, ForeignKeys;
    var sys := After(env, src, history);
    assert audit in [audit];
    Reached(env, src, history, [audit], audit, t);
    StoredRow(env, sys, env.registry[audit], CountActiveUsers, t,
              RowKey(OfRealm(realm), audit, Some(BoolLabel(isBot)), t));
    AuditOf(sys.src, audit, t, realm, isBot);
  }

  /** It is at most the non-bot active_users_audit value for the same end time. */
  lemma ActiveHumansAtMostAudit(env: Env, src: Source, history: seq<Action>, p: string, audit: string, realm: int,
                                t: int)
    requires ValidEnv(env) && ForeignKeys(src)
    requires p in env.registry && env.registry[p].collector == Pulls(CountActiveHumans)
    requires audit in env.registry && env.registry[audit].collector == Pulls(CountActiveUsers)
    requires Filled(env, env.registry[p], t, t) && Filled(env, env.registry[audit], t, t)
    requires DependenciesReach(env, After(env, src, history), [p, audit], t)
    ensures ValueAt(After(env, src, history).rows, RowKey(OfRealm(realm), p, None, t))
         <= ValueAt(After(env, src, history).rows, RowKey(OfRealm(realm), audit, Some(BoolLabel(false)), t))
  {
    hide Filled, ValueAt, After;
    var sys := After(env, src, history);
    assert p in [p, audit] && audit in [p, audit];
    assert DependenciesReach(env, sys, [p], t) && DependenciesReach(env, sys, [audit], t);
    ActiveHumansExact(env, src, history, p, realm, t);
    ActiveUsersExact(env, src, history, audit, realm, false, t);
    SubsetSize(ActiveHumans(sys.src, realm, env.registry[FIFTEEN_DAY_ACTIVES].interval, t),
               ActiveUsers(sys.src, realm, false, t));
  }
}
