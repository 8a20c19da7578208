/**
 The value the tables hold for one row of a filled slot.
 */
module Stored {
  import opened Options
  import opened CountTables
  import opened Source
  import opened Stats
  import opened FillMachine
  import opened FillInvariant
  import opened FillSteps
  import opened FillInserts

  /** The value stored in a table for a key; no row stands for zero. */
  ghost function ValueAt(rows: Rows, k: RowKey): int {
    if k in rows then rows[k] else 0
  }

  /** The rows of a pulled statistic in its own table are the pulled rows. */
  lemma StoredRow(env: Env, sys: System, stat: Stat, q: Query, t: int, k: RowKey)
    requires Ready(env, sys, stat) && stat.collector == Pulls(q)
    requires Filled(env, stat, t, t)
    requires LastSuccessfulFill(stat, sys.fill).Some? && t <= LastSuccessfulFill(stat, sys.fill).value
    requires k.bucket.Home() == OutputOf(q) && k.property == stat.property && k.endTime == t
    ensures ValueAt(sys.rows, k) == ValueAt(IdealPull(env, stat, q, sys.src, t), k)
    ensures k in sys.rows <==> k in IdealPull(env, stat, q, sys.src, t)
  {
    hide Inv, IdealPull, InstallationRows, RealmRows;
    var base := IdealPull(env, stat, q, sys.src, t);
    FilledSlot(env, sys, stat, t);
    BaseShaped(env, stat, q, sys.src, t);
    RealmRowsShaped(stat, base, stat.property, t);
    NoRealmRows(stat, base);
    InstallationRowsShaped(WithRealm(stat, base), stat.property, t);
    assert k in sys.rows <==> k in Slot(sys.rows, stat.property, t);
  }

  lemma NoRealmRows(stat: Stat, base: Rows)
    ensures OutputTable(stat) == Some(RealmCount) ==> RealmRows(stat, base) == map[]
  {}

  /** Some interval of the user starts before end and does not end before start. */
  ghost predicate RecentlyActive(src: Source, u: int, start: int, end: int) {
    exists i :: i in src.intervals && src.intervals[i].user == u
        && start <= src.intervals[i].end && src.intervals[i].start < end
  }

  lemma ActivesKeys(src: Source, p: string, start: int, end: int, k: RowKey)
    requires ForeignKeys(src)
    ensures k in ActiveRows(src, p, start, end) <==>
              && k.bucket.OfUser? && k.bucket.user in src.users && src.users[k.bucket.user].realm == k.bucket.realm
              && k.property == p && k.subgroup == None && k.endTime == end
              && RecentlyActive(src, k.bucket.user, start, end)
  {
    if k.bucket.OfUser? && RecentlyActive(src, k.bucket.user, start, end) {
      var i :| i in src.intervals && src.intervals[i].user == k.bucket.user
          && start <= src.intervals[i].end && src.intervals[i].start < end;
      assert ActiveIn(src, i, start, end);
      assert IntervalKey(src, p, end, i) in ActiveKeys(src, p, start, end);
    }
    if k in ActiveRows(src, p, start, end) {
      var i :| i in src.intervals && ActiveIn(src, i, start, end) && k == IntervalKey(src, p, end, i);
    }
  }
}
