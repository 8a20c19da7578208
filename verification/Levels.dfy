/**
 Aggregation conserves totals: what a completed slot holds for a user, a stream, a realm
 or the installation is the sum of the base rows lying inside it.
 */
module Levels {
  import opened Options
  import opened Sums
  import opened CountTables
  import opened Stats

  /** Which rows a total is over: one bucket, and one subgroup or all of them. */
  datatype Selection = Selection(bucket: Bucket, subgroup: Option<Option<Label>>)

  function RealmOf(b: Bucket): Option<int> {
    match b
    case OfUser(r, _) => Some(r)
    case OfStream(r, _) => Some(r)
    case OfRealm(r) => Some(r)
    case Installation => None
  }

  predicate RightSubgroup(sel: Selection, k: RowKey) {
    sel.subgroup.None? || k.subgroup == sel.subgroup.value
  }

  /** The rows of the bucket itself. */
  function At(sel: Selection): RowKey -> bool {
    (k: RowKey) => k.bucket == sel.bucket && RightSubgroup(sel, k)
  }

  /** The base rows that aggregation adds up into the bucket. */
  predicate Lies(b: Bucket, k: RowKey) {
    match b
    case OfRealm(r) => RealmOf(k.bucket) == Some(r)
    case Installation => true
    case _ => k.bucket == b
  }

  function Inside(sel: Selection): RowKey -> bool {
    (k: RowKey) => Lies(sel.bucket, k) && RightSubgroup(sel, k)
  }

  /** The total a table holds for a selection. */
  ghost function TotalAt(rows: Rows, sel: Selection): int {
    Sum(Where(rows, At(sel)))
  }

  /** A base that aggregation starts from: rows of one slot in the statistic's own table. */
  ghost predicate IsBase(stat: Stat, base: Rows, p: string, t: int) {
    && InSlot(base, p, t)
    && OutputTable(stat).Some? && OutputTable(stat).value != InstallationCount
    && InTable(base, OutputTable(stat).value)
  }

  lemma OnlyOwn(base: Rows, table: Table)
    requires InTable(base, table)
    ensures Only(base, table) == base
  {}

  /** The RealmCount rows of a slot once its realm rows are in. */
  lemma OnlyRealm(stat: Stat, base: Rows, p: string, t: int)
    requires IsBase(stat, base, p, t)
    ensures Only(WithRealm(stat, base), RealmCount) == if DependsOnRealm(stat) then Roll(base, ToRealm) else base
  {
    hide Roll;
    OnlyOwn(base, OutputTable(stat).value);
    if DependsOnRealm(stat) {
      RealmRowsShaped(stat, base, p, t);
    } else {
      assert WithRealm(stat, base) == base;
    }
  }

  lemma RealmTotal(stat: Stat, base: Rows, p: string, t: int, sel: Selection)
    requires IsBase(stat, base, p, t) && sel.bucket.OfRealm?
    ensures Sum(Where(Only(WithRealm(stat, base), RealmCount), At(sel))) == Sum(Where(base, Inside(sel)))
  {
    hide WithRealm, Only, Roll;
    OnlyRealm(stat, base, p, t);
    if DependsOnRealm(stat) {
      RollWhere(base, ToRealm, At(sel), Inside(sel));
    } else {
      assert Where(base, At(sel)) == Where(base, Inside(sel));
    }
  }

  lemma RealmRowsTotal(stat: Stat, base: Rows, p: string, t: int, sel: Selection)
    requires IsBase(stat, base, p, t) && sel.bucket == Installation
    ensures Sum(Where(Only(WithRealm(stat, base), RealmCount), Inside(sel))) == Sum(Where(base, Inside(sel)))
  {
    hide WithRealm, Only, Roll;
    OnlyRealm(stat, base, p, t);
    if DependsOnRealm(stat) {
      RollWhere(base, ToRealm, Inside(sel), Inside(sel));
    }
  }

  lemma InstallationTotal(slot: Rows, p: string, t: int, sel: Selection)
    requires sel.bucket == Installation
    ensures Sum(Where(InstallationRows(slot), At(sel))) == Sum(Where(Only(slot, RealmCount), Inside(sel)))
  {
    RollWhere(Only(slot, RealmCount), ToInstallation, At(sel), Inside(sel));
  }

  lemma AtElsewhere(rows: Rows, added: Rows, table: Table, sel: Selection)
    requires InTable(added, table) && sel.bucket.Home() != table
    ensures Where(rows + added, At(sel)) == Where(rows, At(sel))
  {}

  lemma AtAdded(rows: Rows, added: Rows, table: Table, sel: Selection)
    requires InTable(added, table) && sel.bucket.Home() == table
    requires forall k :: k in rows ==> k.bucket.Home() != table
    ensures Where(rows + added, At(sel)) == Where(added, At(sel))
  {}

  lemma AtOnly(rows: Rows, sel: Selection)
    ensures Where(Only(rows, sel.bucket.Home()), At(sel)) == Where(rows, At(sel))
  {}

  /** What a completed slot holds for a user or stream of its own table, for a realm, or for the
      whole installation is the sum of the base rows inside, subgroup by subgroup. */
  lemma CompleteTotal(stat: Stat, base: Rows, p: string, t: int, sel: Selection)
    requires IsBase(stat, base, p, t)
    requires sel.bucket.Home() == OutputTable(stat).value || sel.bucket.OfRealm? || sel.bucket == Installation
    ensures TotalAt(Complete(stat, base), sel) == Sum(Where(base, Inside(sel)))
  {
    hide RealmRows, InstallationRows, At, Inside, Only, Where;
    var s := WithRealm(stat, base);
    RealmRowsShaped(stat, base, p, t);
    InstallationRowsShaped(s, p, t);
    if sel.bucket == Installation {
      RealmRowsTotal(stat, base, p, t, sel);
      AtAdded(s, InstallationRows(s), InstallationCount, sel);
      InstallationTotal(s, p, t, sel);
    } else {
      AtElsewhere(s, InstallationRows(s), InstallationCount, sel);
      if sel.bucket.OfRealm? {
        RealmTotal(stat, base, p, t, sel);
        AtOnly(s, sel);
      } else {
        AtElsewhere(base, RealmRows(stat, base), RealmCount, sel);
        OwnTotal(base, sel);
      }
    }
  }

  lemma OwnTotal(base: Rows, sel: Selection)
    requires sel.bucket.OfUser? || sel.bucket.OfStream?
    ensures Where(base, At(sel)) == Where(base, Inside(sel))
  {}
}
