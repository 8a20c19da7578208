/**
 The four analytics count tables: UserCount, StreamCount, RealmCount, InstallationCount.

 A row's key holds every column but the value; which of the four tables the row is in
 is the constructor of its bucket.  Uniqueness is not built into the key: the tables'
 two partial unique constraints compare id columns without the realm, and are stated
 by `CollidesNonNull` and `CollidesNull`.
 */
module CountTables {
  import opened Options
  import opened Sums

  datatype Table = UserCount | StreamCount | RealmCount | InstallationCount

  datatype Bucket =
    | OfUser(realm: int, user: int)
    | OfStream(realm: int, stream: int)
    | OfRealm(realm: int)
    | Installation
  {
    function Home(): Table {
      match this
      case OfUser(_, _) => UserCount
      case OfStream(_, _) => StreamCount
      case OfRealm(_) => RealmCount
      case Installation => InstallationCount
    }
  }

  /** A non-NULL subgroup: the text of a boolean, of an id, or a name. */
  datatype Label = BoolLabel(flag: bool) | IdLabel(id: int) | TextLabel(text: string)

  datatype RowKey = RowKey(bucket: Bucket, property: string, subgroup: Option<Label>, endTime: int)

  type Rows = map<RowKey, int>

  /** The columns both constraints of one table have in common. */
  predicate SameUniqueColumns(a: RowKey, b: RowKey) {
    && a.property == b.property && a.endTime == b.endTime
    && match (a.bucket, b.bucket)
       case (OfUser(_, u), OfUser(_, v)) => u == v
       case (OfStream(_, s), OfStream(_, t)) => s == t
       case (OfRealm(r), OfRealm(s)) => r == s
       case (Installation, Installation) => true
       case _ => false
  }

  /** unique_*_count, with condition subgroup IS NOT NULL. */
  predicate CollidesNonNull(a: RowKey, b: RowKey) {
    SameUniqueColumns(a, b) && a.subgroup.Some? && b.subgroup.Some? && a.subgroup == b.subgroup
  }

  /** unique_*_count_null_subgroup, with condition subgroup IS NULL. */
  predicate CollidesNull(a: RowKey, b: RowKey) {
    SameUniqueColumns(a, b) && a.subgroup.None? && b.subgroup.None?
  }

  predicate Collides(a: RowKey, b: RowKey) {
    CollidesNonNull(a, b) || CollidesNull(a, b)
  }

  /** No two rows of the tables violate a unique constraint. */
  predicate UniqueRows(rows: Rows) {
    forall a, b :: a in rows && b in rows && a != b ==> !Collides(a, b)
  }

  /** An INSERT of these rows is accepted by both constraints. */
  predicate Insertable(rows: Rows, added: Rows) {
    && UniqueRows(added)
    && forall a, b :: a in rows && b in added ==> !Collides(a, b)
  }

  /** INSERT: adds all the rows, or raises IntegrityError and adds none. */
  function Insert(rows: Rows, added: Rows): Option<Rows> {
    if Insertable(rows, added) then Some(rows + added) else None
  }

  /** The rows of one statistic at one end time, in all four tables. */
  function Slot(rows: Rows, p: string, t: int): Rows {
    map k | k in rows && k.property == p && k.endTime == t :: rows[k]
  }

  /** The rows of one of the four tables. */
  function Only(rows: Rows, table: Table): Rows {
    map k | k in rows && k.bucket.Home() == table :: rows[k]
  }

  /** DELETE FROM table WHERE property = p AND end_time = t. */
  function Delete(rows: Rows, table: Table, p: string, t: int): Rows {
    map k | k in rows && !(k.bucket.Home() == table && k.property == p && k.endTime == t) :: rows[k]
  }

  predicate InSlot(rows: Rows, p: string, t: int) {
    forall k :: k in rows ==> k.property == p && k.endTime == t
  }

  predicate InTable(rows: Rows, table: Table) {
    forall k :: k in rows ==> k.bucket.Home() == table
  }

  /** The group a row falls into in the aggregation into RealmCount. */
  function ToRealm(k: RowKey): RowKey {
    match k.bucket
    case OfUser(r, _) => k.(bucket := OfRealm(r))
    case OfStream(r, _) => k.(bucket := OfRealm(r))
    case _ => k
  }

  /** The group a row falls into in the aggregation into InstallationCount. */
  function ToInstallation(k: RowKey): RowKey {
    k.(bucket := Installation)
  }

  lemma SlotOfInsert(rows: Rows, added: Rows, p: string, t: int, q: string, u: int)
    requires InSlot(added, p, t)
    ensures Slot(rows + added, q, u) == if q == p && u == t then Slot(rows, p, t) + added else Slot(rows, q, u)
  {}

  lemma SlotOfDelete(rows: Rows, table: Table, p: string, t: int, q: string, u: int)
    ensures Slot(Delete(rows, table, p, t), q, u)
         == if q == p && u == t then Delete(Slot(rows, p, t), table, p, t) else Slot(rows, q, u)
  {}

  lemma RollIntoRealm(rows: Rows, p: string, t: int, table: Table)
    requires InSlot(rows, p, t) && InTable(rows, table)
    requires table == UserCount || table == StreamCount
    ensures InSlot(Roll(rows, ToRealm), p, t) && InTable(Roll(rows, ToRealm), RealmCount)
  {
    RollKeys(rows, ToRealm);
  }

  lemma RollIntoInstallation(rows: Rows, p: string, t: int)
    requires InSlot(rows, p, t)
    ensures InSlot(Roll(rows, ToInstallation), p, t) && InTable(Roll(rows, ToInstallation), InstallationCount)
  {
    RollKeys(rows, ToInstallation);
  }
}
