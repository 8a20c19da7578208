/**
 The bouncer's three tables of remote data, their unique constraints, and inserting rows in
 slices with conflicting rows ignored.
 */
module RemoteTables {
  import opened Options

  datatype Kind = RealmCounts | InstallationCounts | AuditLogs

  /** A count is tagged with its property, an audit log entry with its event type. */
  datatype Tag = Property(name: string) | EventType(code: int)

  /** One row; time is the end time of a count or the time of an event, value the count or the
      extra data.  A NULL remoteId marks a row the bouncer itself manages. */
  datatype Row = Row(
    server: int, realmId: Option<int>, remoteRealm: Option<int>, tag: Tag, subgroup: Option<string>, time: int,
    remoteId: Option<int>, value: int)

  type Rows = seq<Row>

  /** Equality of nullable columns in an index: NULL equals nothing. */
  predicate SameNonNull<T(==)>(a: Option<T>, b: Option<T>) {
    a.Some? && b.Some? && a == b
  }

  /** The columns after the leading ones of the two partial indexes, for NULL and for other subgroups. */
  predicate SameCount(a: Row, b: Row) {
    a.tag == b.tag && a.time == b.time
        && (SameNonNull(a.subgroup, b.subgroup) || (a.subgroup.None? && b.subgroup.None?))
  }

  predicate SameRemoteId(a: Row, b: Row) {
    a.server == b.server && SameNonNull(a.remoteId, b.remoteId)
  }

  /** Two rows that violate a unique constraint of their table. */
  predicate Conflict(kind: Kind, a: Row, b: Row) {
    || SameRemoteId(a, b)
    || (kind == RealmCounts && a.server == b.server && SameNonNull(a.realmId, b.realmId) && SameCount(a, b))
    || (kind == RealmCounts && SameNonNull(a.remoteRealm, b.remoteRealm) && SameCount(a, b))
    || (kind == InstallationCounts && a.server == b.server && SameCount(a, b))
  }

  predicate ConflictsIn(kind: Kind, table: Rows, row: Row) {
    exists i :: 0 <= i < |table| && Conflict(kind, table[i], row)
  }

  ghost predicate Unique(kind: Kind, table: Rows) {
    forall i, j :: 0 <= i < j < |table| ==> !Conflict(kind, table[i], table[j])
  }

  function InsertRow(kind: Kind, table: Rows, row: Row): Rows {
    if ConflictsIn(kind, table, row) then table else table + [row]
  }

  /** INSERT ... ON CONFLICT DO NOTHING: each row in turn, unless it conflicts with what is there. */
  function InsertIgnoring(kind: Kind, table: Rows, rows: Rows): Rows
    decreases |rows|
  {
    if rows == [] then table
    else InsertIgnoring(kind, InsertRow(kind, table, rows[0]), rows[1..])
  }

  /** Whether the row at i is inserted: it conflicts with nothing kept before it. */
  predicate Inserted(kind: Kind, table: Rows, rows: Rows, i: nat)
    requires i < |rows|
  {
    !ConflictsIn(kind, InsertIgnoring(kind, table, rows[..i]), rows[i])
  }

  /** Slices may be cut anywhere: inserting one after the other is inserting all at once. */
  lemma {:induction false} InsertInTwo(kind: Kind, table: Rows, a: Rows, b: Rows)
    ensures InsertIgnoring(kind, table, a + b) == InsertIgnoring(kind, InsertIgnoring(kind, table, a), b)
    decreases |a|
  {
    if a == [] {
      assert a + b == b;
    } else {
      assert (a + b)[1..] == a[1..] + b;
      InsertInTwo(kind, InsertRow(kind, table, a[0]), a[1..], b);
    }
  }

  lemma InsertLast(kind: Kind, table: Rows, rows: Rows)
    requires rows != []
    ensures InsertIgnoring(kind, table, rows)
         == InsertRow(kind, InsertIgnoring(kind, table, rows[..|rows| - 1]), rows[|rows| - 1])
  {
    var front, last := rows[..|rows| - 1], [rows[|rows| - 1]];
    assert rows == front + last;
    InsertInTwo(kind, table, front, last);
    assert last[1..] == [];
  }

  /** Existing rows stay as they are, at the front. */
  lemma {:induction false} InsertExtends(kind: Kind, table: Rows, rows: Rows)
    ensures table <= InsertIgnoring(kind, table, rows)
    ensures |InsertIgnoring(kind, table, rows)| <= |table| + |rows|
    decreases |rows|
  {
    if rows != [] {
      InsertExtends(kind, InsertRow(kind, table, rows[0]), rows[1..]);
    }
  }

  /** What is added comes from the list. */
  lemma {:induction false} InsertAdds(kind: Kind, table: Rows, rows: Rows, i: nat)
    requires |table| <= i < |InsertIgnoring(kind, table, rows)|
    ensures InsertIgnoring(kind, table, rows)[i] in rows
    decreases |rows|
  {
    var next := InsertRow(kind, table, rows[0]);
    if |next| <= i {
      InsertAdds(kind, next, rows[1..], i);
    } else {
      InsertExtends(kind, next, rows[1..]);
      assert InsertIgnoring(kind, table, rows)[i] == next[i];
    }
  }

  /** Nothing conflicts afterwards if nothing did before. */
  lemma {:induction false} InsertKeepsUnique(kind: Kind, table: Rows, rows: Rows)
    requires Unique(kind, table)
    ensures Unique(kind, InsertIgnoring(kind, table, rows))
    decreases |rows|
  {
    if rows != [] {
      InsertKeepsUnique(kind, InsertRow(kind, table, rows[0]), rows[1..]);
    }
  }

  /** A row is in the table afterwards exactly if it was there before or is one of those inserted. */
  lemma {:induction false} InsertMembers(kind: Kind, table: Rows, rows: Rows, row: Row)
    ensures row in InsertIgnoring(kind, table, rows)
       <==> row in table || exists i: nat :: i < |rows| && rows[i] == row && Inserted(kind, table, rows, i)
    decreases |rows|
  {
    if rows != [] {
      var n := |rows| - 1;
      var front := rows[..n];
      InsertLast(kind, table, rows);
      InsertMembers(kind, table, front, row);
      forall i: nat | i < n ensures Inserted(kind, table, rows, i) <==> Inserted(kind, table, front, i) {
        assert front[..i] == rows[..i];
      }
      if row in InsertIgnoring(kind, table, rows) && row !in table && row !in InsertIgnoring(kind, table, front) {
        assert rows[n] == row && Inserted(kind, table, rows, n);
      }
      if i: nat :| i < n && front[i] == row && Inserted(kind, table, front, i) {
        assert rows[i] == row && Inserted(kind, table, rows, i);
      }
    }
  }

  /** Every row of the list is inserted or has lost to a row that is in the table afterwards. */
  lemma InsertedOrLost(kind: Kind, table: Rows, rows: Rows, i: nat)
    requires i < |rows|
    ensures Inserted(kind, table, rows, i) ==> rows[i] in InsertIgnoring(kind, table, rows)
    ensures !Inserted(kind, table, rows, i) ==> ConflictsIn(kind, InsertIgnoring(kind, table, rows), rows[i])
  {
    if Inserted(kind, table, rows, i) {
      InsertMembers(kind, table, rows, rows[i]);
    } else {
      var before := InsertIgnoring(kind, table, rows[..i]);
      assert rows == rows[..i] + rows[i..];
      InsertInTwo(kind, table, rows[..i], rows[i..]);
      InsertExtends(kind, before, rows[i..]);
      var j :| 0 <= j < |before| && Conflict(kind, before[j], rows[i]);
      assert InsertIgnoring(kind, table, rows)[j] == before[j];
    }
  }

  /** The rows can be in one table: they agree neither in server and remote id nor in all the columns of an
      index of their table, where a NULL id or realm agrees with nothing. */
  predicate Differ(kind: Kind, a: Row, b: Row) {
    var sameCount := a.tag == b.tag && a.subgroup == b.subgroup && a.time == b.time;
    && (a.server != b.server || a.remoteId.None? || a.remoteId != b.remoteId)
    && match kind
       case RealmCounts =>
         !sameCount || ((a.server != b.server || a.realmId.None? || a.realmId != b.realmId)
             && (a.remoteRealm.None? || a.remoteRealm != b.remoteRealm))
       case InstallationCounts => !sameCount || a.server != b.server
       case AuditLogs => true
  }

  lemma DifferIs(kind: Kind, a: Row, b: Row)
    ensures Differ(kind, a, b) <==> !Conflict(kind, a, b)
  {}

  /** The rows of the list differ from each other and from those of the table. */
  ghost predicate AllDiffer(kind: Kind, table: Rows, rows: Rows) {
    && (forall i, j :: 0 <= i < |table| && 0 <= j < |rows| ==> Differ(kind, table[i], rows[j]))
    && (forall i, j :: 0 <= i < j < |rows| ==> Differ(kind, rows[i], rows[j]))
  }

  lemma AllDifferStep(kind: Kind, table: Rows, rows: Rows)
    requires rows != [] && !ConflictsIn(kind, table, rows[0])
    ensures AllDiffer(kind, table, rows) <==> AllDiffer(kind, table + [rows[0]], rows[1..])
  {
    hide Differ, Conflict;
    var longer, rest := table + [rows[0]], rows[1..];
    if AllDiffer(kind, longer, rest) {
      forall i, j | 0 <= i < |table| && 0 <= j < |rows| ensures Differ(kind, table[i], rows[j]) {
        DifferIs(kind, table[i], rows[j]);
        if j > 0 { assert Differ(kind, longer[i], rest[j - 1]); }
      }
      forall i, j | 0 <= i < j < |rows| ensures Differ(kind, rows[i], rows[j]) {
        if i == 0 {
          assert Differ(kind, longer[|table|], rest[j - 1]);
        } else {
          assert Differ(kind, rest[i - 1], rest[j - 1]);
        }
      }
    }
    if AllDiffer(kind, table, rows) {
      forall i, j | 0 <= i < |longer| && 0 <= j < |rest| ensures Differ(kind, longer[i], rest[j]) {
        assert i < |table| ==> Differ(kind, table[i], rows[j + 1]);
        assert Differ(kind, rows[0], rows[j + 1]);
      }
    }
  }

  /** Rows are stored completely exactly if, in columns, they differ from each other and from everything stored. */
  lemma {:induction false} StoredCompletely(kind: Kind, table: Rows, rows: Rows)
    ensures InsertIgnoring(kind, table, rows) == table + rows <==> AllDiffer(kind, table, rows)
    ensures |InsertIgnoring(kind, table, rows)| == |table| + |rows| <==> AllDiffer(kind, table, rows)
    decreases |rows|
  {
    hide Differ, Conflict;
    if rows == [] {
      assert table + rows == table;
    } else if ConflictsIn(kind, table, rows[0]) {
      InsertExtends(kind, table, rows[1..]);
      var i :| 0 <= i < |table| && Conflict(kind, table[i], rows[0]);
      DifferIs(kind, table[i], rows[0]);
    } else {
      StoredCompletely(kind, table + [rows[0]], rows[1..]);
      assert table + rows == table + [rows[0]] + rows[1..];
      AllDifferStep(kind, table, rows);
    }
  }

  /** Chunking transparency: whatever the slice size, one pass over the whole list results, and the
      rows inserted and dropped add up to the rows given. */
  method InsertInSlices(kind: Kind, table: Rows, rows: Rows, size: nat) returns (filled: Rows, dropped: nat)
    requires size > 0
    ensures filled == InsertIgnoring(kind, table, rows)
    ensures |filled| - |table| + dropped == |rows|
  {
    hide ConflictsIn, InsertRow;
    filled := table;
    var rowObjects := rows;
    var insertedCount := 0;
    while rowObjects != []
      invariant InsertIgnoring(kind, filled, rowObjects) == InsertIgnoring(kind, table, rows)
      invariant insertedCount == |filled| - |table| <= |rows| - |rowObjects|
      decreases |rowObjects|
    {
      var cut := if size <= |rowObjects| then size else |rowObjects|;
      var toInsert, rest := rowObjects[..cut], rowObjects[cut..];
      assert rowObjects == toInsert + rest;
      InsertInTwo(kind, filled, toInsert, rest);
      InsertExtends(kind, filled, toInsert);
      var result := InsertIgnoring(kind, filled, toInsert);
      insertedCount := insertedCount + (|result| - |filled|);
      filled := result;
      rowObjects := rest;
    }
    dropped := |rows| - insertedCount;
  }
}
