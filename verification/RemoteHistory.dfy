/**
 Histories of submissions, foreign-key fixes, counter increments and the bouncer's own audit
 entries: what no history can break.
 */
module RemoteHistory {
  import opened RemoteTables
  import opened RemoteSync

  datatype Event =
    | Posted(server: int, sub: Submission, links: Links, fix: bool)
    | Counted(owner: Owner, counter: Counter, endTime: int, increment: int)
    | Noted(row: Row)

  /** An entry the bouncer writes into the audit log itself has no remote id. */
  ghost function Apply(tables: Tables, e: Event): Tables {
    match e
    case Posted(server, sub, links, fix) =>
      (match Post(tables, server, sub, links, fix)
       case Accepted(next) => next
       case Rejected(_) => tables)
    case Counted(owner, counter, endTime, increment) => IncrementCounter(tables, owner, counter, endTime, increment)
    case Noted(row) => if row.remoteId.None? then tables.(auditLogs := tables.auditLogs + [row]) else tables
  }

  ghost function After(history: seq<Event>): Tables
    decreases |history|
  {
    if history == [] then Tables([], [], [])
    else Apply(After(history[..|history| - 1]), history[|history| - 1])
  }

  // ------------------------------------------------------------- the invariant

  /** A count row belongs to the bouncer exactly if its property does. */
  predicate Owned(row: Row) {
    row.remoteId.None? <==> BouncerOnly(row.tag)
  }

  /** The bouncer's own counters have no realm id, and a remote realm in the realm table. */
  predicate CounterShaped(kind: Kind, row: Row) {
    row.remoteId.None? ==> row.realmId.None? && row.subgroup.None? && (kind == RealmCounts ==> row.remoteRealm.Some?)
  }

  /** A synced row's property or event type is one that is accepted and not skipped. */
  predicate SyncedShaped(kind: Kind, row: Row) {
    row.remoteId.Some? ==>
      if kind == AuditLogs then SyncedEvent(row.tag)
      else row.tag.Property? && InCountStats(row.tag.name) && !BouncerOnly(row.tag) && !NotSent(row.tag)
  }

  ghost predicate TableInv(kind: Kind, table: Rows) {
    && Unique(kind, table)
    && (kind != AuditLogs ==> forall row :: row in table ==> Owned(row) && CounterShaped(kind, row))
    && (forall row :: row in table ==> SyncedShaped(kind, row) && (row.remoteId.Some? ==> row.remoteId.value > 0))
  }

  ghost predicate Inv(tables: Tables) {
    forall kind: Kind :: TableInv(kind, tables.Of(kind))
  }

  /** How a stored row may change: it can be linked to its realm, and a counter can be incremented. */
  predicate SameRow(kind: Kind, was: Row, now: Row) {
    && now.server == was.server && now.realmId == was.realmId && now.tag == was.tag && now.subgroup == was.subgroup
    && now.time == was.time && now.remoteId == was.remoteId
    && (was.remoteRealm.Some? || was.realmId.None? ==> now.remoteRealm == was.remoteRealm)
    && (was.remoteId.Some? || kind == AuditLogs ==> now.value == was.value)
  }

  /** Rows stay, in their places. */
  ghost predicate Evolves(kind: Kind, was: Rows, now: Rows) {
    |was| <= |now| && forall i :: 0 <= i < |was| ==> SameRow(kind, was[i], now[i])
  }

  lemma EvolvesTransitive(kind: Kind, a: Rows, b: Rows, c: Rows)
    requires Evolves(kind, a, b) && Evolves(kind, b, c)
    ensures Evolves(kind, a, c)
  {
    forall i | 0 <= i < |a| ensures SameRow(kind, a[i], c[i]) {
      assert SameRow(kind, a[i], b[i]) && SameRow(kind, b[i], c[i]);
    }
  }

  // --------------------------------------------------------------------- linking

  lemma LinkedInv(kind: Kind, table: Rows, server: int, links: Links)
    requires TableInv(kind, table) && kind != InstallationCounts
    requires kind == RealmCounts ==> Unique(kind, Linked(table, server, links))
    ensures TableInv(kind, Linked(table, server, links)) && Evolves(kind, table, Linked(table, server, links))
  {
    hide SyncedEvent, InCountStats, NotSent, BouncerOnly;
    var now := Linked(table, server, links);
    if kind == AuditLogs {
      forall i, j | 0 <= i < j < |now| ensures !Conflict(kind, now[i], now[j]) {
        assert !Conflict(kind, table[i], table[j]);
      }
    }
    forall row | row in now
      ensures kind != AuditLogs ==> Owned(row) && CounterShaped(kind, row)
      ensures SyncedShaped(kind, row) && (row.remoteId.Some? ==> row.remoteId.value > 0)
    {
      var i :| 0 <= i < |now| && now[i] == row;
      assert table[i] in table;
    }
  }

  // ------------------------------------------------------------------- insertion

  lemma {:induction false} ToRowsOrigin(kind: Kind, server: int, links: Links, rows: seq<ClientRow>, row: Row)
    ensures row in ToRows(kind, server, links, rows)
       <==> exists c :: c in rows && !Skipped(kind, c) && row == ToRow(kind, server, links, c)
    decreases |rows|
  {
    if rows != [] {
      var front, last := rows[..|rows| - 1], rows[|rows| - 1];
      ToRowsOrigin(kind, server, links, front, row);
      assert rows == front + [last];
      if !Skipped(kind, last) && row == ToRow(kind, server, links, last) { assert last in rows; }
    }
  }

  /** An acceptable client row becomes a row the server owns, above the mark. */
  lemma AcceptableRow(kind: Kind, server: int, links: Links, c: ClientRow, mark: int)
    requires Fault(kind, c, mark).None? && !Skipped(kind, c) && mark >= 0
    ensures var row := ToRow(kind, server, links, c);
            FromServer(row, server, c.id) && c.id > 0 && SyncedShaped(kind, row)
                && (kind != AuditLogs ==> Owned(row) && CounterShaped(kind, row))
  {}

  lemma MarkNonNegative(kind: Kind, table: Rows, server: int)
    requires TableInv(kind, table)
    ensures Mark(table, server) >= 0
  {
    LastRemoteIdIsGreatest(table, server);
    if LastRemoteId(table, server).Some? {
      var row :| row in table && FromServer(row, server, LastRemoteId(table, server).value);
    }
  }

  lemma SyncedInv(kind: Kind, table: Rows, server: int, links: Links, rows: seq<ClientRow>, mark: int)
    requires TableInv(kind, table) && mark >= 0 && Validated(kind, rows, mark).None?
    ensures TableInv(kind, Synced(kind, table, server, links, rows))
              && Evolves(kind, table, Synced(kind, table, server, links, rows))
  {
    hide InCountStats, NotSent, Conflict, BouncerOnly, Fault, Acceptable, ToRow, SyncedShaped, Owned, CounterShaped;
    var added := ToRows(kind, server, links, rows);
    var now := InsertIgnoring(kind, table, added);
    InsertKeepsUnique(kind, table, added);
    InsertExtends(kind, table, added);
    ValidatedMeans(kind, rows, mark);
    forall row | row in now
      ensures kind != AuditLogs ==> Owned(row) && CounterShaped(kind, row)
      ensures SyncedShaped(kind, row) && (row.remoteId.Some? ==> row.remoteId.value > 0)
    {
      InsertMembers(kind, table, added, row);
      if row !in table {
        ToRowsOrigin(kind, server, links, rows, row);
        var c :| c in rows && !Skipped(kind, c) && row == ToRow(kind, server, links, c);
        var i :| 0 <= i < |rows| && rows[i] == c;
        FaultIs(kind, rows[i], mark);
        AcceptableRow(kind, server, links, c, mark);
      }
    }
  }

  // -------------------------------------------------------------------- counters

  lemma AddToEvolves(kind: Kind, table: Rows, added: Row)
    requires kind != AuditLogs && added.remoteId.None? && BouncerOnly(added.tag)
    requires forall row :: row in table ==> Owned(row)
    ensures Evolves(kind, table, AddTo(kind, table, added))
  {
    hide BouncerOnly;
    var i := HitAt(kind, table, added);
    if i < |table| { assert table[i] in table; }
  }

  lemma ConflictIgnoresValue(kind: Kind, a: Row, b: Row, v: int)
    ensures Conflict(kind, a.(value := v), b) <==> Conflict(kind, a, b)
    ensures Conflict(kind, b, a.(value := v)) <==> Conflict(kind, b, a)
  {}

  /** A counter row conflicts only with the row its increment would have hit. */
  lemma CounterConflict(owner: Owner, counter: Counter, endTime: int, increment: int, row: Row)
    ensures var added := CounterRow(owner, counter, endTime, increment);
            Conflict(owner.Home(), row, added) ==> Hits(owner.Home(), row, added)
  {}

  lemma AddToInv(owner: Owner, counter: Counter, endTime: int, increment: int, table: Rows)
    requires TableInv(owner.Home(), table)
    ensures var now := AddTo(owner.Home(), table, CounterRow(owner, counter, endTime, increment));
            TableInv(owner.Home(), now) && Evolves(owner.Home(), table, now)
  {
    hide BouncerOnly, Conflict;
    var kind := owner.Home();
    var added := CounterRow(owner, counter, endTime, increment);
    CounterIsBouncerOnly(counter);
    AddToEvolves(kind, table, added);
    var i := HitAt(kind, table, added);
    if i < |table| {
      AddedValueInv(kind, table, i, table[i].value + added.value);
    } else {
      forall j | 0 <= j < |table| ensures !Conflict(kind, table[j], added) {
        CounterConflict(owner, counter, endTime, increment, table[j]);
      }
    }
  }

  lemma CounterIsBouncerOnly(counter: Counter)
    ensures BouncerOnly(Property(counter.Name()))
  {}

  lemma AddedValueInv(kind: Kind, table: Rows, i: nat, v: int)
    requires i < |table| && TableInv(kind, table)
    ensures TableInv(kind, table[i := table[i].(value := v)])
  {
    hide BouncerOnly, Conflict;
    var now := table[i := table[i].(value := v)];
    forall j, k | 0 <= j < k < |now| ensures !Conflict(kind, now[j], now[k]) {
      assert !Conflict(kind, table[j], table[k]);
      if j == i { ConflictIgnoresValue(kind, table[i], table[k], v); }
      if k == i { ConflictIgnoresValue(kind, table[i], table[j], v); }
    }
    forall row | row in now ensures row in table || row == table[i].(value := v) {}
    assert table[i] in table;
  }

  // ------------------------------------------------------------------- histories

  ghost predicate AllEvolve(was: Tables, now: Tables) {
    forall kind: Kind :: Evolves(kind, was.Of(kind), now.Of(kind))
  }

  /** What a submission does to one table. */
  lemma PostTable(tables: Tables, server: int, sub: Submission, links: Links, fix: bool, kind: Kind)
    requires Inv(tables) && Post(tables, server, sub, links, fix).Accepted?
    ensures var fixed := FixedTable(tables, server, links, fix, kind);
            && TableInv(kind, fixed) && Evolves(kind, tables.Of(kind), fixed)
            && Post(tables, server, sub, links, fix).tables.Of(kind) == Synced(kind, fixed, server, links, sub.Of(kind))
    ensures Mark(tables.Of(kind), server) >= 0
    ensures Validated(kind, sub.Of(kind), Mark(tables.Of(kind), server)).None?
  {
    hide Synced, Validated, Mark, Unique, Malformed;
    assert TableInv(kind, tables.Of(kind));
    MarkNonNegative(kind, tables.Of(kind), server);
    if fix && kind != InstallationCounts {
      LinkedInv(kind, tables.Of(kind), server, links);
    }
  }

  ghost function FixedTable(tables: Tables, server: int, links: Links, fix: bool, kind: Kind): Rows {
    if fix && kind != InstallationCounts then Linked(tables.Of(kind), server, links) else tables.Of(kind)
  }

  lemma FixedLength(tables: Tables, server: int, links: Links, fix: bool, kind: Kind)
    ensures |FixedTable(tables, server, links, fix, kind)| == |tables.Of(kind)|
  {}

  lemma PostKeeps(tables: Tables, server: int, sub: Submission, links: Links, fix: bool, kind: Kind)
    requires Inv(tables) && Post(tables, server, sub, links, fix).Accepted?
    ensures var next := Post(tables, server, sub, links, fix).tables;
            TableInv(kind, next.Of(kind)) && Evolves(kind, tables.Of(kind), next.Of(kind))
  {
    hide Post, Synced, Validated, Mark, TableInv, FixedTable, Evolves;
    PostTable(tables, server, sub, links, fix, kind);
    var fixed := FixedTable(tables, server, links, fix, kind);
    SyncedInv(kind, fixed, server, links, sub.Of(kind), Mark(tables.Of(kind), server));
    EvolvesTransitive(kind, tables.Of(kind), fixed, Synced(kind, fixed, server, links, sub.Of(kind)));
  }

  lemma NotedInv(table: Rows, row: Row)
    requires TableInv(AuditLogs, table) && row.remoteId.None?
    ensures TableInv(AuditLogs, table + [row]) && Evolves(AuditLogs, table, table + [row])
  {}

  /** Every event keeps the invariant, and every stored row in its place. */
  lemma ApplyKeeps(tables: Tables, e: Event)
    requires Inv(tables)
    ensures Inv(Apply(tables, e)) && AllEvolve(tables, Apply(tables, e))
  {
    hide Post, TableInv, Evolves, AddTo;
    forall kind: Kind
      ensures TableInv(kind, Apply(tables, e).Of(kind)) && Evolves(kind, tables.Of(kind), Apply(tables, e).Of(kind))
    {
      EvolvesSelf(kind, tables.Of(kind));
      match e
      case Posted(server, sub, links, fix) =>
        if Post(tables, server, sub, links, fix).Accepted? { PostKeeps(tables, server, sub, links, fix, kind); }
      case Counted(owner, counter, endTime, increment) =>
        if kind == owner.Home() { AddToInv(owner, counter, endTime, increment, tables.Of(kind)); }
      case Noted(row) => if row.remoteId.None? && kind == AuditLogs { NotedInv(tables.auditLogs, row); }
    }
  }

  lemma EvolvesSelf(kind: Kind, table: Rows)
    ensures Evolves(kind, table, table)
  {}

  lemma {:induction false} InvAlways(history: seq<Event>)
    ensures Inv(After(history))
    decreases |history|
  {
    hide Apply, AllEvolve;
    if history != [] {
      InvAlways(history[..|history| - 1]);
      ApplyKeeps(After(history[..|history| - 1]), history[|history| - 1]);
    }
  }

  lemma {:induction false} EvolvesAlways(history: seq<Event>, more: seq<Event>, kind: Kind)
    ensures Evolves(kind, After(history).Of(kind), After(history + more).Of(kind))
    decreases |more|
  {
    hide Apply, Inv, Evolves;
    if more == [] {
      assert history + more == history;
      EvolvesSelf(kind, After(history).Of(kind));
    } else {
      var shorter := more[..|more| - 1];
      EvolvesAlways(history, shorter, kind);
      assert (history + more)[..|history + more| - 1] == history + shorter;
      InvAlways(history + shorter);
      ApplyKeeps(After(history + shorter), more[|more| - 1]);
      EvolvesTransitive(kind, After(history).Of(kind), After(history + shorter).Of(kind),
                        After(history + more).Of(kind));
    }
  }
}
