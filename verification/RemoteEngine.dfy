/**
 The bouncer's endpoint code over its tables, executed.
 */
module RemoteEngine {
  import opened Options
  import opened RemoteTables
  import opened RemoteSync
  import opened RemoteHistory
  import RemoteExactlyOnce
  import RealmReconcile
  import RealmRegistry
  import Sums

  const BATCH_SIZE := 1000

  // ------------------------------------------------------ fixing key by key

  /** The links whose realm ids have been handled. */
  ghost function Handled(links: Links, todo: set<int>): Links {
    map r | r in links && r !in todo :: links[r]
  }

  lemma LinkedStep(table: Rows, server: int, links: Links, todo: set<int>, r: int)
    requires r in todo && r in links
    ensures Linked(Linked(table, server, Handled(links, todo)), server, map[r := links[r]])
         == Linked(table, server, Handled(links, todo - {r}))
  {}

  /** Linking more rows resolves no conflict. */
  lemma LinkedConflicts(table: Rows, server: int, links: Links)
    requires Unique(RealmCounts, Linked(table, server, links))
    ensures Unique(RealmCounts, table)
  {
    var now := Linked(table, server, links);
    forall i, j | 0 <= i < j < |table| ensures !Conflict(RealmCounts, table[i], table[j]) {
      assert !Conflict(RealmCounts, now[i], now[j]);
      assert SameRow(RealmCounts, table[i], now[i]) && SameRow(RealmCounts, table[j], now[j]);
    }
  }

  lemma HandledAll(table: Rows, server: int, links: Links)
    ensures Linked(table, server, Handled(links, links.Keys)) == table
    ensures Linked(table, server, Handled(links, {})) == Linked(table, server, links)
  {
    assert Handled(links, {}) == links;
    assert Handled(links, links.Keys) == map[];
  }

  lemma LinkedMore(table: Rows, server: int, links: Links, todo: set<int>)
    requires Unique(RealmCounts, Linked(table, server, links))
    ensures Unique(RealmCounts, Linked(table, server, Handled(links, todo)))
  {
    var part := Linked(table, server, Handled(links, todo));
    assert Linked(part, server, links) == Linked(table, server, links);
    LinkedConflicts(part, server, links);
  }

  // -------------------------------------------------------------- versions

  const VERSION_MAX_LENGTH := 128

  /** last_version, last_merge_base and last_api_feature_level of a server. */
  datatype Version = Version(name: Option<string>, mergeBase: Option<string>, featureLevel: Option<int>)

  function Truncated(v: Version): (r: Version)
    ensures r.mergeBase == v.mergeBase && r.featureLevel == v.featureLevel && (r.name.Some? <==> v.name.Some?)
    ensures v.name.Some? ==> r.name.value <= v.name.value && |r.name.value| <= VERSION_MAX_LENGTH
    ensures v.name.Some? && r.name != v.name ==> |r.name.value| == VERSION_MAX_LENGTH
  {
    match v.name
    case Some(name) => v.(name := Some(if |name| <= VERSION_MAX_LENGTH then name else name[..VERSION_MAX_LENGTH]))
    case None => v
  }

  function LastVersion(versions: map<int, Version>, server: int): Version {
    if server in versions then versions[server] else Version(None, None, None)
  }

  // ----------------------------------------------------------------- the view

  /** realm_id_to_remote_realm: empty if the server does not report its realms. */
  function LinksOf(realms: RealmReconcile.Realms, server: int, reported: Option<seq<RealmReconcile.Reported>>): Links {
    if reported.None? then map[]
    else
      var ids := RealmReconcile.RealmIds(realms, server, reported.value);
      if ids.Some? then ids.value else map[]
  }

  ghost predicate IsDuplicate(realms: RealmReconcile.Realms, server: int,
                              reported: Option<seq<RealmReconcile.Reported>>) {
    reported.Some? && RealmReconcile.Duplicate(realms, server, reported.value)
  }

  /** What a submission ends in, given the registrations its realm report leads to. */
  ghost function ErrorOf(tables: Tables, was: RealmReconcile.Realms, reconciled: RealmReconcile.Realms, server: int,
                         sub: Submission, reported: Option<seq<RealmReconcile.Reported>>, newVersion: bool)
    : Option<Error>
  {
    var refused := Refused(tables, server, sub);
    if refused.Some? then refused
    else if IsDuplicate(was, server, reported) then Some(DuplicateRegistration)
    else
      match Post(tables, server, sub, LinksOf(reconciled, server, reported), reported.Some? && newVersion)
      case Accepted(_) => None
      case Rejected(e) => Some(e)
  }

  // ---------------------------------------------------- what rows are linked to

  /** The row is under the uuid last reported for its realm id, or under none if there is no such report. */
  ghost predicate LinkedAsReported(kind: Kind, row: Row, reported: Option<seq<RealmReconcile.Reported>>) {
    if kind == InstallationCounts || reported.None? || row.realmId.None? then row.remoteRealm == None
    else
      && (forall j: nat :: RealmReconcile.LastWithId(reported.value, j) && row.realmId == Some(reported.value[j].id) ==>
            row.remoteRealm == Some(reported.value[j].uuid))
      && ((forall j :: 0 <= j < |reported.value| ==> row.realmId != Some(reported.value[j].id)) ==>
            row.remoteRealm == None)
  }

  /** A stored row stays as it is, unless the keys are fixed and it is an unlinked row of the server. */
  ghost predicate KeptOrLinked(kind: Kind, was: Row, now: Row, server: int,
                               reported: Option<seq<RealmReconcile.Reported>>, fix: bool) {
    if fix && kind != InstallationCounts && was.server == server && was.remoteRealm.None? && was.realmId.Some?
    then now == was.(remoteRealm := now.remoteRealm) && LinkedAsReported(kind, now, reported)
    else now == was
  }

  ghost predicate AllLinked(was: Tables, now: Tables, server: int, reported: Option<seq<RealmReconcile.Reported>>,
                            fix: bool) {
    forall kind: Kind ::
      && |was.Of(kind)| <= |now.Of(kind)|
      && (forall i :: 0 <= i < |was.Of(kind)| ==>
            KeptOrLinked(kind, was.Of(kind)[i], now.Of(kind)[i], server, reported, fix))
      && (forall i :: |was.Of(kind)| <= i < |now.Of(kind)| ==> LinkedAsReported(kind, now.Of(kind)[i], reported))
  }

  lemma LinkIsReported(realms: RealmReconcile.Realms, server: int, reported: Option<seq<RealmReconcile.Reported>>,
                       kind: Kind, row: Row)
    requires reported.Some? ==> RealmReconcile.RealmIds(realms, server, reported.value).Some?
    requires row.remoteRealm == RemoteExactlyOnce.RealmFor(kind, LinksOf(realms, server, reported), row.realmId)
    ensures LinkedAsReported(kind, row, reported)
  {
    if reported.Some? && row.realmId.Some? {
      RealmReconcile.LookupIs(realms, server, reported.value);
      if row.realmId.value in LinksOf(realms, server, reported) {
        var i: nat :| RealmReconcile.LastWithId(reported.value, i) && reported.value[i].id == row.realmId.value;
        assert row.realmId == Some(reported.value[i].id);
      }
    }
  }

  lemma FixedIsLinked(realms: RealmReconcile.Realms, server: int, reported: Option<seq<RealmReconcile.Reported>>,
                      fix: bool, tables: Tables, kind: Kind, i: nat)
    requires reported.Some? ==> RealmReconcile.RealmIds(realms, server, reported.value).Some?
    requires i < |tables.Of(kind)|
    ensures var fixed := FixedTable(tables, server, LinksOf(realms, server, reported), fix, kind);
            |fixed| == |tables.Of(kind)| && KeptOrLinked(kind, tables.Of(kind)[i], fixed[i], server, reported, fix)
  {
    hide LinkedAsReported, LinksOf;
    var links := LinksOf(realms, server, reported);
    var was := tables.Of(kind)[i];
    if fix && kind != InstallationCounts && was.server == server && was.remoteRealm.None? && was.realmId.Some? {
      LinkIsReported(realms, server, reported, kind, Link(was, server, links));
    }
  }

  /** What a submission stores, or links, is under the realms it reports. */
  lemma PostedAreLinked(tables: Tables, realms: RealmReconcile.Realms, server: int, sub: Submission,
                        reported: Option<seq<RealmReconcile.Reported>>, fix: bool)
    requires Inv(tables) && Post(tables, server, sub, LinksOf(realms, server, reported), fix).Accepted?
    requires reported.Some? ==> RealmReconcile.RealmIds(realms, server, reported.value).Some?
    ensures AllLinked(tables, RemoteHistory.Apply(tables, Posted(server, sub, LinksOf(realms, server, reported), fix)),
                      server, reported, fix)
  {
    hide Post, LinksOf, FixedTable, InsertIgnoring, Conflict, LinkedAsReported, KeptOrLinked, TableInv, ToRows;
    var e := Posted(server, sub, LinksOf(realms, server, reported), fix);
    var now := RemoteHistory.Apply(tables, e);
    forall kind: Kind
      ensures |tables.Of(kind)| <= |now.Of(kind)|
      ensures forall i :: 0 <= i < |tables.Of(kind)| ==>
                KeptOrLinked(kind, tables.Of(kind)[i], now.Of(kind)[i], server, reported, fix)
      ensures forall i :: |tables.Of(kind)| <= i < |now.Of(kind)| ==> LinkedAsReported(kind, now.Of(kind)[i], reported)
    {
      PostTable(tables, server, sub, e.links, fix, kind);
      FixedLength(tables, server, e.links, fix, kind);
      var fixed := FixedTable(tables, server, e.links, fix, kind);
      InsertExtends(kind, fixed, ToRows(kind, server, e.links, sub.Of(kind)));
      forall i | 0 <= i < |tables.Of(kind)|
        ensures KeptOrLinked(kind, tables.Of(kind)[i], now.Of(kind)[i], server, reported, fix)
      {
        FixedIsLinked(realms, server, reported, fix, tables, kind, i);
        assert now.Of(kind)[i] == fixed[i];
      }
      forall i | |tables.Of(kind)| <= i < |now.Of(kind)| ensures LinkedAsReported(kind, now.Of(kind)[i], reported) {
        RemoteExactlyOnce.AddedRowIs(tables, e, kind, i);
        LinkIsReported(realms, server, reported, kind, now.Of(kind)[i]);
      }
    }
  }

  class Bouncer {
    var tables: Tables
    var versions: map<int, Version>

    constructor ()
      ensures tables == Tables([], [], []) && versions == map[] && Inv(tables)
    {
      tables, versions := Tables([], [], []), map[];
    }

    /** validate_incoming_table_data. */
    method ValidateIncomingTableData(server: int, kind: Kind, rows: seq<ClientRow>) returns (error: Option<Error>)
      ensures error == Validated(kind, rows, Mark(tables.Of(kind), server))
      ensures error.None? <==> InOrder(kind, rows, Mark(tables.Of(kind), server))
    {
      hide Fault;
      ValidatedMeans(kind, rows, Mark(tables.Of(kind), server));
      var lastId := Mark(tables.Of(kind), server);
      var i := 0;
      while i < |rows|
        invariant 0 <= i <= |rows|
        invariant Validated(kind, rows[i..], lastId) == Validated(kind, rows, Mark(tables.Of(kind), server))
      {
        assert rows[i..][1..] == rows[i + 1..];
        var fault := Fault(kind, rows[i], lastId);
        if fault.Some? {
          return fault;
        }
        lastId := rows[i].id;
        i := i + 1;
      }
      error := None;
    }

    /** batch_create_table_data: existing rows stay, and the rows inserted and dropped add up. */
    method BatchCreateTableData(kind: Kind, rows: Rows) returns (dropped: nat)
      modifies this`tables
      ensures tables == old(tables).With(kind, InsertIgnoring(kind, old(tables).Of(kind), rows))
      ensures old(tables).Of(kind) <= tables.Of(kind)
      ensures |tables.Of(kind)| + dropped == |old(tables).Of(kind)| + |rows|
      ensures dropped == 0 <==> AllDiffer(kind, old(tables).Of(kind), rows)
    {
      var filled;
      filled, dropped := InsertInSlices(kind, tables.Of(kind), rows, BATCH_SIZE);
      InsertExtends(kind, tables.Of(kind), rows);
      StoredCompletely(kind, tables.Of(kind), rows);
      tables := tables.With(kind, filled);
    }

    /** fix_remote_realm_foreign_keys, one realm id after the other; false is an IntegrityError. */
    method FixRemoteRealmForeignKeys(server: int, links: Links) returns (ok: bool)
      requires Unique(RealmCounts, tables.realmCounts)
      modifies this`tables
      ensures ok <==> Fixed(old(tables), server, links).Some?
      ensures ok ==> tables == Fixed(old(tables), server, links).value
    {
      hide Unique;
      ghost var was := tables;
      var todo := links.Keys;
      HandledAll(was.realmCounts, server, links);
      HandledAll(was.auditLogs, server, links);
      while todo != {}
        invariant todo <= links.Keys
        invariant tables == was.(realmCounts := Linked(was.realmCounts, server, Handled(links, todo)),
                                 auditLogs := Linked(was.auditLogs, server, Handled(links, todo)))
        invariant Unique(RealmCounts, tables.realmCounts)
        decreases |todo|
      {
        ghost var some := Sums.SomeElement(todo);
        var r :| r in todo;
        LinkedStep(was.realmCounts, server, links, todo, r);
        LinkedStep(was.auditLogs, server, links, todo, r);
        var counts := Linked(tables.realmCounts, server, map[r := links[r]]);
        var clashes := HasConflict(counts);
        if clashes {
          if Unique(RealmCounts, Linked(was.realmCounts, server, links)) {
            LinkedMore(was.realmCounts, server, links, todo - {r});
          }
          return false;
        }
        var logs := Linked(tables.auditLogs, server, map[r := links[r]]);
        tables := tables.(realmCounts := counts, auditLogs := logs);
        todo := todo - {r};
      }
      ok := true;
    }

    /** The check of the unique constraints during an UPDATE. */
    method HasConflict(counts: Rows) returns (clashes: bool)
      ensures clashes <==> !Unique(RealmCounts, counts)
    {
      var i := 0;
      while i < |counts|
        invariant 0 <= i <= |counts| && Unique(RealmCounts, counts[..i])
      {
        if ConflictsIn(RealmCounts, counts[..i], counts[i]) {
          return true;
        }
        i := i + 1;
      }
      assert counts[..i] == counts;
      clashes := false;
    }

    /** The writes of remote_server_post_analytics once the submission is validated and the realms are
        reconciled; on an error the tables are left as far as they got. */
    method StoreSubmission(server: int, sub: Submission, links: Links, fix: bool) returns (error: Option<Error>)
      requires Inv(tables) && Refused(tables, server, sub).None?
      modifies this`tables
      ensures match Post(old(tables), server, sub, links, fix)
              case Accepted(next) => error == None && tables == next && Inv(tables)
              case Rejected(e) => error == Some(e)
    {
      hide InsertIgnoring, Linked, Unique, Refused, TableInv;
      ApplyKeeps(tables, Posted(server, sub, links, fix));
      if fix {
        UniqueOf(tables);
        var ok := FixRemoteRealmForeignKeys(server, links);
        if !ok {
          return Some(IntegrityError);
        }
      }
      var dropped := BatchCreateTableData(RealmCounts, ToRows(RealmCounts, server, links, sub.realmCounts));
      dropped := BatchCreateTableData(InstallationCounts,
                                      ToRows(InstallationCounts, server, links, sub.installationCounts));
      if Malformed(sub) {
        return Some(MalformedAuditLog);
      }
      dropped := BatchCreateTableData(AuditLogs, ToRows(AuditLogs, server, links, sub.Of(AuditLogs)));
      error := None;
    }

    /** remote_server_post_analytics, in one transaction: the version is recorded, the realms are reconciled
        and all three tables extended, or nothing changes at all. */
    method PostAnalytics(registry: RealmRegistry.Registry, server: int, version: Version, sub: Submission,
                         reported: Option<seq<RealmReconcile.Reported>>, now: int)
      returns (error: Option<Error>, ghost reconciled: RealmReconcile.Realms)
      requires Inv(tables) && (reported.Some? ==> RealmReconcile.WellFormed(registry.realms, reported.value))
      modifies this, registry
      ensures Inv(tables)
      ensures error == ErrorOf(old(tables), old(registry.realms), reconciled, server, sub, reported,
                               Truncated(version) != LastVersion(old(versions), server))
      ensures error.Some? ==> tables == old(tables) && versions == old(versions)
      ensures error.Some? ==> registry.realms == old(registry.realms) && registry.audit == old(registry.audit)
      ensures error.None? ==> registry.realms == reconciled
      ensures error.None? ==>
                var newVersion := Truncated(version) != LastVersion(old(versions), server);
                var posted := Posted(server, sub, LinksOf(reconciled, server, reported), reported.Some? && newVersion);
                tables == RemoteHistory.Apply(old(tables), posted)
      ensures error.None? ==>
                AllLinked(old(tables), tables, server, reported,
                          reported.Some? && Truncated(version) != LastVersion(old(versions), server))
      ensures error.None? ==> LastVersion(versions, server) == Truncated(version)
      ensures error.None? ==> forall s :: s != server ==> LastVersion(versions, s) == LastVersion(old(versions), s)
      ensures error.None? && reported.None? ==>
                registry.realms == old(registry.realms) && registry.audit == old(registry.audit)
      ensures error.None? && reported.Some? ==>
                && RealmReconcile.IsReconciled(old(registry.realms), registry.realms, server, reported.value)
                && RealmReconcile.RealmIds(registry.realms, server, reported.value).Some?
      ensures error.None? && reported.Some? ==>
                && old(registry.audit) <= registry.audit
                && forall u :: RealmReconcile.EntriesOf(registry.audit[|old(registry.audit)|..], u)
                            == RealmReconcile.Logged(old(registry.realms), server, reported.value, now, u)
    {
      hide *;
      reconciled := registry.realms;
      var begun, begunVersions, begunRealms, begunAudit := tables, versions, registry.realms, registry.audit;
      var current := Truncated(version);
      var updated := current != LastVersion(versions, server);
      if updated {
        versions := versions[server := current];
      }
      VersionRecorded(begunVersions, server, current);
      error := ValidateAll(server, sub);
      if error.None? && reported.Some? {
        var duplicate := registry.UpdateRemoteRealmDataForServer(server, reported.value, now);
        if duplicate.Some? {
          error := Some(DuplicateRegistration);
        } else {
          reconciled := registry.realms;
          RealmReconcile.LookupIsTotal(begunRealms, registry.realms, server, reported.value);
        }
      }
      DuplicateIs(begunRealms, server, reported);
      ErrorIs(begun, begunRealms, reconciled, server, sub, reported, updated);
      if error.None? {
        error := StoreSubmission(server, sub, LinksOf(registry.realms, server, reported), reported.Some? && updated);
      }
      if error.None? {
        PostedAreLinked(begun, reconciled, server, sub, reported, reported.Some? && updated);
      }
      if error.Some? {
        tables, versions := begun, begunVersions;
        registry.realms, registry.audit := begunRealms, begunAudit;
      }
    }

    /** The three validations, in their order. */
    method ValidateAll(server: int, sub: Submission) returns (error: Option<Error>)
      ensures error == Refused(tables, server, sub)
    {
      hide Validated, Mark;
      error := ValidateIncomingTableData(server, RealmCounts, sub.realmCounts);
      if error.None? { error := ValidateIncomingTableData(server, InstallationCounts, sub.installationCounts); }
      if error.None? { error := ValidateIncomingTableData(server, AuditLogs, sub.Of(AuditLogs)); }
    }

    /** do_increment_logging_stat for the bouncer's own counters. */
    method DoIncrementLoggingStat(owner: Owner, counter: Counter, endTime: int, increment: int)
      requires Inv(tables)
      modifies this`tables
      ensures Inv(tables) && tables == IncrementCounter(old(tables), owner, counter, endTime, increment)
    {
      hide TableInv;
      ApplyKeeps(tables, Counted(owner, counter, endTime, increment));
      if increment == 0 {
        return;
      }
      var kind := owner.Home();
      var table := tables.Of(kind);
      var added := CounterRow(owner, counter, endTime, increment);
      var i := HitAt(kind, table, added);
      if i < |table| {
        tables := tables.With(kind, table[i := table[i].(value := table[i].value + increment)]);
      } else {
        tables := tables.With(kind, table + [added]);
      }
    }
  }

  lemma VersionRecorded(versions: map<int, Version>, server: int, v: Version)
    ensures LastVersion(versions[server := v], server) == v
    ensures forall s :: s != server ==> LastVersion(versions[server := v], s) == LastVersion(versions, s)
  {}

  lemma DuplicateIs(realms: RealmReconcile.Realms, server: int, reported: Option<seq<RealmReconcile.Reported>>)
    ensures reported.Some? ==>
              (IsDuplicate(realms, server, reported) <==> RealmReconcile.Duplicate(realms, server, reported.value))
    ensures reported.None? ==> !IsDuplicate(realms, server, reported)
  {}

  /** How the outcome is decided, in the order of the view. */
  lemma ErrorIs(tables: Tables, was: RealmReconcile.Realms, reconciled: RealmReconcile.Realms, server: int,
                sub: Submission, reported: Option<seq<RealmReconcile.Reported>>, newVersion: bool)
    ensures Refused(tables, server, sub).Some? ==>
              ErrorOf(tables, was, reconciled, server, sub, reported, newVersion) == Refused(tables, server, sub)
    ensures Refused(tables, server, sub).None? && IsDuplicate(was, server, reported) ==>
              ErrorOf(tables, was, reconciled, server, sub, reported, newVersion) == Some(DuplicateRegistration)
    ensures Refused(tables, server, sub).None? && !IsDuplicate(was, server, reported) ==>
              match Post(tables, server, sub, LinksOf(reconciled, server, reported), reported.Some? && newVersion)
              case Accepted(next) =>
                && ErrorOf(tables, was, reconciled, server, sub, reported, newVersion) == None
                && RemoteHistory.Apply(tables,
                                       Posted(server, sub, LinksOf(reconciled, server, reported),
                                              reported.Some? && newVersion)) == next
              case Rejected(e) => ErrorOf(tables, was, reconciled, server, sub, reported, newVersion) == Some(e)
  {
    hide Refused, Post, RealmReconcile.Duplicate, LinksOf;
  }

  lemma UniqueOf(tables: Tables)
    requires Inv(tables)
    ensures Unique(RealmCounts, tables.realmCounts)
  {
    assert TableInv(RealmCounts, tables.Of(RealmCounts));
  }
}
