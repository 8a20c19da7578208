/**
 Submitting a remote server's counts and audit logs to the bouncer: the reported mark,
 validation, linking, insertion; and the bouncer's own counters in the same tables.
 */
module RemoteSync {
  import opened Options
  import opened RemoteTables
  import Stats

  datatype Tables = Tables(realmCounts: Rows, installationCounts: Rows, auditLogs: Rows)
  {
    function Of(kind: Kind): Rows {
      match kind
      case RealmCounts => realmCounts
      case InstallationCounts => installationCounts
      case AuditLogs => auditLogs
    }

    function With(kind: Kind, rows: Rows): Tables {
      match kind
      case RealmCounts => this.(realmCounts := rows)
      case InstallationCounts => this.(installationCounts := rows)
      case AuditLogs => this.(auditLogs := rows)
    }
  }

  /** A row as the remote server sends it; malformed: an audit entry's extra data does not parse. */
  datatype ClientRow = ClientRow(
    id: int, realm: Option<int>, tag: Tag, subgroup: Option<string>, time: int, value: int, malformed: bool)

  /** One submission; the server may leave out the audit logs. */
  datatype Submission = Submission(realmCounts: seq<ClientRow>, installationCounts: seq<ClientRow>,
                                   auditLogs: Option<seq<ClientRow>>)
  {
    function Of(kind: Kind): seq<ClientRow> {
      match kind
      case RealmCounts => realmCounts
      case InstallationCounts => installationCounts
      case AuditLogs => if auditLogs.Some? then auditLogs.value else []
    }
  }

  datatype Error =
    | InvalidProperty(tag: Tag)
    | InvalidEventType
    | OutOfOrder
    | MalformedAuditLog
    | DuplicateRegistration
    | IntegrityError

  // ---------------------------------------------------------------- properties

  predicate InCountStats(name: string) {
    name == "upload_quota_used_bytes::day"
    || exists i :: 0 <= i < |Stats.DeclaredStats()| && Stats.DeclaredStats()[i].property == name
  }

  /** BOUNCER_ONLY_REMOTE_COUNT_STAT_PROPERTIES. */
  datatype Counter = Received | Forwarded
  {
    function Name(): string {
      match this
      case Received => "mobile_pushes_received::day"
      case Forwarded => "mobile_pushes_forwarded::day"
    }
  }

  predicate BouncerOnly(tag: Tag) {
    tag == Property(Received.Name()) || tag == Property(Forwarded.Name())
  }

  /** LOGGING_COUNT_STAT_PROPERTIES_NOT_SENT_TO_BOUNCER. */
  predicate NotSent(tag: Tag) {
    || tag == Property("invites_sent::day")
    || tag == Property("mobile_pushes_sent::day")
    || tag == Property("active_users_log:is_bot:day")
    || tag == Property("active_users:is_bot:day")
  }

  /** RemoteRealmAuditLog.SYNCED_BILLING_EVENTS. */
  predicate SyncedEvent(tag: Tag) {
    tag.EventType? && tag.code in {101, 102, 103, 104, 105, 201, 202, 229, 725}
  }

  lemma BouncerOnlyIsSent(tag: Tag)
    requires BouncerOnly(tag)
    ensures !NotSent(tag)
  {
    assert Received.Name()[0] == 'm' && "active_users_log:is_bot:day"[0] == 'a';
    assert |Received.Name()| == 27 && |Forwarded.Name()| == 28;
    assert |"invites_sent::day"| == 17 && |"mobile_pushes_sent::day"| == 23 && |"active_users:is_bot:day"| == 23;
  }

  // ---------------------------------------------------------------- validation

  function LastRemoteId(table: Rows, server: int): Option<int>
    decreases |table|
  {
    if table == [] then None
    else
      var earlier := LastRemoteId(table[..|table| - 1], server);
      var row := table[|table| - 1];
      if row.server != server || row.remoteId.None? then earlier
      else if earlier.Some? && row.remoteId.value <= earlier.value then earlier
      else row.remoteId
  }

  /** get_last_id_from_server. */
  function Mark(table: Rows, server: int): int {
    var last := LastRemoteId(table, server);
    if last.Some? then last.value else 0
  }

  predicate FromServer(row: Row, server: int, id: int) {
    row.server == server && row.remoteId == Some(id)
  }

  /** The mark is the greatest id of the server's rows: the rows the bouncer itself manages do not count. */
  lemma {:induction false} LastRemoteIdIsGreatest(table: Rows, server: int)
    ensures LastRemoteId(table, server).Some? ==>
              exists row :: row in table && FromServer(row, server, LastRemoteId(table, server).value)
    ensures forall row, id :: row in table && FromServer(row, server, id) ==>
              LastRemoteId(table, server).Some? && id <= LastRemoteId(table, server).value
    decreases |table|
  {
    if table != [] {
      var front, row := table[..|table| - 1], table[|table| - 1];
      LastRemoteIdIsGreatest(front, server);
      if LastRemoteId(front, server).Some? {
        var r :| r in front && FromServer(r, server, LastRemoteId(front, server).value);
        assert r in table;
      }
      if row.server == server && row.remoteId.Some? { assert FromServer(row, server, row.remoteId.value); }
    }
  }

  /** What validate_incoming_table_data has against a row, given the id before it. */
  function Fault(kind: Kind, row: ClientRow, lastId: int): Option<Error> {
    if kind != AuditLogs && (row.tag.EventType? || !InCountStats(row.tag.name) || BouncerOnly(row.tag))
        && !NotSent(row.tag)
    then Some(InvalidProperty(row.tag))
    else if kind == AuditLogs && !SyncedEvent(row.tag) then Some(InvalidEventType)
    else if row.id <= lastId then Some(OutOfOrder)
    else None
  }

  /** The fault of the first faulty row. */
  function Validated(kind: Kind, rows: seq<ClientRow>, lastId: int): Option<Error>
    decreases |rows|
  {
    if rows == [] then None
    else
      var fault := Fault(kind, rows[0], lastId);
      if fault.Some? then fault else Validated(kind, rows[1..], rows[0].id)
  }

  /** A count's property is one the bouncer skips, or one of COUNT_STATS that is not its own; an audit entry's
      event type is one of those synced. */
  predicate Acceptable(kind: Kind, tag: Tag) {
    match kind
    case AuditLogs => SyncedEvent(tag)
    case _ =>
      || NotSent(tag)
      || (tag.Property? && InCountStats(tag.name)
          && tag.name != "mobile_pushes_received::day" && tag.name != "mobile_pushes_forwarded::day")
  }

  /** Every row acceptable, and the ids strictly increasing from above lastId. */
  ghost predicate InOrder(kind: Kind, rows: seq<ClientRow>, lastId: int) {
    && (forall i :: 0 <= i < |rows| ==> lastId < rows[i].id && Acceptable(kind, rows[i].tag))
    && (forall i, j :: 0 <= i < j < |rows| ==> rows[i].id < rows[j].id)
  }

  lemma FaultIs(kind: Kind, row: ClientRow, lastId: int)
    ensures Fault(kind, row, lastId).None? <==> Acceptable(kind, row.tag) && lastId < row.id
  {
    hide InCountStats, NotSent, SyncedEvent;
  }

  lemma InOrderStep(kind: Kind, rows: seq<ClientRow>, lastId: int)
    requires rows != []
    ensures InOrder(kind, rows, lastId) <==>
              Acceptable(kind, rows[0].tag) && lastId < rows[0].id && InOrder(kind, rows[1..], rows[0].id)
  {
    hide Acceptable;
    var rest := rows[1..];
    if lastId < rows[0].id && InOrder(kind, rest, rows[0].id) {
      forall i | 0 < i < |rows| ensures rows[0].id < rows[i].id && Acceptable(kind, rows[i].tag) {
        assert rows[i] == rest[i - 1];
      }
      forall i, j | 0 <= i < j < |rows| ensures rows[i].id < rows[j].id {
        if i > 0 { assert rows[i] == rest[i - 1] && rows[j] == rest[j - 1]; }
      }
    }
    if InOrder(kind, rows, lastId) {
      forall i | 0 <= i < |rest| ensures rows[0].id < rest[i].id && Acceptable(kind, rest[i].tag) {
        assert rest[i] == rows[i + 1];
      }
    }
  }

  /** Accepted exactly if every row's property or event type is acceptable and the ids increase
      strictly, starting above the mark. */
  lemma {:induction false} ValidatedMeans(kind: Kind, rows: seq<ClientRow>, lastId: int)
    ensures Validated(kind, rows, lastId).None? <==> InOrder(kind, rows, lastId)
    decreases |rows|
  {
    hide Fault, Acceptable;
    if rows != [] {
      hide InOrder;
      InOrderStep(kind, rows, lastId);
      FaultIs(kind, rows[0], lastId);
      ValidatedMeans(kind, rows[1..], rows[0].id);
    }
  }

  // ------------------------------------------------------------------- linking

  /** realm_id_to_remote_realm. */
  type Links = map<int, int>

  function Link(row: Row, server: int, links: Links): Row {
    if row.server == server && row.remoteRealm.None? && row.realmId.Some? && row.realmId.value in links
    then row.(remoteRealm := Some(links[row.realmId.value]))
    else row
  }

  function Linked(table: Rows, server: int, links: Links): Rows {
    seq(|table|, i requires 0 <= i < |table| => Link(table[i], server, links))
  }

  /** fix_remote_realm_foreign_keys: None is an IntegrityError. */
  ghost function Fixed(tables: Tables, server: int, links: Links): Option<Tables> {
    var counts := Linked(tables.realmCounts, server, links);
    if Unique(RealmCounts, counts)
    then Some(tables.(realmCounts := counts, auditLogs := Linked(tables.auditLogs, server, links)))
    else None
  }

  /** After a fix, every row of the server whose realm id was reported is linked, to the reported realm
      if it was not linked before; no row changes otherwise. */
  lemma FixedMeans(tables: Tables, server: int, links: Links, kind: Kind, i: nat)
    requires kind != InstallationCounts && Fixed(tables, server, links).Some? && i < |tables.Of(kind)|
    ensures |Fixed(tables, server, links).value.Of(kind)| == |tables.Of(kind)|
    ensures var was, now := tables.Of(kind)[i], Fixed(tables, server, links).value.Of(kind)[i];
            && now == was.(remoteRealm := now.remoteRealm)
            && (was.remoteRealm.Some? ==> now == was)
            && (was.server == server && was.realmId.Some? && was.realmId.value in links ==>
                  now.remoteRealm == if was.remoteRealm.Some? then was.remoteRealm else Some(links[was.realmId.value]))
            && (was.server != server || was.realmId.None? || was.realmId.value !in links ==> now == was)
    ensures Fixed(tables, server, links).value.installationCounts == tables.installationCounts
  {
    hide Unique;
  }

  /** The remote realm of a row once the server's keys are fixed. */
  function RealmAfter(row: Row, server: int, links: Links): Option<int> {
    if row.remoteRealm.Some? then row.remoteRealm
    else if row.server == server && row.realmId.Some? && row.realmId.value in links then Some(links[row.realmId.value])
    else None
  }

  /** Two rows of one count that a fix would put under one remote realm. */
  predicate Clash(a: Row, b: Row, server: int, links: Links) {
    && a.tag == b.tag && a.subgroup == b.subgroup && a.time == b.time
    && RealmAfter(a, server, links).Some? && RealmAfter(a, server, links) == RealmAfter(b, server, links)
  }

  /** The fix is an IntegrityError exactly if it would put two rows of one count under one remote realm. */
  lemma FixFails(tables: Tables, server: int, links: Links)
    requires Unique(RealmCounts, tables.realmCounts)
    ensures Fixed(tables, server, links).None? <==>
              exists i, j :: 0 <= i < j < |tables.realmCounts|
                && Clash(tables.realmCounts[i], tables.realmCounts[j], server, links)
  {
    hide Clash;
    var was, now := tables.realmCounts, Linked(tables.realmCounts, server, links);
    forall i, j | 0 <= i < j < |was|
      ensures Conflict(RealmCounts, now[i], now[j]) <==> Clash(was[i], was[j], server, links)
    {
      assert !Conflict(RealmCounts, was[i], was[j]);
      ClashIs(was[i], was[j], server, links);
    }
  }

  lemma ClashIs(a: Row, b: Row, server: int, links: Links)
    requires !Conflict(RealmCounts, a, b)
    ensures Conflict(RealmCounts, Link(a, server, links), Link(b, server, links)) <==> Clash(a, b, server, links)
  {}

  // ----------------------------------------------------------------- insertion

  /** The row stored for a client row; dictionary.get gives None for an unknown realm. */
  function ToRow(kind: Kind, server: int, links: Links, c: ClientRow): Row {
    var realm := if kind == InstallationCounts then None else c.realm;
    Row(server, realm, if realm.Some? && realm.value in links then Some(links[realm.value]) else None,
        c.tag, if kind == AuditLogs then None else c.subgroup, c.time, Some(c.id), c.value)
  }

  /** Counts that are never sent to the bouncer are skipped by name. */
  predicate Skipped(kind: Kind, c: ClientRow) {
    kind != AuditLogs && NotSent(c.tag)
  }

  function ToRows(kind: Kind, server: int, links: Links, rows: seq<ClientRow>): Rows
    decreases |rows|
  {
    if rows == [] then []
    else
      var front := ToRows(kind, server, links, rows[..|rows| - 1]);
      if Skipped(kind, rows[|rows| - 1]) then front else front + [ToRow(kind, server, links, rows[|rows| - 1])]
  }

  function Synced(kind: Kind, table: Rows, server: int, links: Links, rows: seq<ClientRow>): Rows {
    InsertIgnoring(kind, table, ToRows(kind, server, links, rows))
  }

  predicate Malformed(sub: Submission) {
    exists i :: 0 <= i < |sub.Of(AuditLogs)| && sub.Of(AuditLogs)[i].malformed
  }

  /** The fault validation reports for a submission, table by table. */
  function Refused(tables: Tables, server: int, sub: Submission): Option<Error> {
    var a := Validated(RealmCounts, sub.realmCounts, Mark(tables.realmCounts, server));
    var b := Validated(InstallationCounts, sub.installationCounts, Mark(tables.installationCounts, server));
    if a.Some? then a else if b.Some? then b
        else Validated(AuditLogs, sub.Of(AuditLogs), Mark(tables.auditLogs, server))
  }

  datatype Outcome = Accepted(tables: Tables) | Rejected(error: Error)

  function SyncAll(tables: Tables, server: int, sub: Submission, links: Links): Tables {
    Tables(Synced(RealmCounts, tables.realmCounts, server, links, sub.realmCounts),
           Synced(InstallationCounts, tables.installationCounts, server, links, sub.installationCounts),
           Synced(AuditLogs, tables.auditLogs, server, links, sub.Of(AuditLogs)))
  }

  /** The table part of remote_server_post_analytics; fix: the server's version has changed and it
      reported its realms. */
  ghost function Post(tables: Tables, server: int, sub: Submission, links: Links, fix: bool): Outcome {
    var refused := Refused(tables, server, sub);
    var fixed := if fix then Fixed(tables, server, links) else Some(tables);
    if refused.Some? then Rejected(refused.value)
    else if fixed.None? then Rejected(IntegrityError)
    else if Malformed(sub) then Rejected(MalformedAuditLog)
    else Accepted(SyncAll(fixed.value, server, sub, links))
  }

  // ------------------------------------------------------------------ counters

  /** Whose pushes a counter counts: a whole server's, or one remote realm's of a server. */
  datatype Owner = OfServer(server: int) | OfRemoteRealm(server: int, remoteRealm: int)
  {
    function Home(): Kind {
      if OfServer? then InstallationCounts else RealmCounts
    }
  }

  function CounterRow(owner: Owner, counter: Counter, endTime: int, increment: int): Row {
    Row(owner.server, None, if owner.OfServer? then None else Some(owner.remoteRealm), Property(counter.Name()), None,
        endTime, None, increment)
  }

  /** The columns of the ON CONFLICT clause: server_id or remote_realm_id, property, end_time. */
  predicate Hits(kind: Kind, row: Row, added: Row) {
    && SameCount(row, added)
    && if kind == RealmCounts then SameNonNull(row.remoteRealm, added.remoteRealm) else row.server == added.server
  }

  /** The row an increment conflicts with, or the length of the table. */
  function HitAt(kind: Kind, table: Rows, added: Row): (i: nat)
    ensures i <= |table| && (i < |table| ==> Hits(kind, table[i], added))
    ensures forall j :: 0 <= j < i ==> !Hits(kind, table[j], added)
    decreases |table|
  {
    if table == [] || Hits(kind, table[0], added) then 0 else 1 + HitAt(kind, table[1..], added)
  }

  /** INSERT ... ON CONFLICT DO UPDATE SET value = value + EXCLUDED.value. */
  function AddTo(kind: Kind, table: Rows, added: Row): Rows {
    var i := HitAt(kind, table, added);
    if i < |table| then table[i := table[i].(value := table[i].value + added.value)] else table + [added]
  }

  /** do_increment_logging_stat for a bouncer-only statistic. */
  function IncrementCounter(tables: Tables, owner: Owner, counter: Counter, endTime: int, increment: int): Tables {
    if increment == 0 then tables
    else tables.With(owner.Home(),
                     AddTo(owner.Home(), tables.Of(owner.Home()), CounterRow(owner, counter, endTime, increment)))
  }
}
