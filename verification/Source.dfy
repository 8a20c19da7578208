/**
 The tables the statistics are computed from, and each pull query as a relational
 specification: which rows a query selects and how it groups them.
 */
module Source {
  import opened Options
  import opened Sums
  import opened Times
  import opened CountTables

  datatype User = User(realm: int, isBot: bool, joined: int)
  datatype Stream = Stream(realm: int, created: int, inviteOnly: bool)
  datatype Message = Message(sender: int, recipient: int, client: int, sent: int)

  const PERSONAL := 1
  const STREAM := 2
  const HUDDLE := 3

  /** typeId is an id of users, streams or huddles depending on kind. */
  datatype Recipient = Recipient(kind: int, typeId: int)
  datatype Huddle = Huddle(groupSize: int)

  datatype AuditKind = UserCreated | UserActivated | UserDeactivated | UserReactivated | Unrelated
  datatype AuditEvent = AuditEvent(user: int, kind: AuditKind, time: int)

  datatype ActivityInterval = ActivityInterval(user: int, start: int, end: int)

  datatype Source = Source(
    users: map<int, User>, streams: map<int, Stream>, huddles: map<int, Huddle>,
    recipients: map<int, Recipient>, messages: map<int, Message>,
    audit: map<int, AuditEvent>, intervals: map<int, ActivityInterval>)

  /** The foreign keys of the source tables. */
  ghost predicate ForeignKeys(src: Source) {
    && (forall m :: m in src.messages ==>
        src.messages[m].sender in src.users && src.messages[m].recipient in src.recipients)
    && (forall r :: r in src.recipients ==> KnownRecipient(src, src.recipients[r]))
    && (forall e :: e in src.audit && src.audit[e].kind != Unrelated ==> src.audit[e].user in src.users)
    && (forall i :: i in src.intervals ==> src.intervals[i].user in src.users)
  }

  predicate KnownRecipient(src: Source, r: Recipient) {
    || r.kind == PERSONAL
    || (r.kind == STREAM && r.typeId in src.streams)
    || (r.kind == HUDDLE && r.typeId in src.huddles)
  }

  /** The realm recorded in a bucket is the realm of its user or stream. */
  predicate KnownBucket(src: Source, b: Bucket) {
    match b
    case OfUser(r, u) => u in src.users && src.users[u].realm == r
    case OfStream(r, s) => s in src.streams && src.streams[s].realm == r
    case _ => true
  }

  // ---------------------------------------------------------------- messages

  datatype Grouping = BySenderIsBot | ByClient

  function MessageLabel(src: Source, m: Message, grouping: Grouping): Label
    requires m.sender in src.users
  {
    match grouping
    case BySenderIsBot => BoolLabel(src.users[m.sender].isBot)
    case ByClient => IdLabel(m.client)
  }

  predicate SentWithin(m: Message, start: int, end: int) {
    start <= m.sent < end
  }

  /** The JOIN and WHERE of count_message_by_user_query. */
  predicate CountedByUser(src: Source, i: int, start: int, end: int) {
    && i in src.messages
    && src.messages[i].sender in src.users
    && src.users[src.messages[i].sender].joined < end
    && SentWithin(src.messages[i], start, end)
  }

  function SenderBucket(src: Source, i: int): Bucket
    requires i in src.messages && src.messages[i].sender in src.users
  {
    OfUser(src.users[src.messages[i].sender].realm, src.messages[i].sender)
  }

  function MessageEntries(src: Source, p: string, start: int, end: int, grouping: Grouping): map<int, Entry<RowKey>> {
    map i | i in src.messages && CountedByUser(src, i, start, end) ::
      Entry(RowKey(SenderBucket(src, i), p, Some(MessageLabel(src, src.messages[i], grouping)), end), 1)
  }

  /** The columns of the inner GROUP BY of count_message_type_by_user_query. */
  datatype TypeGroup = TypeGroup(realm: int, user: int, kind: int, inviteOnly: Option<bool>, groupSize: Option<int>)

  /** LEFT JOIN ON recipient.type_id = id, whatever the kind of the recipient. */
  function LeftJoinStream(src: Source, typeId: int): Option<bool> {
    if typeId in src.streams then Some(src.streams[typeId].inviteOnly) else None
  }

  function LeftJoinHuddle(src: Source, typeId: int): Option<int> {
    if typeId in src.huddles then Some(src.huddles[typeId].groupSize) else None
  }

  predicate CountedByType(src: Source, i: int, start: int, end: int) {
    && i in src.messages
    && src.messages[i].sender in src.users
    && src.messages[i].recipient in src.recipients
    && SentWithin(src.messages[i], start, end)
  }

  function TypeGroupOf(src: Source, i: int): TypeGroup
    requires i in src.messages && src.messages[i].sender in src.users && src.messages[i].recipient in src.recipients
  {
    var r := src.recipients[src.messages[i].recipient];
    TypeGroup(src.users[src.messages[i].sender].realm, src.messages[i].sender, r.kind,
              LeftJoinStream(src, r.typeId), LeftJoinHuddle(src, r.typeId))
  }

  function TypeEntries(src: Source, start: int, end: int): map<int, Entry<TypeGroup>> {
    map i | i in src.messages && CountedByType(src, i, start, end) :: Entry(TypeGroupOf(src, i), 1)
  }

  /** The CASE expression; a comparison with NULL is not true. */
  function MessageType(g: TypeGroup): string {
    if g.kind == PERSONAL || (g.kind == HUDDLE && g.groupSize.Some? && g.groupSize.value <= 2) then "private_message"
    else if g.kind == HUDDLE && g.groupSize.Some? && g.groupSize.value > 2 then "huddle_message"
    else if g.inviteOnly == Some(true) then "private_stream"
    else "public_stream"
  }

  function TypeKey(p: string, end: int): TypeGroup -> RowKey {
    (g: TypeGroup) => RowKey(OfUser(g.realm, g.user), p, Some(TextLabel(MessageType(g))), end)
  }

  /** The JOINs and WHERE of count_message_by_stream_query. */
  predicate CountedByStream(src: Source, i: int, start: int, end: int) {
    && CountedByType(src, i, start, end)
    && src.recipients[src.messages[i].recipient].kind == STREAM
    && src.recipients[src.messages[i].recipient].typeId in src.streams
    && src.streams[src.recipients[src.messages[i].recipient].typeId].created < end
  }

  function StreamKey(src: Source, p: string, start: int, end: int, i: int): RowKey
    requires CountedByStream(src, i, start, end)
  {
    var s := src.recipients[src.messages[i].recipient].typeId;
    RowKey(OfStream(src.streams[s].realm, s), p, Some(BoolLabel(src.users[src.messages[i].sender].isBot)), end)
  }

  /** Grouped by stream and the sender's is_bot. */
  function StreamEntries(src: Source, p: string, start: int, end: int): map<int, Entry<RowKey>> {
    map i | i in src.messages && CountedByStream(src, i, start, end) :: Entry(StreamKey(src, p, start, end, i), 1)
  }

  // --------------------------------------------------------------- audit log

  predicate IsEvent(src: Source, u: int, before: int, e: int) {
    e in src.audit && src.audit[e].user == u && src.audit[e].kind != Unrelated && src.audit[e].time < before
  }

  /** The row that DISTINCT ON (modified_user_id) ... ORDER BY event_time DESC keeps. */
  predicate IsLastEvent(src: Source, u: int, before: int, e: int) {
    && IsEvent(src, u, before, e)
    && forall d :: d in src.audit && IsEvent(src, u, before, d) ==> src.audit[d].time <= src.audit[e].time
  }

  predicate LastEventActive(src: Source, u: int, before: int) {
    exists e :: e in src.audit && IsLastEvent(src, u, before, e) && src.audit[e].kind != UserDeactivated
  }

  /** check_realmauditlog_by_user_query, grouped by is_bot. */
  function AuditEntries(src: Source, p: string, end: int): map<int, Entry<RowKey>> {
    map u | u in src.users && LastEventActive(src, u, end) ::
      Entry(RowKey(OfRealm(src.users[u].realm), p, Some(BoolLabel(src.users[u].isBot)), end), 1)
  }

  /** The JOINs and WHERE of count_realm_active_humans_query for one UserCount row. */
  predicate CountedHuman(src: Source, b: Bucket, end: int) {
    && b.OfUser?
    && b.user in src.users
    && src.users[b.user].realm == b.realm
    && !src.users[b.user].isBot
    && LastEventActive(src, b.user, end)
  }

  /** actives: the UserCount rows of 15day_actives with this end time. */
  function HumanEntries(src: Source, actives: Rows, p: string, end: int): map<RowKey, Entry<RowKey>> {
    map k | k in actives && CountedHuman(src, k.bucket, end) :: Entry(RowKey(OfRealm(k.bucket.realm), p, None, end), 1)
  }

  // ------------------------------------------------------ activity intervals

  predicate Overlaps(i: ActivityInterval, start: int, end: int) {
    i.end >= start && i.start < end
  }

  function IntervalKey(src: Source, p: string, end: int, i: int): RowKey
    requires i in src.intervals && src.intervals[i].user in src.users
  {
    RowKey(OfUser(src.users[src.intervals[i].user].realm, src.intervals[i].user), p, None, end)
  }

  predicate ActiveIn(src: Source, i: int, start: int, end: int) {
    i in src.intervals && src.intervals[i].user in src.users && Overlaps(src.intervals[i], start, end)
  }

  function ActiveKeys(src: Source, p: string, start: int, end: int): set<RowKey> {
    set i | i in src.intervals && ActiveIn(src, i, start, end) :: IntervalKey(src, p, end, i)
  }

  /** check_useractivityinterval_by_user_query: one row with value 1 for each user. */
  function ActiveRows(src: Source, p: string, start: int, end: int): Rows {
    map k | k in ActiveKeys(src, p, start, end) :: 1
  }

  /** The filter of do_pull_minutes_active. */
  predicate Clips(i: ActivityInterval, start: int, end: int) {
    i.end > start && i.start < end
  }

  /** The part of an interval inside the window. */
  function Clipped(i: ActivityInterval, start: int, end: int): int {
    (if end <= i.end then end else i.end) - (if start >= i.start then start else i.start)
  }

  predicate ClipsIn(src: Source, i: int, start: int, end: int) {
    i in src.intervals && src.intervals[i].user in src.users && Clips(src.intervals[i], start, end)
  }

  /** do_pull_minutes_active: what each interval adds to seconds_active. */
  function ClipEntries(src: Source, p: string, start: int, end: int): map<int, Entry<RowKey>> {
    map i | i in src.intervals && ClipsIn(src, i, start, end) ::
      Entry(IntervalKey(src, p, end, i), Clipped(src.intervals[i], start, end))
  }

  /** Whole minutes of every user with at least one. */
  function WholeMinutes(active: Rows): Rows {
    map k | k in active && active[k] >= MINUTE :: active[k] / MINUTE
  }

  // ----------------------------------------------------------------- queries

  datatype Query =
    | CountMessages(grouping: Grouping)
    | CountMessageTypes
    | CountStreamMessages
    | CountActiveUsers
    | ListActives
    | SumMinutes
    | CountActiveHumans

  /** The rows a pull function inserts; actives are the UserCount rows of 15day_actives
      with the same end time. */
  ghost function Pull(q: Query, src: Source, actives: Rows, p: string, start: int, end: int): Rows {
    match q
    case CountMessages(grouping) => GroupBy(MessageEntries(src, p, start, end, grouping))
    case CountMessageTypes => Roll(GroupBy(TypeEntries(src, start, end)), TypeKey(p, end))
    case CountStreamMessages => GroupBy(StreamEntries(src, p, start, end))
    case CountActiveUsers => GroupBy(AuditEntries(src, p, end))
    case ListActives => ActiveRows(src, p, start, end)
    case SumMinutes => WholeMinutes(GroupBy(ClipEntries(src, p, start, end)))
    case CountActiveHumans => GroupBy(HumanEntries(src, actives, p, end))
  }

  function OutputOf(q: Query): Table {
    match q
    case CountStreamMessages => StreamCount
    case CountActiveUsers => RealmCount
    case CountActiveHumans => RealmCount
    case _ => UserCount
  }

  ghost predicate Shaped(rows: Rows, src: Source, table: Table, p: string, t: int) {
    && InSlot(rows, p, t)
    && InTable(rows, table)
    && forall k :: k in rows ==> KnownBucket(src, k.bucket)
  }

  lemma GroupByShaped<K>(m: map<K, Entry<RowKey>>, src: Source, table: Table, p: string, t: int)
    requires forall k :: k in m ==>
      m[k].group.property == p && m[k].group.endTime == t && m[k].group.bucket.Home() == table
          && KnownBucket(src, m[k].group.bucket)
    ensures Shaped(GroupBy(m), src, table, p, t)
  {}

  /** Every row a query inserts belongs to its own statistic, end time and table. */
  lemma PullShaped(q: Query, src: Source, actives: Rows, p: string, start: int, end: int)
    ensures Shaped(Pull(q, src, actives, p, start, end), src, OutputOf(q), p, end)
  {
    match q
    case CountMessages(grouping) => GroupByShaped(MessageEntries(src, p, start, end, grouping), src, UserCount, p, end);
    case CountMessageTypes =>
      var e := TypeEntries(src, start, end);
      RollGroupBy(e, TypeKey(p, end));
      GroupByShaped(Retag(e, TypeKey(p, end)), src, UserCount, p, end);
    case CountStreamMessages => GroupByShaped(StreamEntries(src, p, start, end), src, StreamCount, p, end);
    case CountActiveUsers => GroupByShaped(AuditEntries(src, p, end), src, RealmCount, p, end);
    case ListActives =>
    case SumMinutes => GroupByShaped(ClipEntries(src, p, start, end), src, UserCount, p, end);
    case CountActiveHumans => GroupByShaped(HumanEntries(src, actives, p, end), src, RealmCount, p, end);
  }
}
