/**
 How the source tables change while statistics are being filled, and why that never
 changes what a query returns for an end time already reached.
 */
module SourceGrowth {
  import opened Options
  import opened Sums
  import opened Times
  import opened CountTables
  import opened Source

  /** Rows are only added; those a query could select by time carry times from horizon on. */
  ghost predicate RowsAdded(src: Source, grown: Source, horizon: int) {
    && (forall u :: u in src.users ==> u in grown.users && grown.users[u] == src.users[u])
    && (forall s :: s in src.streams ==> s in grown.streams && grown.streams[s] == src.streams[s])
    && (forall h :: h in src.huddles ==> h in grown.huddles && grown.huddles[h] == src.huddles[h])
    && (forall r :: r in src.recipients ==> r in grown.recipients && grown.recipients[r] == src.recipients[r])
    && (forall m :: m in src.messages ==> m in grown.messages && grown.messages[m] == src.messages[m])
    && (forall m :: m in grown.messages && m !in src.messages ==> horizon <= grown.messages[m].sent)
    && (forall e :: e in src.audit ==> e in grown.audit && grown.audit[e] == src.audit[e])
    && (forall e :: e in grown.audit && e !in src.audit ==> horizon <= grown.audit[e].time)
  }

  /** An interval may still move, but only its ends from horizon on. */
  predicate MovedBeyond(i: ActivityInterval, j: ActivityInterval, horizon: int) {
    && j.user == i.user
    && (j.start == i.start || (horizon <= i.start && horizon <= j.start))
    && (j.end == i.end || (horizon <= i.end && horizon <= j.end))
  }

  ghost predicate IntervalsMoved(a: map<int, ActivityInterval>, b: map<int, ActivityInterval>, horizon: int) {
    && (forall i :: i in a ==> i in b && MovedBeyond(a[i], b[i], horizon))
    && (forall i :: i in b && i !in a ==> horizon <= b[i].start)
  }

  ghost predicate Grows(src: Source, grown: Source, horizon: int) {
    && ForeignKeys(grown)
    && RowsAdded(src, grown, horizon)
    && IntervalsMoved(src.intervals, grown.intervals, horizon)
  }

  // ------------------------------------------------------------- heartbeats

  /** order_by("-end")[0] among the user's intervals. */
  predicate IsLatestInterval(intervals: map<int, ActivityInterval>, user: int, last: int) {
    && last in intervals && intervals[last].user == user
    && forall i :: i in intervals && intervals[i].user == user ==> intervals[i].end <= intervals[last].end
  }

  /** do_update_user_activity_interval: the latest interval is extended, or a new one made. */
  function Heartbeat(intervals: map<int, ActivityInterval>, user: int, last: Option<int>, newId: int, logTime: int)
    : map<int, ActivityInterval>
    requires last.Some? ==> last.value in intervals
  {
    var effectiveEnd := logTime + MIN_INTERVAL_LENGTH;
    if last.Some? && logTime <= intervals[last.value].end && effectiveEnd >= intervals[last.value].start then
      var i := intervals[last.value];
      intervals[last.value := i.(end := if i.end >= effectiveEnd then i.end else effectiveEnd,
                                 start := if i.start <= logTime then i.start else logTime)]
    else
      intervals[newId := ActivityInterval(user, logTime, effectiveEnd)]
  }

  /** The user counts as active at a time inside one of the user's intervals. */
  ghost predicate ActiveAt(intervals: map<int, ActivityInterval>, u: int, time: int) {
    exists i :: i in intervals && intervals[i].user == u && intervals[i].start <= time <= intervals[i].end
  }

  /** A heartbeat makes its user active for exactly its 15 minutes, besides when the user was before, and
      changes nothing for other users. */
  lemma HeartbeatCovers(intervals: map<int, ActivityInterval>, user: int, last: Option<int>, newId: int, logTime: int,
                        u: int, time: int)
    requires last.Some? ==> last.value in intervals && intervals[last.value].user == user
    requires last.Some? ==> intervals[last.value].start <= intervals[last.value].end
    requires newId !in intervals
    ensures ActiveAt(Heartbeat(intervals, user, last, newId, logTime), u, time)
       <==> ActiveAt(intervals, u, time) || (u == user && logTime <= time <= logTime + MIN_INTERVAL_LENGTH)
  {
    var after := Heartbeat(intervals, user, last, newId, logTime);
    var touched := if newId in after then newId else last.value;
    assert after[touched].user == user && forall i :: i in intervals && i != touched ==> after[i] == intervals[i];
    if ActiveAt(intervals, u, time) {
      var i :| i in intervals && intervals[i].user == u && intervals[i].start <= time <= intervals[i].end;
      assert after[i].start <= time <= after[i].end;
    }
    if u == user && logTime <= time <= logTime + MIN_INTERVAL_LENGTH {
      assert after[touched].start <= time <= after[touched].end;
    }
  }

  ghost predicate LongIntervals(intervals: map<int, ActivityInterval>) {
    forall i :: i in intervals ==> intervals[i].start + MIN_INTERVAL_LENGTH <= intervals[i].end
  }

  /** Heartbeats keep every interval long enough, and from horizon on touch nothing that a
      query for an end time up to horizon can see. */
  lemma HeartbeatMovesBeyond(intervals: map<int, ActivityInterval>, user: int, last: Option<int>, newId: int,
                             logTime: int, horizon: int)
    requires last.Some? ==> IsLatestInterval(intervals, user, last.value)
    requires newId !in intervals
    ensures LongIntervals(intervals) ==> LongIntervals(Heartbeat(intervals, user, last, newId, logTime))
    ensures horizon <= logTime ==> IntervalsMoved(intervals, Heartbeat(intervals, user, last, newId, logTime), horizon)
  {}

  // -------------------------------------------------------------- stability

  lemma LastEventStable(src: Source, grown: Source, horizon: int, u: int, before: int)
    requires RowsAdded(src, grown, horizon) && before <= horizon
    ensures LastEventActive(grown, u, before) <==> LastEventActive(src, u, before)
  {
    forall e | e in src.audit
      ensures IsLastEvent(grown, u, before, e) <==> IsLastEvent(src, u, before, e)
    {
      if IsLastEvent(grown, u, before, e) {
        forall d | IsEvent(src, u, before, d) ensures src.audit[d].time <= src.audit[e].time {
          assert grown.audit[d] == src.audit[d];
          assert IsEvent(grown, u, before, d);
        }
      }
    }
    forall e | e in grown.audit && IsLastEvent(grown, u, before, e) ensures e in src.audit {}
  }

  lemma AuditStable(src: Source, grown: Source, horizon: int, p: string, end: int)
    requires ForeignKeys(src) && Grows(src, grown, horizon) && end <= horizon
    ensures AuditEntries(grown, p, end) == AuditEntries(src, p, end)
  {
    forall u | u in grown.users
      ensures LastEventActive(grown, u, end) <==> (u in src.users && LastEventActive(src, u, end))
    {
      LastEventStable(src, grown, horizon, u, end);
    }
  }

  lemma HumansStable(src: Source, grown: Source, horizon: int, actives: Rows, p: string, end: int)
    requires ForeignKeys(src) && Grows(src, grown, horizon) && end <= horizon
    ensures HumanEntries(grown, actives, p, end) == HumanEntries(src, actives, p, end)
  {
    forall u | u in grown.users
      ensures LastEventActive(grown, u, end) <==> (u in src.users && LastEventActive(src, u, end))
    {
      LastEventStable(src, grown, horizon, u, end);
    }
  }

  /** The messages a query for an end time up to horizon can select. */
  lemma EarlyMessage(src: Source, grown: Source, horizon: int, start: int, end: int, i: int)
    requires ForeignKeys(src) && RowsAdded(src, grown, horizon) && end <= horizon
    ensures i in src.messages ==>
              && i in grown.messages && grown.messages[i] == src.messages[i]
              && src.messages[i].sender in src.users && src.messages[i].recipient in src.recipients
              && src.messages[i].sender in grown.users
                  && grown.users[src.messages[i].sender] == src.users[src.messages[i].sender]
              && src.messages[i].recipient in grown.recipients
              && grown.recipients[src.messages[i].recipient] == src.recipients[src.messages[i].recipient]
    ensures i in grown.messages && SentWithin(grown.messages[i], start, end) ==> i in src.messages
  {}

  lemma MessagesStable(src: Source, grown: Source, horizon: int, p: string, start: int, end: int, grouping: Grouping)
    requires ForeignKeys(src) && Grows(src, grown, horizon) && end <= horizon
    ensures MessageEntries(grown, p, start, end, grouping) == MessageEntries(src, p, start, end, grouping)
  {
    var a, b := MessageEntries(src, p, start, end, grouping), MessageEntries(grown, p, start, end, grouping);
    forall i ensures i in a <==> i in b
             ensures i in a ==> a[i] == b[i]
    {
      EarlyMessage(src, grown, horizon, start, end, i);
    }
  }

  lemma EarlyStreamMessage(src: Source, grown: Source, horizon: int, i: int)
    requires ForeignKeys(src) && RowsAdded(src, grown, horizon)
    requires i in src.messages && src.recipients[src.messages[i].recipient].kind == STREAM
    ensures var s := src.recipients[src.messages[i].recipient].typeId;
            s in src.streams && s in grown.streams && grown.streams[s] == src.streams[s]
  {
    assert KnownRecipient(src, src.recipients[src.messages[i].recipient]);
  }

  lemma StreamEntryStable(src: Source, grown: Source, horizon: int, p: string, start: int, end: int, i: int)
    requires ForeignKeys(src) && RowsAdded(src, grown, horizon) && end <= horizon
    ensures i in StreamEntries(grown, p, start, end) <==> i in StreamEntries(src, p, start, end)
    ensures i in StreamEntries(src, p, start, end) ==>
              StreamEntries(grown, p, start, end)[i] == StreamEntries(src, p, start, end)[i]
  {
    EarlyMessage(src, grown, horizon, start, end, i);
    if i in src.messages && src.recipients[src.messages[i].recipient].kind == STREAM {
      EarlyStreamMessage(src, grown, horizon, i);
    }
  }

  lemma StreamsStable(src: Source, grown: Source, horizon: int, p: string, start: int, end: int)
    requires ForeignKeys(src) && Grows(src, grown, horizon) && end <= horizon
    ensures StreamEntries(grown, p, start, end) == StreamEntries(src, p, start, end)
  {
    var a, b := StreamEntries(src, p, start, end), StreamEntries(grown, p, start, end);
    forall i ensures i in a <==> i in b
             ensures i in a ==> a[i] == b[i]
    {
      StreamEntryStable(src, grown, horizon, p, start, end, i);
    }
  }

  /** A stream or huddle whose id happens to equal the type_id of an older recipient of
      another kind changes the inner grouping but no message's type. */
  lemma TypeStable(src: Source, grown: Source, horizon: int, r: Recipient, g: TypeGroup, h: TypeGroup)
    requires RowsAdded(src, grown, horizon) && KnownRecipient(src, r)
    requires g == TypeGroup(g.realm, g.user, r.kind, LeftJoinStream(src, r.typeId), LeftJoinHuddle(src, r.typeId))
    requires h == TypeGroup(g.realm, g.user, r.kind, LeftJoinStream(grown, r.typeId), LeftJoinHuddle(grown, r.typeId))
    ensures MessageType(g) == MessageType(h)
  {}

  lemma TypeEntryStable(src: Source, grown: Source, horizon: int, p: string, start: int, end: int, i: int)
    requires ForeignKeys(src) && RowsAdded(src, grown, horizon) && end <= horizon
    ensures i in TypeEntries(grown, start, end) <==> i in TypeEntries(src, start, end)
    ensures i in TypeEntries(src, start, end) ==>
              && TypeEntries(grown, start, end)[i].value == TypeEntries(src, start, end)[i].value
              && TypeKey(p, end)(TypeEntries(grown, start, end)[i].group)
                  == TypeKey(p, end)(TypeEntries(src, start, end)[i].group)
  {
    EarlyMessage(src, grown, horizon, start, end, i);
    if i in TypeEntries(src, start, end) {
      var r := src.recipients[src.messages[i].recipient];
      assert KnownRecipient(src, r);
      TypeStable(src, grown, horizon, r, TypeEntries(src, start, end)[i].group,
                 TypeEntries(grown, start, end)[i].group);
    }
  }

  lemma SameRetag<K, G, H>(a: map<K, Entry<G>>, b: map<K, Entry<G>>, h: G -> H)
    requires a.Keys == b.Keys
    requires forall k :: k in a ==> a[k].value == b[k].value && h(a[k].group) == h(b[k].group)
    ensures Retag(a, h) == Retag(b, h)
  {}

  lemma TypesStable(src: Source, grown: Source, horizon: int, p: string, start: int, end: int)
    requires ForeignKeys(src) && Grows(src, grown, horizon) && end <= horizon
    ensures Roll(GroupBy(TypeEntries(grown, start, end)), TypeKey(p, end))
         == Roll(GroupBy(TypeEntries(src, start, end)), TypeKey(p, end))
  {
    var a, b := TypeEntries(src, start, end), TypeEntries(grown, start, end);
    var h := TypeKey(p, end);
    forall i ensures i in a <==> i in b
             ensures i in a ==> a[i].value == b[i].value && h(a[i].group) == h(b[i].group)
    {
      TypeEntryStable(src, grown, horizon, p, start, end, i);
    }
    SameRetag(a, b, h);
    RollGroupBy(a, h);
    RollGroupBy(b, h);
  }

  lemma ActiveStable(src: Source, grown: Source, horizon: int, p: string, start: int, end: int, i: int)
    requires ForeignKeys(src) && Grows(src, grown, horizon) && start <= end <= horizon
    ensures ActiveIn(grown, i, start, end) <==> ActiveIn(src, i, start, end)
    ensures ActiveIn(src, i, start, end) ==> IntervalKey(grown, p, end, i) == IntervalKey(src, p, end, i)
  {
    if i in src.intervals {
      assert MovedBeyond(src.intervals[i], grown.intervals[i], horizon);
    }
  }

  lemma ActivesStable(src: Source, grown: Source, horizon: int, p: string, start: int, end: int)
    requires ForeignKeys(src) && Grows(src, grown, horizon) && start <= end <= horizon
    ensures ActiveRows(grown, p, start, end) == ActiveRows(src, p, start, end)
  {
    forall i ensures ActiveIn(grown, i, start, end) <==> ActiveIn(src, i, start, end)
             ensures ActiveIn(src, i, start, end) ==> IntervalKey(grown, p, end, i) == IntervalKey(src, p, end, i)
    {
      ActiveStable(src, grown, horizon, p, start, end, i);
    }
  }

  lemma ClipStable(i: ActivityInterval, j: ActivityInterval, horizon: int, start: int, end: int)
    requires MovedBeyond(i, j, horizon) && start < end <= horizon
    ensures Clips(j, start, end) <==> Clips(i, start, end)
    ensures Clips(i, start, end) ==> Clipped(j, start, end) == Clipped(i, start, end)
  {}

  lemma ClipEntryStable(src: Source, grown: Source, horizon: int, p: string, start: int, end: int, i: int)
    requires ForeignKeys(src) && Grows(src, grown, horizon) && start < end <= horizon
    ensures i in ClipEntries(grown, p, start, end) <==> i in ClipEntries(src, p, start, end)
    ensures i in ClipEntries(src, p, start, end) ==>
              ClipEntries(grown, p, start, end)[i] == ClipEntries(src, p, start, end)[i]
  {
    if i in src.intervals {
      assert MovedBeyond(src.intervals[i], grown.intervals[i], horizon);
      ClipStable(src.intervals[i], grown.intervals[i], horizon, start, end);
    }
  }

  lemma ClipsStable(src: Source, grown: Source, horizon: int, p: string, start: int, end: int)
    requires ForeignKeys(src) && Grows(src, grown, horizon) && start < end <= horizon
    ensures ClipEntries(grown, p, start, end) == ClipEntries(src, p, start, end)
  {
    var a, b := ClipEntries(src, p, start, end), ClipEntries(grown, p, start, end);
    forall i ensures i in a <==> i in b
             ensures i in a ==> a[i] == b[i]
    {
      ClipEntryStable(src, grown, horizon, p, start, end, i);
    }
  }

  /** What any query returns for an end time up to horizon does not depend on when it runs. */
  lemma PullStable(q: Query, src: Source, grown: Source, horizon: int, actives: Rows, p: string, start: int, end: int)
    requires ForeignKeys(src) && Grows(src, grown, horizon) && start < end <= horizon
    ensures Pull(q, grown, actives, p, start, end) == Pull(q, src, actives, p, start, end)
  {
    hide MessageEntries, TypeEntries, StreamEntries, AuditEntries, HumanEntries, ActiveRows, ClipEntries, GroupBy,
         Roll, Grows, ForeignKeys, WholeMinutes;
    match q
    case CountMessages(grouping) => MessagesStable(src, grown, horizon, p, start, end, grouping);
    case CountMessageTypes => TypesStable(src, grown, horizon, p, start, end);
    case CountStreamMessages => StreamsStable(src, grown, horizon, p, start, end);
    case CountActiveUsers => AuditStable(src, grown, horizon, p, end);
    case ListActives => ActivesStable(src, grown, horizon, p, start, end);
    case SumMinutes => ClipsStable(src, grown, horizon, p, start, end);
    case CountActiveHumans => HumansStable(src, grown, horizon, actives, p, end);
  }
}
