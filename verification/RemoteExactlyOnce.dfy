/**
 Replication by high-water mark: no row is lost silently, none is stored twice.
 */
module RemoteExactlyOnce {
  import opened Options
  import opened RemoteTables
  import opened RemoteSync
  import opened RemoteHistory

  // ------------------------------------------------------------------- the mark

  lemma EvolvesMark(kind: Kind, was: Rows, now: Rows, server: int)
    requires Evolves(kind, was, now) && TableInv(kind, now)
    ensures Mark(was, server) <= Mark(now, server)
  {
    LastRemoteIdIsGreatest(was, server);
    LastRemoteIdIsGreatest(now, server);
    MarkNonNegative(kind, now, server);
    if LastRemoteId(was, server).Some? {
      var row :| row in was && FromServer(row, server, LastRemoteId(was, server).value);
      var i :| 0 <= i < |was| && was[i] == row;
      assert SameRow(kind, was[i], now[i]);
      assert now[i] in now && FromServer(now[i], server, LastRemoteId(was, server).value);
    }
  }

  /** The mark a server is told never decreases. */
  lemma MarkNeverDecreases(history: seq<Event>, more: seq<Event>, server: int, kind: Kind)
    ensures Mark(After(history).Of(kind), server) <= Mark(After(history + more).Of(kind), server)
  {
    EvolvesAlways(history, more, kind);
    InvAlways(history + more);
    EvolvesMark(kind, After(history).Of(kind), After(history + more).Of(kind), server);
  }

  /** Exactly once: a client row is stored in at most one row of its table. */
  lemma StoredAtMostOnce(history: seq<Event>, kind: Kind, server: int, id: int, i: nat, j: nat)
    requires i < |After(history).Of(kind)| && FromServer(After(history).Of(kind)[i], server, id)
    requires j < |After(history).Of(kind)| && FromServer(After(history).Of(kind)[j], server, id)
    ensures i == j
  {
    InvAlways(history);
    var table := After(history).Of(kind);
    assert TableInv(kind, table);
    assert Conflict(kind, table[i], table[j]) && Conflict(kind, table[j], table[i]);
  }

  /** After every history no two rows of a table agree in the columns of one of its unique indexes. */
  lemma NoTwoAgree(history: seq<Event>, kind: Kind, i: nat, j: nat)
    requires i < j < |After(history).Of(kind)|
    ensures Differ(kind, After(history).Of(kind)[i], After(history).Of(kind)[j])
  {
    InvAlways(history);
    assert TableInv(kind, After(history).Of(kind));
    DifferIs(kind, After(history).Of(kind)[i], After(history).Of(kind)[j]);
  }

  /** Nothing is stored for a server but counts with a property of COUNT_STATS that is neither
      the bouncer's own nor skipped, and audit entries of the synced types. */
  lemma OnlyAcceptableStored(history: seq<Event>, kind: Kind, i: nat)
    requires i < |After(history).Of(kind)| && After(history).Of(kind)[i].remoteId.Some?
    ensures var tag := After(history).Of(kind)[i].tag;
            if kind == AuditLogs then SyncedEvent(tag)
            else tag.Property? && InCountStats(tag.name) && !BouncerOnly(tag) && !NotSent(tag)
  {
    InvAlways(history);
    assert TableInv(kind, After(history).Of(kind));
    assert SyncedShaped(kind, After(history).Of(kind)[i]);
  }

  // ------------------------------------------------------------- no silent loss

  /** A stored row carries everything the client sent, whether or not it is linked to a remote realm. */
  predicate Holds(kind: Kind, row: Row, server: int, c: ClientRow) {
    && row.server == server && row.remoteId == Some(c.id)
    && row.tag == c.tag && row.time == c.time && row.value == c.value
    && row.realmId == (if kind == InstallationCounts then None else c.realm)
    && (kind != AuditLogs ==> row.subgroup == c.subgroup)
  }

  ghost predicate Stored(kind: Kind, table: Rows, server: int, c: ClientRow) {
    exists row :: row in table && Holds(kind, row, server, c)
  }

  ghost predicate SentAt(history: seq<Event>, n: nat, kind: Kind, server: int, c: ClientRow) {
    n < |history| && history[n].Posted? && history[n].server == server && c in history[n].sub.Of(kind)
  }

  /** A stored row that keeps the client's row out: one of the same server with its remote id, or one that
      agrees with it on all the columns of an index of the table. */
  predicate Occupies(kind: Kind, row: Row, server: int, links: Links, c: ClientRow) {
    var sameCount := row.tag == c.tag && row.subgroup == c.subgroup && row.time == c.time;
    || (row.server == server && row.remoteId == Some(c.id))
    || (kind == InstallationCounts && row.server == server && sameCount)
    || (kind == RealmCounts && c.realm.Some? && row.server == server && row.realmId == c.realm && sameCount)
    || (kind == RealmCounts && c.realm.Some? && c.realm.value in links
        && row.remoteRealm == Some(links[c.realm.value]) && sameCount)
  }

  lemma OccupiesIs(kind: Kind, row: Row, server: int, links: Links, c: ClientRow)
    ensures Occupies(kind, row, server, links, c) <==> Conflict(kind, row, ToRow(kind, server, links, c))
  {}

  lemma OccupiedIn(kind: Kind, table: Rows, server: int, links: Links, c: ClientRow)
    ensures ConflictsIn(kind, table, ToRow(kind, server, links, c))
       <==> exists row :: row in table && Occupies(kind, row, server, links, c)
  {
    hide Occupies, Conflict, ToRow;
    if row :| row in table && Occupies(kind, row, server, links, c) {
      OccupiesIs(kind, row, server, links, c);
    }
    if i :| 0 <= i < |table| && Conflict(kind, table[i], ToRow(kind, server, links, c)) {
      OccupiesIs(kind, table[i], server, links, c);
      assert table[i] in table;
    }
  }

  /** The row was sent, and a stored row keeps it out. */
  ghost predicate LostConflict(history: seq<Event>, kind: Kind, server: int, c: ClientRow) {
    exists n: nat, row :: SentAt(history, n, kind, server, c)
      && row in After(history).Of(kind) && Occupies(kind, row, server, history[n].links, c)
  }

  /** Counts the bouncer drops by name, whatever they hold. */
  predicate NeverSent(kind: Kind, c: ClientRow) {
    kind != AuditLogs
    && c.tag in {Property("invites_sent::day"), Property("mobile_pushes_sent::day"),
                 Property("active_users_log:is_bot:day"), Property("active_users:is_bot:day")}
  }

  lemma NeverSentIsSkipped(kind: Kind, c: ClientRow)
    ensures NeverSent(kind, c) <==> Skipped(kind, c)
  {}

  ghost predicate Accounted(history: seq<Event>, kind: Kind, server: int, c: ClientRow) {
    NeverSent(kind, c) || Stored(kind, After(history).Of(kind), server, c) || LostConflict(history, kind, server, c)
  }

  lemma OccupiedStays(kind: Kind, was: Rows, now: Rows, server: int, links: Links, c: ClientRow)
    requires Evolves(kind, was, now) && exists row :: row in was && Occupies(kind, row, server, links, c)
    ensures exists row :: row in now && Occupies(kind, row, server, links, c)
  {
    var row :| row in was && Occupies(kind, row, server, links, c);
    var i :| 0 <= i < |was| && was[i] == row;
    assert SameRow(kind, was[i], now[i]);
    assert now[i] in now && Occupies(kind, now[i], server, links, c);
  }

  lemma StoredEvolves(kind: Kind, was: Rows, now: Rows, server: int, c: ClientRow)
    requires Evolves(kind, was, now) && Stored(kind, was, server, c)
    ensures Stored(kind, now, server, c)
  {
    var row :| row in was && Holds(kind, row, server, c);
    var i :| 0 <= i < |was| && was[i] == row;
    assert SameRow(kind, was[i], now[i]);
    assert now[i] in now && Holds(kind, now[i], server, c);
  }

  lemma AccountedStays(history: seq<Event>, e: Event, kind: Kind, server: int, c: ClientRow)
    requires Accounted(history, kind, server, c)
    ensures Accounted(history + [e], kind, server, c)
  {
    EvolvesAlways(history, [e], kind);
    var was, now := After(history).Of(kind), After(history + [e]).Of(kind);
    if Stored(kind, was, server, c) {
      StoredEvolves(kind, was, now, server, c);
    } else if !NeverSent(kind, c) {
      var n: nat, row :| SentAt(history, n, kind, server, c)
          && row in was && Occupies(kind, row, server, history[n].links, c);
      OccupiedStays(kind, was, now, server, history[n].links, c);
      assert SentAt(history + [e], n, kind, server, c);
    }
  }

  /** Every row of an accepted submission is accounted for at once. */
  lemma AcceptedIsAccounted(history: seq<Event>, e: Event, kind: Kind, c: ClientRow)
    requires e.Posted? && Post(After(history), e.server, e.sub, e.links, e.fix).Accepted? && c in e.sub.Of(kind)
    ensures Accounted(history + [e], kind, e.server, c)
  {
    hide Post, InsertIgnoring, Conflict, FixedTable, After;
    InvAlways(history);
    AfterOne(history, e);
    PostTable(After(history), e.server, e.sub, e.links, e.fix, kind);
    var fixed := FixedTable(After(history), e.server, e.links, e.fix, kind);
    var rows := ToRows(kind, e.server, e.links, e.sub.Of(kind));
    assert After(history + [e]).Of(kind) == InsertIgnoring(kind, fixed, rows);
    NeverSentIsSkipped(kind, c);
    if !Skipped(kind, c) {
      var row := ToRow(kind, e.server, e.links, c);
      ToRowsOrigin(kind, e.server, e.links, e.sub.Of(kind), row);
      var i :| 0 <= i < |rows| && rows[i] == row;
      InsertedOrLost(kind, fixed, rows, i);
      if Inserted(kind, fixed, rows, i) {
        assert Holds(kind, row, e.server, c);
      } else {
        OccupiedIn(kind, InsertIgnoring(kind, fixed, rows), e.server, e.links, c);
        assert SentAt(history + [e], |history|, kind, e.server, c);
      }
    }
  }

  lemma AfterOne(history: seq<Event>, e: Event)
    ensures After(history + [e]) == Apply(After(history), e)
  {
    assert (history + [e])[..|history|] == history;
  }

  /** Only an accepted submission of the server itself adds a row with a remote id. */
  lemma NewRowOrigin(tables: Tables, e: Event, kind: Kind, i: nat)
    requires Inv(tables) && |tables.Of(kind)| <= i < |Apply(tables, e).Of(kind)|
    requires Apply(tables, e).Of(kind)[i].remoteId.Some?
    ensures e.Posted? && Post(tables, e.server, e.sub, e.links, e.fix).Accepted?
    ensures exists c :: c in e.sub.Of(kind) && FromServer(Apply(tables, e).Of(kind)[i], e.server, c.id)
  {
    hide Post, InsertIgnoring, Conflict, FixedTable, Hits;
    if e.Posted? && Post(tables, e.server, e.sub, e.links, e.fix).Accepted? {
      PostTable(tables, e.server, e.sub, e.links, e.fix, kind);
      var fixed := FixedTable(tables, e.server, e.links, e.fix, kind);
      FixedLength(tables, e.server, e.links, e.fix, kind);
      var rows := ToRows(kind, e.server, e.links, e.sub.Of(kind));
      InsertAdds(kind, fixed, rows, i);
      ToRowsOrigin(kind, e.server, e.links, e.sub.Of(kind), InsertIgnoring(kind, fixed, rows)[i]);
    }
  }


  lemma EarlierRowCounts(kind: Kind, was: Rows, now: Rows, server: int, i: nat, id: int)
    requires Evolves(kind, was, now) && i < |was| && FromServer(now[i], server, id)
    ensures id <= Mark(was, server)
  {
    LastRemoteIdIsGreatest(was, server);
    assert SameRow(kind, was[i], now[i]);
    assert was[i] in was && FromServer(was[i], server, id);
  }

  /** The mark rises only to the id of a row the server has just sent. */
  lemma MarkRises(tables: Tables, e: Event, kind: Kind, server: int)
    requires Inv(tables) && Mark(tables.Of(kind), server) < Mark(Apply(tables, e).Of(kind), server)
    ensures e.Posted? && e.server == server && Post(tables, e.server, e.sub, e.links, e.fix).Accepted?
    ensures exists c :: c in e.sub.Of(kind) && c.id == Mark(Apply(tables, e).Of(kind), server)
  {
    hide Post, Apply;
    var was, now := tables.Of(kind), Apply(tables, e).Of(kind);
    ApplyKeeps(tables, e);
    assert TableInv(kind, was);
    MarkNonNegative(kind, was, server);
    LastRemoteIdIsGreatest(now, server);
    var row :| row in now && FromServer(row, server, Mark(now, server));
    var i :| 0 <= i < |now| && now[i] == row;
    if i < |was| {
      EarlierRowCounts(kind, was, now, server, i, Mark(now, server));
    }
    NewRowOrigin(tables, e, kind, i);
    var c :| c in e.sub.Of(kind) && FromServer(now[i], e.server, c.id);
  }

  ghost predicate IncreasingIds(rows: seq<ClientRow>) {
    forall i, j :: 0 <= i < j < |rows| ==> rows[i].id < rows[j].id
  }

  /** Submission n sends a contiguous run of the client's rows, leaving out before it only rows
      not above a mark that was reported at that time or earlier. */
  ghost predicate SendsRun(history: seq<Event>, n: nat, kind: Kind, server: int, rows: seq<ClientRow>)
    requires n < |history| && history[n].Posted?
  {
    exists r: nat, from: nat, to: nat :: IsRun(history, n, kind, server, rows, r, from, to)
  }

  ghost predicate IsRun(history: seq<Event>, n: nat, kind: Kind, server: int, rows: seq<ClientRow>, r: nat, from: nat,
                        to: nat)
    requires n < |history| && history[n].Posted?
  {
    && r <= n && from <= to <= |rows|
    && history[n].sub.Of(kind) == rows[from..to]
    && forall i :: 0 <= i < from ==> rows[i].id <= Mark(After(history[..r]).Of(kind), server)
  }

  /** A client whose table only grows at its end, ids increasing: rows is its table at the end. */
  ghost predicate GoodClient(history: seq<Event>, kind: Kind, server: int, rows: seq<ClientRow>) {
    IncreasingIds(rows)
    && forall n: nat :: n < |history| && history[n].Posted? && history[n].server == server ==>
        SendsRun(history, n, kind, server, rows)
  }

  lemma GoodClientBefore(history: seq<Event>, e: Event, kind: Kind, server: int, rows: seq<ClientRow>)
    requires GoodClient(history + [e], kind, server, rows)
    ensures GoodClient(history, kind, server, rows)
  {
    forall n: nat | n < |history| && history[n].Posted? && history[n].server == server
      ensures SendsRun(history, n, kind, server, rows)
    {
      assert (history + [e])[n] == history[n];
      assert SendsRun(history + [e], n, kind, server, rows);
      var r: nat, from: nat, to: nat :| IsRun(history + [e], n, kind, server, rows, r, from, to);
      assert (history + [e])[..r] == history[..r];
      assert IsRun(history, n, kind, server, rows, r, from, to);
    }
  }

  /** No silent loss: every client row up to the mark is stored, is one of those skipped by property
      name, or lost a uniqueness conflict. */
  lemma {:induction false} NoSilentLoss(history: seq<Event>, kind: Kind, server: int, rows: seq<ClientRow>, i: nat)
    requires GoodClient(history, kind, server, rows)
    requires i < |rows| && rows[i].id <= Mark(After(history).Of(kind), server)
    requires rows[i].id > 0
    ensures Accounted(history, kind, server, rows[i])
    decreases |history|
  {
    hide Post, Accounted, Apply;
    if history != [] {
      var n := |history| - 1;
      var before, e := history[..n], history[n];
      assert history == before + [e];
      GoodClientBefore(before, e, kind, server, rows);
      AfterOne(before, e);
      if rows[i].id <= Mark(After(before).Of(kind), server) {
        NoSilentLoss(before, kind, server, rows, i);
        AccountedStays(before, e, kind, server, rows[i]);
      } else {
        InvAlways(before);
        MarkRises(After(before), e, kind, server);
        InRun(before, e, kind, server, rows, i);
        AcceptedIsAccounted(before, e, kind, rows[i]);
      }
    }
  }

  /** What a run leaves out before it is not above any later mark. */
  lemma RunStartsBelow(before: seq<Event>, kind: Kind, server: int, rows: seq<ClientRow>, r: nat, from: nat, i: nat)
    requires r <= |before| && from <= |rows| && i < |rows|
    requires forall j :: 0 <= j < from ==> rows[j].id <= Mark(After(before[..r]).Of(kind), server)
    requires Mark(After(before).Of(kind), server) < rows[i].id
    ensures from <= i
  {
    hide After, Mark;
    assert i < from ==> rows[i].id <= Mark(After(before[..r]).Of(kind), server);
    MarkNeverDecreases(before[..r], before[r..], server, kind);
    assert before[..r] + before[r..] == before;
  }

  lemma InRun(before: seq<Event>, e: Event, kind: Kind, server: int, rows: seq<ClientRow>, i: nat)
    requires GoodClient(before + [e], kind, server, rows) && e.Posted? && e.server == server
    requires i < |rows| && Mark(After(before).Of(kind), server) < rows[i].id
    requires exists c :: c in e.sub.Of(kind) && rows[i].id <= c.id
    ensures rows[i] in e.sub.Of(kind)
  {
    hide After, Mark, IncreasingIds;
    var history := before + [e];
    assert history[|before|] == e;
    assert SendsRun(history, |before|, kind, server, rows);
    var r: nat, from: nat, to: nat :| IsRun(history, |before|, kind, server, rows, r, from, to);
    assert history[..r] == before[..r];
    RunStartsBelow(before, kind, server, rows, r, from, i);
    var c :| c in e.sub.Of(kind) && rows[i].id <= c.id;
    RunReaches(rows, from, to, i, c);
  }

  lemma RunReaches(rows: seq<ClientRow>, from: nat, to: nat, i: nat, c: ClientRow)
    requires IncreasingIds(rows) && from <= to <= |rows| && from <= i < |rows|
    requires c in rows[from..to] && rows[i].id <= c.id
    ensures rows[i] in rows[from..to]
  {
    var k :| 0 <= k < to - from && rows[from..to][k] == c;
    assert rows[from + k] == c;
    assert rows[from..to][i - from] == rows[i];
  }

  // ------------------------------------------------------- nothing lost at all

  /** Two rows of a submission can both be stored: their ids differ, and so do their realms, on both sides,
      or another of the columns that identify a count. */
  predicate Separate(kind: Kind, links: Links, c: ClientRow, d: ClientRow) {
    && c.id != d.id
    && (kind != AuditLogs && c.tag == d.tag && c.subgroup == d.subgroup && c.time == d.time ==>
          && kind == RealmCounts
          && (c.realm.None? || c.realm != d.realm)
          && (c.realm.Some? && d.realm.Some? && c.realm.value in links && d.realm.value in links ==>
                links[c.realm.value] != links[d.realm.value]))
  }

  /** No stored row keeps a row of the submission out, and its rows can all be stored. */
  ghost predicate Free(kind: Kind, table: Rows, server: int, links: Links, rows: seq<ClientRow>) {
    && (forall c, row :: c in rows && !NeverSent(kind, c) && row in table ==> !Occupies(kind, row, server, links, c))
    && (forall i, j :: 0 <= i < j < |rows| && !NeverSent(kind, rows[i]) && !NeverSent(kind, rows[j]) ==>
          Separate(kind, links, rows[i], rows[j]))
  }

  lemma SeparateIs(kind: Kind, server: int, links: Links, c: ClientRow, d: ClientRow)
    ensures Separate(kind, links, c, d) <==> Differ(kind, ToRow(kind, server, links, c), ToRow(kind, server, links, d))
  {}

  lemma AllDifferLast(kind: Kind, table: Rows, rows: Rows, last: Row)
    ensures AllDiffer(kind, table, rows + [last])
       <==> (AllDiffer(kind, table, rows) && (forall r :: r in table ==> Differ(kind, r, last))
           && (forall r :: r in rows ==> Differ(kind, r, last)))
  {
    hide Differ;
    var more := rows + [last];
    if AllDiffer(kind, table, more) {
      assert forall i :: 0 <= i < |rows| ==> more[i] == rows[i];
      assert more[|rows|] == last;
    }
  }

  lemma FreeLast(kind: Kind, table: Rows, server: int, links: Links, rows: seq<ClientRow>, last: ClientRow)
    ensures Free(kind, table, server, links, rows + [last])
       <==> (Free(kind, table, server, links, rows)
           && (NeverSent(kind, last)
               || ((forall r :: r in table ==> !Occupies(kind, r, server, links, last))
                   && (forall c :: c in rows && !NeverSent(kind, c) ==> Separate(kind, links, c, last)))))
  {
    hide Occupies, Separate, NeverSent;
    var more := rows + [last];
    assert forall i :: 0 <= i < |rows| ==> more[i] == rows[i];
    assert more[|rows|] == last && forall c :: c in more <==> c in rows || c == last;
  }

  lemma DiffersFromAll(kind: Kind, table: Rows, server: int, links: Links, rows: seq<ClientRow>, last: ClientRow)
    ensures (forall r :: r in table ==> Differ(kind, r, ToRow(kind, server, links, last)))
       <==> forall r :: r in table ==> !Occupies(kind, r, server, links, last)
    ensures (forall r :: r in ToRows(kind, server, links, rows) ==> Differ(kind, r, ToRow(kind, server, links, last)))
       <==> forall c :: c in rows && !NeverSent(kind, c) ==> Separate(kind, links, c, last)
  {
    hide Occupies, Differ, Conflict, Separate, NeverSent, Skipped, ToRow;
    var x := ToRow(kind, server, links, last);
    forall r ensures Differ(kind, r, x) <==> !Occupies(kind, r, server, links, last) {
      DifferIs(kind, r, x);
      OccupiesIs(kind, r, server, links, last);
    }
    forall r ensures r in ToRows(kind, server, links, rows) <==>
                exists c :: c in rows && !Skipped(kind, c) && r == ToRow(kind, server, links, c)
    {
      ToRowsOrigin(kind, server, links, rows, r);
    }
    forall c ensures NeverSent(kind, c) <==> Skipped(kind, c)
             ensures Separate(kind, links, c, last) <==> Differ(kind, ToRow(kind, server, links, c), x)
    {
      NeverSentIsSkipped(kind, c);
      SeparateIs(kind, server, links, c, last);
    }
    assert forall c :: c in rows && !Skipped(kind, c) ==>
        ToRow(kind, server, links, c) in ToRows(kind, server, links, rows);
  }

  lemma {:induction false} FreeIs(kind: Kind, table: Rows, server: int, links: Links, rows: seq<ClientRow>)
    ensures AllDiffer(kind, table, ToRows(kind, server, links, rows)) <==> Free(kind, table, server, links, rows)
    decreases |rows|
  {
    hide AllDiffer, Free, NeverSent, Skipped, ToRow;
    if rows == [] {
      FreeNothing(kind, table, server, links);
    } else {
      var front, last := rows[..|rows| - 1], rows[|rows| - 1];
      assert rows == front + [last];
      FreeIs(kind, table, server, links, front);
      FreeLast(kind, table, server, links, front, last);
      NeverSentIsSkipped(kind, last);
      AllDifferLast(kind, table, ToRows(kind, server, links, front), ToRow(kind, server, links, last));
      DiffersFromAll(kind, table, server, links, front, last);
    }
  }

  lemma FreeNothing(kind: Kind, table: Rows, server: int, links: Links)
    ensures AllDiffer(kind, table, []) && Free(kind, table, server, links, [])
  {}

  /** The remote realm a new row belongs to: the one its realm id was reported with, if any. */
  function RealmFor(kind: Kind, links: Links, realm: Option<int>): Option<int> {
    if kind != InstallationCounts && realm.Some? && realm.value in links then Some(links[realm.value]) else None
  }

  ghost predicate StoredLinked(kind: Kind, table: Rows, server: int, links: Links, c: ClientRow) {
    exists row :: row in table && Holds(kind, row, server, c) && row.remoteRealm == RealmFor(kind, links, c.realm)
  }

  lemma ToRowHolds(kind: Kind, server: int, links: Links, c: ClientRow)
    ensures Holds(kind, ToRow(kind, server, links, c), server, c)
    ensures ToRow(kind, server, links, c).remoteRealm == RealmFor(kind, links, c.realm)
  {}

  /** An accepted submission is stored completely, but for the counts dropped by name, exactly if its rows
      differ from each other and from everything stored: in id, and in the columns of every index. */
  lemma AllStoredExactly(history: seq<Event>, e: Event, kind: Kind)
    requires e.Posted? && Post(After(history), e.server, e.sub, e.links, e.fix).Accepted?
    ensures var fixed := FixedTable(After(history), e.server, e.links, e.fix, kind);
            After(history + [e]).Of(kind) == fixed + ToRows(kind, e.server, e.links, e.sub.Of(kind))
            <==> Free(kind, fixed, e.server, e.links, e.sub.Of(kind))
    ensures var fixed := FixedTable(After(history), e.server, e.links, e.fix, kind);
            Free(kind, fixed, e.server, e.links, e.sub.Of(kind)) ==>
              forall c :: c in e.sub.Of(kind) && !NeverSent(kind, c) ==>
                StoredLinked(kind, After(history + [e]).Of(kind), e.server, e.links, c)
  {
    hide Post, FixedTable, After, Free, AllDiffer, ToRow, Holds, NeverSent, Skipped, RealmFor;
    InvAlways(history);
    AfterOne(history, e);
    PostTable(After(history), e.server, e.sub, e.links, e.fix, kind);
    var fixed := FixedTable(After(history), e.server, e.links, e.fix, kind);
    var rows := ToRows(kind, e.server, e.links, e.sub.Of(kind));
    StoredCompletely(kind, fixed, rows);
    FreeIs(kind, fixed, e.server, e.links, e.sub.Of(kind));
    if Free(kind, fixed, e.server, e.links, e.sub.Of(kind)) {
      forall c | c in e.sub.Of(kind) && !NeverSent(kind, c)
        ensures StoredLinked(kind, After(history + [e]).Of(kind), e.server, e.links, c)
      {
        NeverSentIsSkipped(kind, c);
        ToRowsOrigin(kind, e.server, e.links, e.sub.Of(kind), ToRow(kind, e.server, e.links, c));
        ToRowHolds(kind, e.server, e.links, c);
        assert ToRow(kind, e.server, e.links, c) in fixed + rows;
      }
    }
  }

  /** A row that an accepted submission adds is one of the client's rows as it was sent, under the remote
      realm its realm id was reported with. */
  lemma AddedRowIs(tables: Tables, e: Event, kind: Kind, i: nat)
    requires Inv(tables) && e.Posted? && Post(tables, e.server, e.sub, e.links, e.fix).Accepted?
    requires |tables.Of(kind)| <= i < |Apply(tables, e).Of(kind)|
    ensures var row := Apply(tables, e).Of(kind)[i];
            && (exists c :: c in e.sub.Of(kind) && !NeverSent(kind, c) && Holds(kind, row, e.server, c))
            && row.remoteRealm == RealmFor(kind, e.links, row.realmId)
  {
    hide Post, InsertIgnoring, Conflict, FixedTable, ToRow, Holds, NeverSent, Skipped, RealmFor;
    PostTable(tables, e.server, e.sub, e.links, e.fix, kind);
    var fixed := FixedTable(tables, e.server, e.links, e.fix, kind);
    FixedLength(tables, e.server, e.links, e.fix, kind);
    var rows := ToRows(kind, e.server, e.links, e.sub.Of(kind));
    InsertAdds(kind, fixed, rows, i);
    var row := InsertIgnoring(kind, fixed, rows)[i];
    ToRowsOrigin(kind, e.server, e.links, e.sub.Of(kind), row);
    var c :| c in e.sub.Of(kind) && !Skipped(kind, c) && row == ToRow(kind, e.server, e.links, c);
    NeverSentIsSkipped(kind, c);
    ToRowHolds(kind, e.server, e.links, c);
    RealmOfStored(kind, row, e.server, e.links, c);
  }

  lemma RealmOfStored(kind: Kind, row: Row, server: int, links: Links, c: ClientRow)
    requires Holds(kind, row, server, c)
    ensures RealmFor(kind, links, c.realm) == RealmFor(kind, links, row.realmId)
  {}

  // ------------------------------------------------------------- accepted twice

  /** How many rows an event adds to a table. */
  ghost function AddedBy(tables: Tables, e: Event, kind: Kind): int {
    |Apply(tables, e).Of(kind)| - |tables.Of(kind)|
  }

  lemma ToRowFrom(kind: Kind, server: int, links: Links, c: ClientRow)
    ensures FromServer(ToRow(kind, server, links, c), server, c.id)
  {}

  /** The rows an accepted submission adds are rows it sent, so the mark is then beyond its first row. */
  lemma AddedRaisesMark(tables: Tables, e: Event, kind: Kind)
    requires Inv(tables) && e.Posted? && Post(tables, e.server, e.sub, e.links, e.fix).Accepted?
    requires AddedBy(tables, e, kind) > 0
    ensures e.sub.Of(kind) != [] && e.sub.Of(kind)[0].id <= Mark(Apply(tables, e).Of(kind), e.server)
  {
    hide Post, InsertIgnoring, Conflict, FixedTable, Fault, TableInv, Validated, Evolves;
    var now := Apply(tables, e).Of(kind);
    var i := |tables.Of(kind)|;
    PostTable(tables, e.server, e.sub, e.links, e.fix, kind);
    FixedLength(tables, e.server, e.links, e.fix, kind);
    var rows := ToRows(kind, e.server, e.links, e.sub.Of(kind));
    var fixed := FixedTable(tables, e.server, e.links, e.fix, kind);
    InsertAdds(kind, fixed, rows, i);
    ToRowsOrigin(kind, e.server, e.links, e.sub.Of(kind), now[i]);
    var c :| c in e.sub.Of(kind) && now[i] == ToRow(kind, e.server, e.links, c);
    ValidatedMeans(kind, e.sub.Of(kind), Mark(tables.Of(kind), e.server));
    LastRemoteIdIsGreatest(now, e.server);
    ToRowFrom(kind, e.server, e.links, c);
    assert FromServer(now[i], e.server, c.id);
  }

  /** A batch is accepted a second time, however much later, only if it stored nothing the first time. */
  lemma AcceptedTwiceStoredNothing(history: seq<Event>, first: Event, more: seq<Event>, second: Event, kind: Kind)
    requires first.Posted? && second.Posted? && first.server == second.server
    requires first.sub.Of(kind) == second.sub.Of(kind) != []
    requires Post(After(history), first.server, first.sub, first.links, first.fix).Accepted?
    requires Post(After(history + [first] + more), second.server, second.sub, second.links, second.fix).Accepted?
    ensures AddedBy(After(history), first, kind) == 0
  {
    hide Post, Apply, Fault;
    InvAlways(history);
    AfterOne(history, first);
    EvolvesAlways(history, [first], kind);
    if AddedBy(After(history), first, kind) > 0 {
      AddedRaisesMark(After(history), first, kind);
      MarkNeverDecreases(history + [first], more, first.server, kind);
      InvAlways(history + [first] + more);
      PostTable(After(history + [first] + more), second.server, second.sub, second.links, second.fix, kind);
      ValidatedMeans(kind, second.sub.Of(kind), Mark(After(history + [first] + more).Of(kind), second.server));
    }
  }
}
