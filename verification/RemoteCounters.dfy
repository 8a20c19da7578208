/**
 The push counters the bouncer keeps in the tables it syncs into: who owns a row, and what a
 counter adds up to over some of its slots.
 */
module RemoteCounters {
  import opened Options
  import opened RemoteTables
  import opened RemoteSync
  import opened RemoteHistory

  // ------------------------------------------------------------------- ownership

  /** Ownership separation: in every history a row of the two count tables has no remote id exactly
      if its property is one only the bouncer counts. */
  lemma OwnershipAlways(history: seq<Event>, kind: Kind, i: nat)
    requires kind != AuditLogs && i < |After(history).Of(kind)|
    ensures After(history).Of(kind)[i].remoteId.None? <==> BouncerOnly(After(history).Of(kind)[i].tag)
  {
    InvAlways(history);
    assert TableInv(kind, After(history).Of(kind));
    assert Owned(After(history).Of(kind)[i]);
  }

  /** An increment changes no synced row. */
  lemma IncrementSparesSynced(history: seq<Event>, owner: Owner, counter: Counter, endTime: int, increment: int,
                              kind: Kind, i: nat)
    requires i < |After(history).Of(kind)| && After(history).Of(kind)[i].remoteId.Some?
    ensures i < |IncrementCounter(After(history), owner, counter, endTime, increment).Of(kind)|
    ensures IncrementCounter(After(history), owner, counter, endTime, increment).Of(kind)[i]
         == After(history).Of(kind)[i]
  {
    hide After, BouncerOnly;
    if kind == owner.Home() {
      OwnershipAlways(history, kind, i);
      CounterIsBouncerOnly(counter);
    }
  }

  /** A submission, with or without a fix of the foreign keys, changes no counter of the bouncer. */
  lemma PostSparesCounters(history: seq<Event>, e: Event, kind: Kind, i: nat)
    requires e.Posted? && kind != AuditLogs && i < |After(history).Of(kind)|
    requires After(history).Of(kind)[i].remoteId.None?
    ensures i < |Apply(After(history), e).Of(kind)|
              && Apply(After(history), e).Of(kind)[i] == After(history).Of(kind)[i]
  {
    InvAlways(history);
    PostSpares(After(history), e, kind, i);
  }

  lemma PostSpares(tables: Tables, e: Event, kind: Kind, i: nat)
    requires Inv(tables) && e.Posted? && kind != AuditLogs && i < |tables.Of(kind)| && tables.Of(kind)[i].remoteId.None?
    ensures i < |Apply(tables, e).Of(kind)| && Apply(tables, e).Of(kind)[i] == tables.Of(kind)[i]
  {
    hide Post, Conflict, BouncerOnly, InsertIgnoring;
    if Post(tables, e.server, e.sub, e.links, e.fix).Accepted? {
      PostTable(tables, e.server, e.sub, e.links, e.fix, kind);
      var fixed := FixedTable(tables, e.server, e.links, e.fix, kind);
      assert TableInv(kind, tables.Of(kind));
      assert CounterShaped(kind, tables.Of(kind)[i]);
      InsertExtends(kind, fixed, ToRows(kind, e.server, e.links, e.sub.Of(kind)));
    }
  }

  // --------------------------------------------------------------------- tallies

  ghost function Tally(table: Rows, chosen: Row -> bool): int
    decreases |table|
  {
    if table == [] then 0
    else Tally(table[..|table| - 1], chosen) + if chosen(table[|table| - 1]) then table[|table| - 1].value else 0
  }

  /** The server a counter is for, or the remote realm whichever server it belongs to. */
  predicate SameOwner(a: Owner, b: Owner) {
    if a.OfServer? then b.OfServer? && a.server == b.server else b.OfRemoteRealm? && a.remoteRealm == b.remoteRealm
  }

  predicate CountsFor(row: Row, owner: Owner) {
    if owner.OfServer? then row.server == owner.server else row.remoteRealm == Some(owner.remoteRealm)
  }

  /** The rows of one counter in some of its slots. */
  function CounterRows(owner: Owner, counter: Counter, slots: int -> bool): Row -> bool {
    (row: Row) => CountsFor(row, owner) && row.tag == Property(counter.Name()) && slots(row.time)
  }

  /** What one counter has counted in some of its slots. */
  ghost function Total(tables: Tables, owner: Owner, counter: Counter, slots: int -> bool): int {
    Tally(tables.Of(owner.Home()), CounterRows(owner, counter, slots))
  }

  lemma {:induction false} TallySame(was: Rows, now: Rows, chosen: Row -> bool)
    requires |was| <= |now|
    requires forall i :: 0 <= i < |was| ==>
               chosen(was[i]) == chosen(now[i]) && (chosen(was[i]) ==> was[i].value == now[i].value)
    requires forall i :: |was| <= i < |now| ==> !chosen(now[i])
    ensures Tally(was, chosen) == Tally(now, chosen)
    decreases |now|
  {
    if |now| > |was| {
      TallySame(was, now[..|now| - 1], chosen);
    } else if now != [] {
      TallySame(was[..|was| - 1], now[..|now| - 1], chosen);
    }
  }

  lemma {:induction false} TallyAdded(table: Rows, i: nat, v: int, chosen: Row -> bool)
    requires i < |table| && chosen(table[i].(value := table[i].value + v)) == chosen(table[i])
    ensures Tally(table[i := table[i].(value := table[i].value + v)], chosen)
         == Tally(table, chosen) + if chosen(table[i]) then v else 0
    decreases |table|
  {
    var now := table[i := table[i].(value := table[i].value + v)];
    if i == |table| - 1 {
      assert now[..i] == table[..i];
    } else {
      assert now[..|now| - 1] == table[..|table| - 1][i := table[i].(value := table[i].value + v)];
      TallyAdded(table[..|table| - 1], i, v, chosen);
    }
  }

  lemma CountersDiffer()
    ensures Received.Name() != Forwarded.Name()
  {
    assert |Received.Name()| == 27 && |Forwarded.Name()| == 28;
  }

  lemma HitCounts(owner: Owner, counter: Counter, endTime: int, increment: int, whose: Owner, which: Counter,
                  slots: int -> bool, row: Row)
    requires whose.Home() == owner.Home()
    requires Hits(owner.Home(), row, CounterRow(owner, counter, endTime, increment))
               || row == CounterRow(owner, counter, endTime, increment)
    ensures CounterRows(whose, which, slots)(row) <==> SameOwner(whose, owner) && counter == which && slots(endTime)
  {
    hide Counter.Name;
    CountersDiffer();
    assert row.time == endTime && (slots(row.time) <==> slots(endTime));
  }

  /** An increment adds to the totals of its owner and counter over its slot, and to no others. */
  lemma IncrementTotal(tables: Tables, owner: Owner, counter: Counter, endTime: int, increment: int, whose: Owner,
                       which: Counter, slots: int -> bool)
    ensures Total(IncrementCounter(tables, owner, counter, endTime, increment), whose, which, slots)
         == Total(tables, whose, which, slots)
          + if SameOwner(whose, owner) && counter == which && slots(endTime) then increment else 0
  {
    hide Hits;
    var kind := owner.Home();
    var added := CounterRow(owner, counter, endTime, increment);
    if increment != 0 && whose.Home() == kind {
      var table := tables.Of(kind);
      var i := HitAt(kind, table, added);
      if i < |table| {
        HitCounts(owner, counter, endTime, increment, whose, which, slots, table[i]);
        var more := table[i].(value := table[i].value + increment);
        assert more.time == table[i].time && (slots(more.time) <==> slots(table[i].time));
        TallyAdded(table, i, increment, CounterRows(whose, which, slots));
      } else {
        HitCounts(owner, counter, endTime, increment, whose, which, slots, added);
        assert (table + [added])[..|table|] == table;
      }
    }
  }

  /** Submissions and the bouncer's audit entries change no total. */
  lemma OtherTotal(tables: Tables, e: Event, owner: Owner, counter: Counter, slots: int -> bool)
    requires Inv(tables) && !e.Counted?
    ensures Total(Apply(tables, e), owner, counter, slots) == Total(tables, owner, counter, slots)
  {
    hide Apply, BouncerOnly, Evolves, Conflict;
    var kind := owner.Home();
    ApplyKeeps(tables, e);
    assert TableInv(kind, tables.Of(kind)) && TableInv(kind, Apply(tables, e).Of(kind));
    assert Evolves(kind, tables.Of(kind), Apply(tables, e).Of(kind));
    var was, now := tables.Of(kind), Apply(tables, e).Of(kind);
    var chosen := CounterRows(owner, counter, slots);
    CounterIsBouncerOnly(counter);
    EvolvesLength(kind, was, now);
    forall i | 0 <= i < |was|
      ensures chosen(was[i]) == chosen(now[i]) && (chosen(was[i]) ==> was[i].value == now[i].value)
    {
      OtherRow(tables, e, kind, i);
      assert was[i] in was && now[i] in now;
    }
    forall i | |was| <= i < |now| ensures !chosen(now[i]) {
      AddedRow(tables, e, kind, i);
      assert now[i] in now;
    }
    TallySame(was, now, chosen);
  }

  lemma EvolvesLength(kind: Kind, was: Rows, now: Rows)
    requires Evolves(kind, was, now)
    ensures |was| <= |now|
    ensures forall i :: 0 <= i < |was| ==> SameRow(kind, was[i], now[i])
  {}

  lemma OtherRow(tables: Tables, e: Event, kind: Kind, i: nat)
    requires Inv(tables) && !e.Counted? && kind != AuditLogs && i < |tables.Of(kind)|
    ensures i < |Apply(tables, e).Of(kind)|
    ensures tables.Of(kind)[i].remoteId.None? ==> Apply(tables, e).Of(kind)[i] == tables.Of(kind)[i]
  {
    hide Post;
    ApplyKeeps(tables, e);
    EvolvesLength(kind, tables.Of(kind), Apply(tables, e).Of(kind));
    if e.Posted? && tables.Of(kind)[i].remoteId.None? { PostSpares(tables, e, kind, i); }
  }

  lemma AddedRow(tables: Tables, e: Event, kind: Kind, i: nat)
    requires Inv(tables) && !e.Counted? && kind != AuditLogs && |tables.Of(kind)| <= i < |Apply(tables, e).Of(kind)|
    ensures Apply(tables, e).Of(kind)[i].remoteId.Some?
  {
    hide Post, FixedTable, Conflict, BouncerOnly;
    if e.Posted? && Post(tables, e.server, e.sub, e.links, e.fix).Accepted? {
      PostTable(tables, e.server, e.sub, e.links, e.fix, kind);
      var fixed := FixedTable(tables, e.server, e.links, e.fix, kind);
      var rows := ToRows(kind, e.server, e.links, e.sub.Of(kind));
      FixedLength(tables, e.server, e.links, e.fix, kind);
      InsertAdds(kind, fixed, rows, i);
      ToRowsOrigin(kind, e.server, e.links, e.sub.Of(kind), InsertIgnoring(kind, fixed, rows)[i]);
    }
  }
}
