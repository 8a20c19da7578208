/**
 update_remote_realm_data_for_server, executed on the registrations and the audit log.
 */
module RealmRegistry {
  import opened Options
  import opened RealmReconcile
  import Sums

  /** The registrations with a new one for every reported uuid that had none. */
  ghost function Created(was: Realms, server: int, reported: seq<Reported>): Realms {
    var dict := ByUuid(reported);
    map u | u in was.Keys + dict.Keys :: if u in was then was[u] else NewRealm(server, dict[u])
  }

  lemma CreatedNext(was: Realms, server: int, reported: seq<Reported>, i: nat)
    requires i < |reported|
    ensures Created(was, server, reported[..i + 1])
         == if reported[i].uuid in was then Created(was, server, reported[..i])
            else Created(was, server, reported[..i])[reported[i].uuid := NewRealm(server, reported[i])]
  {
    assert reported[..i + 1][..i] == reported[..i];
    assert ByUuid(reported[..i + 1]) == ByUuid(reported[..i])[reported[i].uuid := reported[i]];
  }

  ghost predicate DuplicateAt(realms: Realms, server: int, reported: seq<Reported>, i: nat)
    requires i < |reported|
  {
    !Registered(realms, server, reported[i].uuid)
        && (reported[i].uuid in realms || Mentioned(reported[..i], reported[i].uuid))
  }

  lemma DuplicateIs(realms: Realms, server: int, reported: seq<Reported>)
    ensures Duplicate(realms, server, reported)
         <==> exists i: nat :: i < |reported| && DuplicateAt(realms, server, reported, i)
  {
    if i :| 0 <= i < |reported| && !Registered(realms, server, reported[i].uuid)
            && (reported[i].uuid in realms || Mentioned(reported[..i], reported[i].uuid)) {
      assert DuplicateAt(realms, server, reported, i);
    }
  }

  /** What refreshing the realms in done has made of the registrations. */
  ghost predicate RefreshedOnly(was: Realms, now: Realms, done: set<int>, dict: map<int, Reported>)
    requires done <= was.Keys && done <= dict.Keys
  {
    now.Keys == was.Keys && forall u :: u in was ==> now[u] == if u in done then Refreshed(was[u], dict[u]) else was[u]
  }

  ghost predicate MarkedOnly(was: Realms, now: Realms, done: set<int>) {
    now.Keys == was.Keys && forall u :: u in was ==>
        now[u] == if u in done then was[u].(locallyDeleted := true) else was[u]
  }

  ghost predicate CanRefresh(realms: Realms, already: set<int>, dict: map<int, Reported>) {
    && already <= realms.Keys && already <= dict.Keys
    && forall u :: u in already ==> dict[u].uuid == u && AllSet(realms[u].attrs) && AllSet(dict[u].attrs)
  }

  /** The audit log has the changes of exactly the realms in done. */
  ghost predicate RefreshesLogged(log: seq<Entry>, was: Realms, done: set<int>, dict: map<int, Reported>, now: int)
    requires CanRefresh(was, done, dict)
  {
    forall u :: EntriesOf(log, u) == if u in done then Changes(was[u], dict[u], now) else []
  }

  ghost predicate MarksLogged(log: seq<Entry>, was: Realms, done: set<int>, now: int)
    requires done <= was.Keys
  {
    forall u :: EntriesOf(log, u) == if u in done && !was[u].locallyDeleted then [LocallyDeleted(u, now)] else []
  }

  lemma NothingRefreshed(was: Realms, already: set<int>, dict: map<int, Reported>, now: int)
    requires CanRefresh(was, already, dict)
    ensures CanRefresh(was, already - already, dict)
    ensures RefreshedOnly(was, was, already - already, dict) && RefreshesLogged([], was, already - already, dict, now)
  {}

  lemma NothingMarked(was: Realms, missing: set<int>, now: int)
    requires missing <= was.Keys
    ensures MarkedOnly(was, was, missing - missing) && MarksLogged([], was, missing - missing, now)
  {}

  /** Refreshing one more realm. */
  lemma RefreshNext(was: Realms, realms: Realms, log: seq<Entry>, already: set<int>, todo: set<int>,
                    dict: map<int, Reported>, now: int, u: int)
    requires CanRefresh(was, already, dict) && todo <= already && u in todo && CanRefresh(was, already - todo, dict)
    requires RefreshedOnly(was, realms, already - todo, dict) && RefreshesLogged(log, was, already - todo, dict, now)
    ensures u in realms && u in was && realms[u] == was[u] && u in dict && dict[u].uuid == u
    ensures AllSet(was[u].attrs) && AllSet(dict[u].attrs) && CanRefresh(was, already - todo + {u}, dict)
    ensures RefreshedOnly(was, realms[u := Refreshed(was[u], dict[u])], already - todo + {u}, dict)
    ensures RefreshesLogged(log + Changes(was[u], dict[u], now), was, already - todo + {u}, dict, now)
  {
    hide AllSet, EntriesOf, Changes, Refreshed;
    ChangesAbout(was[u], dict[u], now);
    AppendedFor(log, Changes(was[u], dict[u], now), u);
  }

  /** Marking one more realm, or finding it marked. */
  lemma MarkNext(was: Realms, realms: Realms, log: seq<Entry>, missing: set<int>, todo: set<int>, now: int, u: int)
    requires missing <= was.Keys && todo <= missing && u in todo
    requires MarkedOnly(was, realms, missing - todo) && MarksLogged(log, was, missing - todo, now)
    ensures u in realms && realms[u] == was[u]
    ensures MarkedOnly(was, if was[u].locallyDeleted then realms else realms[u := was[u].(locallyDeleted := true)],
              missing - todo + {u})
    ensures MarksLogged(if was[u].locallyDeleted then log else log + [LocallyDeleted(u, now)], was,
              missing - todo + {u}, now)
  {
    hide EntriesOf;
    AppendedFor(log, [LocallyDeleted(u, now)], u);
  }

  class Registry {
    var realms: Realms
    var audit: seq<Entry>

    constructor ()
      ensures realms == map[] && audit == []
    {
      realms, audit := map[], [];
    }

    /** The new RemoteRealm rows; false is an IntegrityError on a uuid that is already taken. */
    method CreateNew(server: int, reported: seq<Reported>, already: set<int>) returns (ok: bool)
      requires forall u :: u in already <==> Registered(realms, server, u) && Mentioned(reported, u)
      modifies this`realms
      ensures ok <==> !Duplicate(old(realms), server, reported)
      ensures realms == if ok then Created(old(realms), server, reported) else old(realms)
    {
      hide Duplicate, Registered, Mentioned, ByUuid, DuplicateAt;
      DuplicateIs(realms, server, reported);
      var created := realms;
      var i := 0;
      CreatedNone(realms, server, reported);
      while i < |reported|
        invariant 0 <= i <= |reported| && realms == old(realms)
        invariant created == Created(realms, server, reported[..i])
        invariant forall j: nat :: j < i ==> !DuplicateAt(realms, server, reported, j)
      {
        CreatedNext(realms, server, reported, i);
        TakenIs(realms, server, reported, i);
        if reported[i].uuid !in already {
          if reported[i].uuid in created {
            return false;
          }
          created := created[reported[i].uuid := NewRealm(server, reported[i])];
        }
        i := i + 1;
      }
      assert reported[..i] == reported;
      realms := created;
      ok := true;
    }

    /** Compares and copies the attributes of one registered realm. */
    method RefreshRealm(u: int, r: Reported, now: int)
      requires u in realms && r.uuid == u && AllSet(realms[u].attrs) && AllSet(r.attrs)
      modifies this
      ensures realms == old(realms)[u := Refreshed(old(realms)[u], r)]
      ensures audit == old(audit) + Changes(old(realms)[u], r, now)
    {
      hide AllSet, Copied, Updates;
      ghost var was := realms[u].attrs;
      NoAttribute(was, r, now);
      var i := 0;
      while i < |ATTRIBUTES|
        invariant 0 <= i <= |ATTRIBUTES|
        invariant realms == old(realms)[u := old(realms)[u].(attrs := Copied(was, r.attrs, i))]
        invariant audit == old(audit) + Updates(was, r, now, i)
      {
        var attr := ATTRIBUTES[i];
        NextAttribute(was, r, now, i);
        var oldValue, newValue := realms[u].attrs[attr], r.attrs[attr];
        if oldValue != newValue {
          realms := realms[u := realms[u].(attrs := realms[u].attrs[attr := newValue])];
          audit := audit + [ValueUpdated(u, r.id, attr, oldValue, newValue, now)];
        }
        i := i + 1;
      }
      CopiedAll(was, r.attrs);
      if realms[u].locallyDeleted {
        realms := realms[u := realms[u].(locallyDeleted := false)];
        audit := audit + [LocallyDeletedRestored(u, r.id, now)];
      }
    }

    /** The registered realms that were reported, in any order. */
    method RefreshAll(already: set<int>, dict: map<int, Reported>, now: int)
      requires CanRefresh(realms, already, dict)
      modifies this
      ensures RefreshedOnly(old(realms), realms, already, dict)
      ensures old(audit) <= audit && RefreshesLogged(audit[|old(audit)|..], old(realms), already, dict, now)
    {
      hide RefreshedOnly, RefreshesLogged, AllSet, Refreshed, Changes;
      ghost var was, log := realms, audit;
      var todo := already;
      assert audit[|log|..] == [];
      NothingRefreshed(was, already, dict, now);
      while todo != {}
        invariant todo <= already && log <= audit
        invariant RefreshedOnly(was, realms, already - todo, dict)
        invariant RefreshesLogged(audit[|log|..], was, already - todo, dict, now)
        decreases |todo|
      {
        ghost var some := Sums.SomeElement(todo);
        var u :| u in todo;
        ghost var sofar := audit[|log|..];
        RefreshNext(was, realms, sofar, already, todo, dict, now, u);
        RefreshRealm(u, dict[u], now);
        assert audit[|log|..] == sofar + Changes(was[u], dict[u], now);
        assert already - (todo - {u}) == already - todo + {u};
        todo := todo - {u};
      }
      assert already - todo == already;
    }

    /** The registered realms that were not reported, in any order. */
    method MarkMissing(missing: set<int>, now: int)
      requires missing <= realms.Keys
      modifies this
      ensures MarkedOnly(old(realms), realms, missing)
      ensures old(audit) <= audit && MarksLogged(audit[|old(audit)|..], old(realms), missing, now)
    {
      hide MarkedOnly, MarksLogged;
      ghost var was, log := realms, audit;
      var todo := missing;
      assert audit[|log|..] == [];
      NothingMarked(was, missing, now);
      while todo != {}
        invariant todo <= missing && log <= audit
        invariant MarkedOnly(was, realms, missing - todo)
        invariant MarksLogged(audit[|log|..], was, missing - todo, now)
        decreases |todo|
      {
        ghost var some := Sums.SomeElement(todo);
        var u :| u in todo;
        ghost var sofar := audit[|log|..];
        MarkNext(was, realms, sofar, missing, todo, now, u);
        if !realms[u].locallyDeleted {
          realms := realms[u := realms[u].(locallyDeleted := true)];
          audit := audit + [LocallyDeleted(u, now)];
          assert audit[|log|..] == sofar + [LocallyDeleted(u, now)];
        }
        assert missing - (todo - {u}) == missing - todo + {u};
        todo := todo - {u};
      }
      assert missing - todo == missing;
    }

    /** update_remote_realm_data_for_server: reconciles and logs, or refuses and leaves everything as it was. */
    method UpdateRemoteRealmDataForServer(server: int, reported: seq<Reported>, now: int) returns (error: Option<Error>)
      requires WellFormed(realms, reported)
      modifies this
      ensures error == if Duplicate(old(realms), server, reported) then Some(DuplicateRegistration) else None
      ensures error.Some? ==> realms == old(realms) && audit == old(audit)
      ensures error.None? ==> IsReconciled(old(realms), realms, server, reported)
      ensures error.None? ==> old(audit) <= audit
      ensures error.None? ==>
                forall u :: EntriesOf(audit[|old(audit)|..], u) == Logged(old(realms), server, reported, now, u)
    {
      hide *;
      ghost var was, log := realms, audit;
      var all := RegisteredTo(realms, server);
      var already := ReportedAmong(all, reported);
      var missing := all - already;
      SplitIs(realms, server, reported);
      var ok := CreateNew(server, reported, already);
      if !ok {
        return Some(DuplicateRegistration);
      }
      var dict := ByUuid(reported);
      ghost var created := realms;
      CanRefreshReported(was, server, reported, already, missing);
      RefreshAll(already, dict, now);
      ghost var refreshed, first := realms, audit[|log|..];
      StillThere(created, refreshed, already, dict);
      MarkMissing(missing, now);
      assert audit[|log|..] == first + audit[|log| + |first|..];
      LogInParts(was, created, refreshed, server, reported, already, missing, now, first, audit[|log| + |first|..]);
      ReconciledInParts(was, created, refreshed, realms, server, reported, already, missing);
      error := None;
    }
  }

  function RegisteredTo(realms: Realms, server: int): set<int> {
    set u | u in realms && Registered(realms, server, u)
  }

  function ReportedAmong(all: set<int>, reported: seq<Reported>): set<int> {
    set u | u in all && Mentioned(reported, u)
  }

  lemma SplitIs(was: Realms, server: int, reported: seq<Reported>)
    ensures Split(was, server, reported, ReportedAmong(RegisteredTo(was, server), reported),
                  RegisteredTo(was, server) - ReportedAmong(RegisteredTo(was, server), reported))
    ensures forall u :: u in ReportedAmong(RegisteredTo(was, server), reported) <==>
              Registered(was, server, u) && Mentioned(reported, u)
  {}

  lemma CanRefreshReported(was: Realms, server: int, reported: seq<Reported>, already: set<int>, missing: set<int>)
    requires WellFormed(was, reported) && Split(was, server, reported, already, missing)
    ensures CanRefresh(Created(was, server, reported), already, ByUuid(reported))
    ensures already <= Created(was, server, reported).Keys && already <= ByUuid(reported).Keys
    ensures missing <= Created(was, server, reported).Keys
  {
    AboutCreated(was, server, reported);
    forall u | u in already ensures u in was && u in ByUuid(reported) {}
    forall u | u in missing ensures u in was {}
  }

  lemma StillThere(was: Realms, now: Realms, done: set<int>, dict: map<int, Reported>)
    requires done <= was.Keys && done <= dict.Keys && RefreshedOnly(was, now, done, dict)
    ensures now.Keys == was.Keys
  {}

  lemma AboutCreated(was: Realms, server: int, reported: seq<Reported>)
    requires WellFormed(was, reported)
    ensures was.Keys <= Created(was, server, reported).Keys
    ensures forall u :: u in was ==> Created(was, server, reported)[u] == was[u]
    ensures forall u :: u in ByUuid(reported) ==> AllSet(ByUuid(reported)[u].attrs)
  {}

  ghost predicate Split(was: Realms, server: int, reported: seq<Reported>, already: set<int>, missing: set<int>) {
    && (forall u :: u in already <==> Registered(was, server, u) && Mentioned(reported, u))
    && (forall u :: u in missing <==> Registered(was, server, u) && !Mentioned(reported, u))
  }

  /** Creating, refreshing and marking together reconcile. */
  lemma ReconciledInParts(was: Realms, created: Realms, refreshed: Realms, now: Realms, server: int,
                          reported: seq<Reported>,
                          already: set<int>, missing: set<int>)
    requires Split(was, server, reported, already, missing) && created == Created(was, server, reported)
    requires already <= created.Keys && already <= ByUuid(reported).Keys
    requires RefreshedOnly(created, refreshed, already, ByUuid(reported)) && MarkedOnly(refreshed, now, missing)
    ensures IsReconciled(was, now, server, reported)
  {
    forall u ensures ReconciledRealm(was, server, reported, u) == if u in now then Some(now[u]) else None {
      assert u in ByUuid(reported) <==> Mentioned(reported, u);
    }
  }

  lemma LoggedInParts(was: Realms, created: Realms, refreshed: Realms, server: int, reported: seq<Reported>,
                      already: set<int>, missing: set<int>, time: int, u: int)
    requires WellFormed(was, reported) && Split(was, server, reported, already, missing)
    requires u in was ==> u in created && created[u] == was[u]
    requires u in created && u !in already ==> u in refreshed && refreshed[u] == created[u]
    ensures u in missing ==> u in refreshed
    ensures u in already ==>
              u in was && AllSet(was[u].attrs) && u in ByUuid(reported) && AllSet(ByUuid(reported)[u].attrs)
    ensures Logged(was, server, reported, time, u)
         == (if u in already then Changes(was[u], ByUuid(reported)[u], time) else [])
          + (if u in missing && !refreshed[u].locallyDeleted then [LocallyDeleted(u, time)] else [])
  {
    assert u in ByUuid(reported) <==> Mentioned(reported, u);
  }

  lemma LogInParts(was: Realms, created: Realms, refreshed: Realms, server: int, reported: seq<Reported>,
                   already: set<int>, missing: set<int>, time: int, first: seq<Entry>, second: seq<Entry>)
    requires WellFormed(was, reported) && Split(was, server, reported, already, missing)
    requires created == Created(was, server, reported)
    requires CanRefresh(created, already, ByUuid(reported))
    requires RefreshedOnly(created, refreshed, already, ByUuid(reported))
    requires missing <= refreshed.Keys
    requires RefreshesLogged(first, created, already, ByUuid(reported), time)
    requires MarksLogged(second, refreshed, missing, time)
    ensures forall u :: EntriesOf(first + second, u) == Logged(was, server, reported, time, u)
  {
    hide EntriesOf, AllSet, Changes, Logged, WellFormed, Split, ByUuid;
    AboutCreated(was, server, reported);
    forall u ensures EntriesOf(first + second, u) == Logged(was, server, reported, time, u) {
      EntriesOfAppended(first, second, u);
      LoggedInParts(was, created, refreshed, server, reported, already, missing, time, u);
    }
  }

  lemma CreatedNone(was: Realms, server: int, reported: seq<Reported>)
    ensures Created(was, server, reported[..0]) == was
  {
    assert ByUuid(reported[..0]) == map[];
  }

  /** When creating a registration for report i fails. */
  lemma TakenIs(was: Realms, server: int, reported: seq<Reported>, i: nat)
    requires i < |reported|
    ensures Mentioned(reported, reported[i].uuid)
    ensures DuplicateAt(was, server, reported, i)
       <==> !Registered(was, server, reported[i].uuid) && reported[i].uuid in Created(was, server, reported[..i])
    ensures Registered(was, server, reported[i].uuid) ==> reported[i].uuid in was
    ensures reported[i].uuid in was ==> reported[i].uuid in Created(was, server, reported[..i])
  {}

  lemma ChangesAbout(realm: RemoteRealm, r: Reported, time: int)
    requires AllSet(realm.attrs) && AllSet(r.attrs)
    ensures forall e :: e in Changes(realm, r, time) ==> e.uuid == r.uuid
  {
    UpdatesAbout(realm.attrs, r, time, |ATTRIBUTES|);
  }
}
