/**
 Reconciling the realms a remote server reports with those registered for it, and the audit
 log of every change.
 */
module RealmReconcile {
  import opened Options

  /** The attributes that are synced, by the name of the bouncer's column. */
  datatype Attr = Host | OrgType | Name | AuthenticationMethods | RealmDeactivated | IsSystemBotRealm

  datatype Value = Text(text: string) | Number(number: int) | Flag(flag: bool) | Methods(methods: map<string, bool>)

  type Attributes = map<Attr, Value>

  /** The order in which update_remote_realm_data_for_server compares them. */
  const ATTRIBUTES := [Host, OrgType, Name, AuthenticationMethods, RealmDeactivated, IsSystemBotRealm]

  predicate AllSet(a: Attributes) {
    forall i :: 0 <= i < |ATTRIBUTES| ==> ATTRIBUTES[i] in a
  }

  datatype RemoteRealm = RemoteRealm(server: int, attrs: Attributes, locallyDeleted: bool, secret: string, created: int)

  type Realms = map<int, RemoteRealm>

  /** RealmDataForAnalytics: id is the realm's id on the remote server. */
  datatype Reported = Reported(id: int, uuid: int, attrs: Attributes, secret: string, created: int)

  datatype Entry =
    | ValueUpdated(uuid: int, realmId: int, attr: Attr, oldValue: Value, newValue: Value, time: int)
    | LocallyDeletedRestored(uuid: int, realmId: int, time: int)
    | LocallyDeleted(uuid: int, time: int)

  datatype Error = DuplicateRegistration

  predicate Mentioned(reported: seq<Reported>, u: int) {
    exists i :: 0 <= i < |reported| && reported[i].uuid == u
  }

  /** uuid_to_realm_dict: of several reports of one uuid the last counts. */
  function ByUuid(reported: seq<Reported>): (dict: map<int, Reported>)
    ensures forall u :: u in dict <==> Mentioned(reported, u)
    ensures forall u :: u in dict ==> dict[u] in reported && dict[u].uuid == u
    decreases |reported|
  {
    if reported == [] then map[]
    else
      var front, last := reported[..|reported| - 1], reported[|reported| - 1];
      assert forall i :: 0 <= i < |front| ==> front[i] == reported[i];
      assert reported[|front|] == last;
      ByUuid(front)[last.uuid := last]
  }

  predicate Registered(realms: Realms, server: int, u: int) {
    u in realms && realms[u].server == server
  }

  // ------------------------------------------------------- one realm's changes

  /** The attributes after the first n have been compared and copied. */
  ghost function Copied(was: Attributes, now: Attributes, n: nat): Attributes
    requires AllSet(was) && AllSet(now) && n <= |ATTRIBUTES|
    ensures AllSet(Copied(was, now, n))
    decreases n
  {
    if n == 0 then was else Copied(was, now, n - 1)[ATTRIBUTES[n - 1] := now[ATTRIBUTES[n - 1]]]
  }

  /** What that writes into the audit log. */
  ghost function Updates(was: Attributes, r: Reported, time: int, n: nat): seq<Entry>
    requires AllSet(was) && AllSet(r.attrs) && n <= |ATTRIBUTES|
    decreases n
  {
    if n == 0 then []
    else
      var attr := ATTRIBUTES[n - 1];
      Updates(was, r, time, n - 1)
      + if was[attr] == r.attrs[attr] then [] else [ValueUpdated(r.uuid, r.id, attr, was[attr], r.attrs[attr], time)]
  }

  ghost function Refreshed(realm: RemoteRealm, r: Reported): RemoteRealm {
    realm.(attrs := r.attrs, locallyDeleted := false)
  }

  /** The audit entries for a registered realm that was reported. */
  ghost function Changes(realm: RemoteRealm, r: Reported, time: int): seq<Entry>
    requires AllSet(realm.attrs) && AllSet(r.attrs)
  {
    Updates(realm.attrs, r, time, |ATTRIBUTES|)
    + if realm.locallyDeleted then [LocallyDeletedRestored(r.uuid, r.id, time)] else []
  }

  // ------------------------------------------------------ the whole reconciliation

  /** A reported uuid that is new to this server but registered elsewhere, or reported twice. */
  ghost predicate Duplicate(realms: Realms, server: int, reported: seq<Reported>) {
    exists i :: 0 <= i < |reported| && !Registered(realms, server, reported[i].uuid)
      && (reported[i].uuid in realms || Mentioned(reported[..i], reported[i].uuid))
  }

  /** The registration made for a uuid that has none. */
  function NewRealm(server: int, r: Reported): RemoteRealm {
    RemoteRealm(server, r.attrs, false, r.secret, r.created)
  }

  ghost function ReconciledRealm(realms: Realms, server: int, reported: seq<Reported>, u: int): Option<RemoteRealm> {
    var dict := ByUuid(reported);
    if u !in realms then
      if u in dict then Some(NewRealm(server, dict[u])) else None
    else if realms[u].server != server then Some(realms[u])
    else if u in dict then Some(Refreshed(realms[u], dict[u]))
    else Some(realms[u].(locallyDeleted := true))
  }

  ghost predicate IsReconciled(was: Realms, now: Realms, server: int, reported: seq<Reported>) {
    forall u :: ReconciledRealm(was, server, reported, u) == if u in now then Some(now[u]) else None
  }

  /** The audit entries of one uuid. */
  ghost function Logged(was: Realms, server: int, reported: seq<Reported>, time: int, u: int): seq<Entry>
    requires WellFormed(was, reported)
  {
    var dict := ByUuid(reported);
    if !Registered(was, server, u) then []
    else if u in dict then Changes(was[u], dict[u], time)
    else if was[u].locallyDeleted then []
    else [LocallyDeleted(u, time)]
  }

  ghost predicate WellFormed(realms: Realms, reported: seq<Reported>) {
    && (forall u :: u in realms ==> AllSet(realms[u].attrs))
    && (forall r :: r in reported ==> AllSet(r.attrs))
  }

  ghost function EntriesOf(log: seq<Entry>, u: int): seq<Entry>
    decreases |log|
  {
    if log == [] then []
    else EntriesOf(log[..|log| - 1], u) + if log[|log| - 1].uuid == u then [log[|log| - 1]] else []
  }

  lemma {:induction false} EntriesOfAppended(a: seq<Entry>, b: seq<Entry>, u: int)
    ensures EntriesOf(a + b, u) == EntriesOf(a, u) + EntriesOf(b, u)
    decreases |b|
  {
    if b == [] {
      assert a + b == a;
    } else {
      assert (a + b)[..|a + b| - 1] == a + b[..|b| - 1];
      EntriesOfAppended(a, b[..|b| - 1], u);
    }
  }

  lemma {:induction false} EntriesOfOne(log: seq<Entry>, v: int, u: int)
    requires forall e :: e in log ==> e.uuid == v
    ensures EntriesOf(log, u) == if u == v then log else []
    decreases |log|
  {
    if log != [] {
      EntriesOfOne(log[..|log| - 1], v, u);
    }
  }

  lemma {:induction false} UpdatesAbout(was: Attributes, r: Reported, time: int, n: nat)
    requires AllSet(was) && AllSet(r.attrs) && n <= |ATTRIBUTES|
    ensures forall e :: e in Updates(was, r, time, n) ==> e.uuid == r.uuid
    decreases n
  {
    if n > 0 { UpdatesAbout(was, r, time, n - 1); }
  }

  lemma AppendedFor(log: seq<Entry>, more: seq<Entry>, v: int)
    requires forall e :: e in more ==> e.uuid == v
    ensures forall u :: EntriesOf(log + more, u) == EntriesOf(log, u) + if u == v then more else []
  {
    forall u ensures EntriesOf(log + more, u) == EntriesOf(log, u) + if u == v then more else [] {
      EntriesOfAppended(log, more, u);
      EntriesOfOne(more, v, u);
    }
  }

  // --------------------------------------------------------------- what it means

  lemma AttributesDistinct(i: nat, j: nat)
    requires i < |ATTRIBUTES| && j < |ATTRIBUTES| && ATTRIBUTES[i] == ATTRIBUTES[j]
    ensures i == j
  {}

  lemma {:induction false} CopiedAt(was: Attributes, now: Attributes, n: nat, i: nat)
    requires AllSet(was) && AllSet(now) && n <= |ATTRIBUTES| && i < |ATTRIBUTES|
    ensures Copied(was, now, n)[ATTRIBUTES[i]] == if i < n then now[ATTRIBUTES[i]] else was[ATTRIBUTES[i]]
    decreases n
  {
    if n > 0 {
      CopiedAt(was, now, n - 1, i);
      if ATTRIBUTES[i] == ATTRIBUTES[n - 1] { AttributesDistinct(i, n - 1); }
    }
  }

  lemma CopiedAll(was: Attributes, now: Attributes)
    requires AllSet(was) && AllSet(now)
    ensures Copied(was, now, |ATTRIBUTES|) == now
  {
    forall a: Attr
      ensures a in Copied(was, now, |ATTRIBUTES|) && a in now && Copied(was, now, |ATTRIBUTES|)[a] == now[a]
    {
      var i := match a
        case Host => 0 case OrgType => 1 case Name => 2
        case AuthenticationMethods => 3 case RealmDeactivated => 4 case IsSystemBotRealm => 5;
      assert ATTRIBUTES[i] == a;
      CopiedAt(was, now, |ATTRIBUTES|, i);
    }
  }

  /** What the audit log is about: the attributes of a realm and whether it is marked deleted. */
  datatype Recorded = Recorded(attrs: Attributes, locallyDeleted: bool)

  function RecordOf(realm: RemoteRealm): Recorded {
    Recorded(realm.attrs, realm.locallyDeleted)
  }

  /** Replaying audit entries; None if an entry does not apply to what it finds. */
  ghost function Replay(was: Recorded, log: seq<Entry>): Option<Recorded>
    decreases |log|
  {
    if log == [] then Some(was)
    else
      var before := Replay(was, log[..|log| - 1]);
      if before.None? then None
      else
        match log[|log| - 1]
        case ValueUpdated(_, _, attr, oldValue, newValue, _) =>
          if attr in before.value.attrs && before.value.attrs[attr] == oldValue
          then Some(before.value.(attrs := before.value.attrs[attr := newValue])) else None
        case LocallyDeletedRestored(_, _, _) =>
          if before.value.locallyDeleted then Some(before.value.(locallyDeleted := false)) else None
        case LocallyDeleted(_, _) =>
          if before.value.locallyDeleted then None else Some(before.value.(locallyDeleted := true))
  }

  lemma {:induction false} ReplayUpdates(was: Attributes, deleted: bool, r: Reported, time: int, n: nat)
    requires AllSet(was) && AllSet(r.attrs) && n <= |ATTRIBUTES|
    ensures Replay(Recorded(was, deleted), Updates(was, r, time, n)) == Some(Recorded(Copied(was, r.attrs, n), deleted))
    decreases n
  {
    hide AllSet, Copied, Updates;
    if n == 0 {
      NoAttribute(was, r, time);
    } else {
      var log := Updates(was, r, time, n - 1);
      ReplayUpdates(was, deleted, r, time, n - 1);
      NextAttribute(was, r, time, n - 1);
      assert log + [] == log;
      if was[ATTRIBUTES[n - 1]] != r.attrs[ATTRIBUTES[n - 1]] {
        var e := Updates(was, r, time, n)[|log|];
        assert (log + [e])[..|log|] == log;
      }
    }
  }

  lemma HasAttribute(attrs: Attributes, i: nat)
    requires AllSet(attrs) && i < |ATTRIBUTES|
    ensures ATTRIBUTES[i] in attrs
  {}

  lemma NoAttribute(was: Attributes, r: Reported, now: int)
    requires AllSet(was) && AllSet(r.attrs)
    ensures Copied(was, r.attrs, 0) == was && Updates(was, r, now, 0) == []
  {}

  /** Comparing one more attribute. */
  lemma NextAttribute(was: Attributes, r: Reported, now: int, i: nat)
    requires AllSet(was) && AllSet(r.attrs) && i < |ATTRIBUTES|
    ensures ATTRIBUTES[i] in was && ATTRIBUTES[i] in r.attrs
    ensures ATTRIBUTES[i] in Copied(was, r.attrs, i) && Copied(was, r.attrs, i)[ATTRIBUTES[i]] == was[ATTRIBUTES[i]]
    ensures Copied(was, r.attrs, i + 1)
         == if was[ATTRIBUTES[i]] == r.attrs[ATTRIBUTES[i]] then Copied(was, r.attrs, i)
            else Copied(was, r.attrs, i)[ATTRIBUTES[i] := r.attrs[ATTRIBUTES[i]]]
    ensures var a := ATTRIBUTES[i];
            Updates(was, r, now, i + 1) == Updates(was, r, now, i)
              + if was[a] == r.attrs[a] then [] else [ValueUpdated(r.uuid, r.id, a, was[a], r.attrs[a], now)]
  {
    HasAttribute(was, i);
    HasAttribute(r.attrs, i);
    CopiedAt(was, r.attrs, i, i);
  }

  lemma ReplayOne(was: Recorded, log: seq<Entry>, e: Entry)
    requires Replay(was, log).Some?
    ensures e.LocallyDeletedRestored? && Replay(was, log).value.locallyDeleted ==>
              Replay(was, log + [e]) == Some(Replay(was, log).value.(locallyDeleted := false))
    ensures e.LocallyDeleted? && !Replay(was, log).value.locallyDeleted ==>
              Replay(was, log + [e]) == Some(Replay(was, log).value.(locallyDeleted := true))
  {
    assert (log + [e])[..|log|] == log;
  }

  /** Log replay: the entries a run writes for a realm turn its old attributes and deletion mark into
      the new ones, each starting from the value it says it found. */
  lemma LogReplays(was: Realms, now: Realms, server: int, reported: seq<Reported>, time: int, u: int)
    requires WellFormed(was, reported) && IsReconciled(was, now, server, reported) && u in was
    ensures u in now && Replay(RecordOf(was[u]), Logged(was, server, reported, time, u)) == Some(RecordOf(now[u]))
  {
    hide Replay;
    var dict := ByUuid(reported);
    assert ReconciledRealm(was, server, reported, u).Some?;
    ReplayNothing(RecordOf(was[u]));
    if Registered(was, server, u) {
      if u in dict {
        var updates := Updates(was[u].attrs, dict[u], time, |ATTRIBUTES|);
        ReplayUpdates(was[u].attrs, was[u].locallyDeleted, dict[u], time, |ATTRIBUTES|);
        CopiedAll(was[u].attrs, dict[u].attrs);
        if was[u].locallyDeleted {
          ReplayOne(RecordOf(was[u]), updates, LocallyDeletedRestored(dict[u].uuid, dict[u].id, time));
        } else {
          assert updates + [] == updates;
        }
      } else if !was[u].locallyDeleted {
        ReplayOne(RecordOf(was[u]), [], LocallyDeleted(u, time));
        assert [] + [LocallyDeleted(u, time)] == [LocallyDeleted(u, time)];
      }
    }
  }

  lemma ReplayNothing(was: Recorded)
    ensures Replay(was, []) == Some(was)
  {}

  lemma {:induction false} NoUpdates(r: Reported, time: int, n: nat)
    requires AllSet(r.attrs) && n <= |ATTRIBUTES|
    ensures Updates(r.attrs, r, time, n) == []
    decreases n
  {
    if n > 0 { NoUpdates(r, time, n - 1); }
  }

  /** A second, identical run is not refused, changes nothing and logs nothing. */
  lemma SecondRunIsIdle(was: Realms, now: Realms, server: int, reported: seq<Reported>, time: int)
    requires WellFormed(was, reported) && IsReconciled(was, now, server, reported) && !Duplicate(was, server, reported)
    ensures WellFormed(now, reported) && !Duplicate(now, server, reported)
    ensures IsReconciled(now, now, server, reported)
    ensures forall u :: Logged(now, server, reported, time, u) == []
  {
    var dict := ByUuid(reported);
    forall u | u in now ensures AllSet(now[u].attrs) {
      assert ReconciledRealm(was, server, reported, u).Some?;
    }
    forall i | 0 <= i < |reported| ensures Registered(now, server, reported[i].uuid) {
      ReportedIsRegistered(was, now, server, reported, reported[i].uuid);
    }
    forall u ensures ReconciledRealm(now, server, reported, u) == if u in now then Some(now[u]) else None {
      assert ReconciledRealm(was, server, reported, u) == if u in now then Some(now[u]) else None;
      if u in dict { ReportedIsRegistered(was, now, server, reported, u); }
    }
    forall u ensures Logged(now, server, reported, time, u) == [] {
      assert ReconciledRealm(was, server, reported, u) == if u in now then Some(now[u]) else None;
      if Registered(now, server, u) && u in dict {
        ReportedIsRegistered(was, now, server, reported, u);
        NoUpdates(dict[u], time, |ATTRIBUTES|);
      }
    }
  }

  /** Every reported uuid ends up registered to this server with the reported attributes. */
  lemma ReportedIsRegistered(was: Realms, now: Realms, server: int, reported: seq<Reported>, u: int)
    requires IsReconciled(was, now, server, reported) && !Duplicate(was, server, reported) && Mentioned(reported, u)
    ensures Registered(now, server, u) && !now[u].locallyDeleted && now[u].attrs == ByUuid(reported)[u].attrs
  {
    assert u in ByUuid(reported);
    assert ReconciledRealm(was, server, reported, u) == if u in now then Some(now[u]) else None;
    var i :| 0 <= i < |reported| && reported[i].uuid == u;
    assert !Registered(was, server, reported[i].uuid) ==> reported[i].uuid !in was;
  }

  /** The report at i is the last one of its uuid. */
  predicate LastOfUuid(reported: seq<Reported>, i: nat) {
    i < |reported| && forall j :: i < j < |reported| ==> reported[j].uuid != reported[i].uuid
  }

  lemma {:induction false} ByUuidOfLast(reported: seq<Reported>, i: nat)
    requires LastOfUuid(reported, i)
    ensures reported[i].uuid in ByUuid(reported) && ByUuid(reported)[reported[i].uuid] == reported[i]
    decreases |reported|
  {
    var front := reported[..|reported| - 1];
    if i < |front| {
      assert forall j :: i < j < |front| ==> front[j] == reported[j];
      ByUuidOfLast(front, i);
      assert reported[|front|].uuid != reported[i].uuid;
    }
  }

  /** Realm reconciliation: after a successful run every reported realm is registered to this server with
      exactly the attributes reported last and not marked deleted, a new one also with the secret and
      creation time reported; every other realm of the server is marked deleted; realms of other servers
      are as before, and no realm changes its server, secret or creation time. */
  lemma Reconciliation(was: Realms, now: Realms, server: int, reported: seq<Reported>)
    requires IsReconciled(was, now, server, reported) && !Duplicate(was, server, reported)
    ensures forall i: nat :: LastOfUuid(reported, i) ==>
              && Registered(now, server, reported[i].uuid)
              && now[reported[i].uuid].attrs == reported[i].attrs && !now[reported[i].uuid].locallyDeleted
              && (reported[i].uuid !in was ==>
                    now[reported[i].uuid].secret == reported[i].secret
                    && now[reported[i].uuid].created == reported[i].created)
    ensures forall u :: Registered(now, server, u) && !Mentioned(reported, u) ==>
              u in was && now[u].locallyDeleted && now[u].attrs == was[u].attrs
    ensures forall u :: u in was && was[u].server != server ==> u in now && now[u] == was[u]
    ensures forall u :: u in was ==>
              && u in now && now[u].server == was[u].server
              && now[u].secret == was[u].secret && now[u].created == was[u].created
    ensures forall u :: u in now && u !in was ==> Mentioned(reported, u)
  {
    forall i: nat | LastOfUuid(reported, i)
      ensures Registered(now, server, reported[i].uuid)
      ensures now[reported[i].uuid].attrs == reported[i].attrs && !now[reported[i].uuid].locallyDeleted
      ensures reported[i].uuid !in was ==>
                now[reported[i].uuid].secret == reported[i].secret
                && now[reported[i].uuid].created == reported[i].created
    {
      var u := reported[i].uuid;
      assert Mentioned(reported, u);
      ReportedIsRegistered(was, now, server, reported, u);
      ByUuidOfLast(reported, i);
      assert ReconciledRealm(was, server, reported, u) == if u in now then Some(now[u]) else None;
    }
    forall u ensures ReconciledRealm(was, server, reported, u) == if u in now then Some(now[u]) else None {}
  }

  // --------------------------------------------------------------------- lookup

  /** build_realm_id_to_remote_realm_dict: None is a KeyError. */
  function RealmIds(realms: Realms, server: int, reported: seq<Reported>): Option<map<int, int>>
    decreases |reported|
  {
    if reported == [] then Some(map[])
    else
      var front := RealmIds(realms, server, reported[..|reported| - 1]);
      var r := reported[|reported| - 1];
      if front.None? || !Registered(realms, server, r.uuid) then None else Some(front.value[r.id := r.uuid])
  }

  /** The report at i is the last one for its realm id. */
  predicate LastWithId(reported: seq<Reported>, i: nat) {
    i < |reported| && forall j :: i < j < |reported| ==> reported[j].id != reported[i].id
  }

  /** The lookup exists exactly if every reported uuid is registered to the server; it has exactly the
      reported ids, each with the uuid it was reported with last. */
  lemma {:induction false} LookupIs(realms: Realms, server: int, reported: seq<Reported>)
    ensures RealmIds(realms, server, reported).Some?
         <==> forall i :: 0 <= i < |reported| ==> Registered(realms, server, reported[i].uuid)
    ensures RealmIds(realms, server, reported).Some? ==>
              forall k :: k in RealmIds(realms, server, reported).value <==>
                (exists i: nat :: LastWithId(reported, i) && reported[i].id == k)
    ensures RealmIds(realms, server, reported).Some? ==>
              forall i: nat :: LastWithId(reported, i) ==>
                && reported[i].id in RealmIds(realms, server, reported).value
                && RealmIds(realms, server, reported).value[reported[i].id] == reported[i].uuid
    decreases |reported|
  {
    if reported != [] {
      var front, n := reported[..|reported| - 1], |reported| - 1;
      LookupIs(realms, server, front);
      assert reported == front + [reported[n]];
      assert LastWithId(reported, n);
      forall i: nat | i < n
        ensures LastWithId(reported, i) <==> LastWithId(front, i) && front[i].id != reported[n].id
      {
        assert reported[i] == front[i];
        if LastWithId(front, i) && front[i].id != reported[n].id {
          forall j | i < j < |reported| ensures reported[j].id != reported[i].id {
            if j < n { assert front[j] == reported[j]; }
          }
        }
        if LastWithId(reported, i) {
          forall j | i < j < |front| ensures front[j].id != front[i].id { assert front[j] == reported[j]; }
        }
      }
      forall i: nat | LastWithId(front, i) && front[i].id != reported[n].id ensures LastWithId(reported, i) {}
    }
  }

  /** With distinct ids every report is the last one for its id. */
  lemma LookupOfDistinct(realms: Realms, server: int, reported: seq<Reported>, i: nat)
    requires forall j, k :: 0 <= j < k < |reported| ==> reported[j].id != reported[k].id
    requires RealmIds(realms, server, reported).Some? && i < |reported|
    ensures reported[i].id in RealmIds(realms, server, reported).value
    ensures RealmIds(realms, server, reported).value[reported[i].id] == reported[i].uuid
  {
    LookupIs(realms, server, reported);
    assert LastWithId(reported, i);
  }

  /** After a successful run the lookup by realm id that follows cannot fail. */
  lemma LookupIsTotal(was: Realms, now: Realms, server: int, reported: seq<Reported>)
    requires IsReconciled(was, now, server, reported) && !Duplicate(was, server, reported)
    ensures RealmIds(now, server, reported).Some?
    ensures forall i: nat :: LastWithId(reported, i) ==>
              && reported[i].id in RealmIds(now, server, reported).value
              && RealmIds(now, server, reported).value[reported[i].id] == reported[i].uuid
  {
    forall i | 0 <= i < |reported| ensures Registered(now, server, reported[i].uuid) {
      assert Mentioned(reported, reported[i].uuid);
      ReportedIsRegistered(was, now, server, reported, reported[i].uuid);
    }
    LookupIs(now, server, reported);
  }
}
