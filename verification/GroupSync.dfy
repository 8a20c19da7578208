/**
 Turning an identity provider's group list into group memberships, at login and at signup.

 A group is identified by its name, which is unique within a realm.
 */
module GroupSync {
  import opened Options
  import Sums

  datatype Group = Group(isSystem: bool, deactivated: bool)

  type Groups = map<string, Group>

  /** SystemGroups.GROUP_DISPLAY_NAME_MAP. */
  predicate IsSystemName(name: string) {
    name in ["role:nobody", "role:owners", "role:administrators", "role:moderators", "role:fullmembers",
             "role:members", "role:everyone", "role:internet"]
  }

  /** An entry of the "groups" setting: a name, or an external name and the name it stands for. */
  datatype Item = Plain(name: string) | Renamed(external: string, zulip: string)

  /** The "groups" setting, an empty list when it is missing; "*" is AllGroups. */
  datatype Config = Listed(items: seq<Item>) | AllGroups

  // ---------------------------------------------------------------- group names

  const MAX_NAME_LENGTH := 100

  /** What str.strip removes. */
  predicate IsSpace(c: char) {
    var code := c as int;
    9 <= code <= 13 || 28 <= code <= 32 || code in {0x85, 0xA0, 0x1680, 0x2028, 0x2029, 0x202F, 0x205F, 0x3000}
        || 0x2000 <= code <= 0x200A
  }

  predicate Blank(name: string) {
    forall i :: 0 <= i < |name| ==> IsSpace(name[i])
  }

  /** check_user_group_name. */
  predicate ValidName(name: string) {
    && !Blank(name) && |name| <= MAX_NAME_LENGTH
    && !("@" <= name) && !("role:" <= name) && !("user:" <= name) && !("stream:" <= name) && !("channel:" <= name)
  }

  const INVALID_NAME_PREFIXES := ["@", "role:", "user:", "stream:", "channel:"]

  datatype NameError = EmptyName | LongName | BadPrefix(prefix: string)

  /** check_user_group_name: the first thing wrong with a name. */
  method CheckUserGroupName(name: string) returns (error: Option<NameError>)
    ensures error.None? <==> ValidName(name)
    ensures error == Some(EmptyName) <==> Blank(name)
    ensures error == Some(LongName) <==> !Blank(name) && |name| > MAX_NAME_LENGTH
    ensures error.Some? && error.value.BadPrefix? ==>
              error.value.prefix in INVALID_NAME_PREFIXES && error.value.prefix <= name
  {
    if Blank(name) {
      return Some(EmptyName);
    }
    if |name| > MAX_NAME_LENGTH {
      return Some(LongName);
    }
    var i := 0;
    while i < |INVALID_NAME_PREFIXES|
      invariant 0 <= i <= |INVALID_NAME_PREFIXES|
      invariant forall j :: 0 <= j < i ==> !(INVALID_NAME_PREFIXES[j] <= name)
    {
      if INVALID_NAME_PREFIXES[i] <= name {
        return Some(BadPrefix(INVALID_NAME_PREFIXES[i]));
      }
      i := i + 1;
    }
    assert forall j :: 0 <= j < 5 ==> !(INVALID_NAME_PREFIXES[j] <= name);
    assert INVALID_NAME_PREFIXES[0] == "@" && INVALID_NAME_PREFIXES[1] == "role:"
        && INVALID_NAME_PREFIXES[2] == "user:" && INVALID_NAME_PREFIXES[3] == "stream:"
        && INVALID_NAME_PREFIXES[4] == "channel:";
    error := None;
  }

  // --------------------------------------------------------------- what is meant

  function ItemMapping(items: seq<Item>): map<string, string>
    decreases |items|
  {
    if items == [] then map[]
    else
      var front := ItemMapping(items[..|items| - 1]);
      match items[|items| - 1]
      case Plain(name) => front[name := name]
      case Renamed(external, zulip) => front[external := zulip]
  }

  /** external_group_name_to_zulip_group_name. */
  function Mapping(config: Config, groups: Groups, received: seq<string>): map<string, string> {
    match config
    case Listed(items) => ItemMapping(items)
    case AllGroups =>
      (map n | n in groups && !groups[n].deactivated && !groups[n].isSystem :: n) + (map n | n in received :: n)
  }

  datatype GroupInfo = GroupInfo(syncable: set<string>, intended: set<string>)

  function Info(config: Config, groups: Groups, received: seq<string>): (info: Option<GroupInfo>)
    ensures info.None? <==> config == Listed([])
    ensures info.Some? ==> info.value.intended <= info.value.syncable
  {
    if config == Listed([]) then None
    else
      var mapping := Mapping(config, groups, received);
      Some(GroupInfo(mapping.Values, set e | e in received && e in mapping :: mapping[e]))
  }

  predicate About(item: Item, e: string) {
    item == Plain(e) || (item.Renamed? && item.external == e)
  }

  /** The last item about the external name e is the name itself, or renames it to name. */
  ghost predicate NamedBy(items: seq<Item>, e: string, name: string) {
    exists i: nat :: i < |items| && ((items[i] == Plain(e) && e == name) || items[i] == Renamed(e, name))
      && forall j :: i < j < |items| ==> !About(items[j], e)
  }

  /** The external name e stands for the group; under "*" every active group that is no system group and every
      received name stands for itself. */
  ghost predicate StandsFor(config: Config, groups: Groups, received: seq<string>, e: string, name: string) {
    match config
    case Listed(items) => NamedBy(items, e, name)
    case AllGroups => e == name && (e in received || (e in groups && !groups[e].deactivated && !groups[e].isSystem))
  }

  /** Some received external name stands for this group. */
  ghost predicate Meant(config: Config, groups: Groups, received: seq<string>, name: string) {
    exists e :: e in received && StandsFor(config, groups, received, e, name)
  }

  /** Some external name, received or not, stands for this group: the sync decides about it. */
  ghost predicate Decided(config: Config, groups: Groups, received: seq<string>, name: string) {
    exists e :: StandsFor(config, groups, received, e, name)
  }

  /** The names for which a group has to be created and can be. */
  function Creatable(groups: Groups, names: set<string>): set<string> {
    set n | n in names && n !in groups && ValidName(n)
  }

  function NewGroups(names: set<string>): Groups {
    map n | n in names :: Group(false, false)
  }

  /** The realm's groups, with the missing ones among names created if that is wanted. */
  function WithMissing(groups: Groups, names: set<string>, create: bool): Groups {
    if create then groups + NewGroups(Creatable(groups, names)) else groups
  }

  /** The memberships afterwards: out of every syncable group that is not intended, into every intended one there is. */
  function Synced(groups: Groups, members: set<string>, info: GroupInfo, create: bool): set<string> {
    (members - (info.syncable - info.intended)) + set n | n in info.intended
        && n in WithMissing(groups, info.intended, create)
  }

  predicate NoSystemNames(info: GroupInfo) {
    forall n :: n in info.syncable + info.intended ==> !IsSystemName(n)
  }

  ghost predicate Valid(groups: Groups, members: set<string>) {
    members <= groups.Keys && forall n :: n in groups ==> (groups[n].isSystem <==> IsSystemName(n))
  }

  // -------------------------------------------------------------- what it means

  lemma NamedByMore(items: seq<Item>, last: Item, e: string, name: string)
    ensures NamedBy(items + [last], e, name)
       <==> if About(last, e) then last == Renamed(e, name) || (last == Plain(e) && e == name)
            else NamedBy(items, e, name)
  {
    var more := items + [last];
    assert more[|items|] == last && forall i :: 0 <= i < |items| ==> more[i] == items[i];
    if !About(last, e) && NamedBy(items, e, name) {
      var i: nat :| i < |items| && ((items[i] == Plain(e) && e == name) || items[i] == Renamed(e, name))
          && forall j :: i < j < |items| ==> !About(items[j], e);
      assert (more[i] == Plain(e) && e == name) || more[i] == Renamed(e, name);
    }
    if NamedBy(more, e, name) {
      var i: nat :| i < |more| && ((more[i] == Plain(e) && e == name) || more[i] == Renamed(e, name))
          && forall j :: i < j < |more| ==> !About(more[j], e);
      assert i < |items| ==> !About(more[|items|], e);
      if i < |items| {
        assert forall j :: i < j < |items| ==> items[j] == more[j];
        assert (items[i] == Plain(e) && e == name) || items[i] == Renamed(e, name);
      }
    }
  }

  lemma {:induction false} ItemMappingIs(items: seq<Item>, e: string, name: string)
    ensures e in ItemMapping(items) && ItemMapping(items)[e] == name <==> NamedBy(items, e, name)
    decreases |items|
  {
    if items != [] {
      var front, last := items[..|items| - 1], items[|items| - 1];
      assert items == front + [last];
      ItemMappingIs(front, e, name);
      NamedByMore(front, last, e, name);
    }
  }

  /** The mapping takes exactly the external names that stand for a group to that group. */
  lemma MappingIs(config: Config, groups: Groups, received: seq<string>, e: string, name: string)
    ensures e in Mapping(config, groups, received) && Mapping(config, groups, received)[e] == name
       <==> StandsFor(config, groups, received, e, name)
  {
    if config.Listed? { ItemMappingIs(config.items, e, name); }
  }

  lemma InfoIs(config: Config, groups: Groups, received: seq<string>, name: string)
    requires config != Listed([])
    ensures name in Info(config, groups, received).value.intended <==> Meant(config, groups, received, name)
    ensures name in Info(config, groups, received).value.syncable <==> Decided(config, groups, received, name)
  {
    hide Mapping, StandsFor;
    var mapping := Mapping(config, groups, received);
    forall e ensures e in mapping && mapping[e] == name <==> StandsFor(config, groups, received, e, name) {
      MappingIs(config, groups, received, e, name);
    }
    if name in mapping.Values {
      var e :| e in mapping && mapping[e] == name;
      assert StandsFor(config, groups, received, e, name);
    }
  }

  lemma MeantIsDecided(config: Config, groups: Groups, received: seq<string>, name: string)
    ensures Meant(config, groups, received, name) ==> Decided(config, groups, received, name)
  {}

  /** The group is held after a sync: a group the sync decides about if some received external name stands
      for it and it exists or can be created, any other group if it was held before. */
  ghost predicate HeldAfter(config: Config, groups: Groups, received: seq<string>, members: set<string>, name: string) {
    if Decided(config, groups, received, name)
    then Meant(config, groups, received, name) && (name in groups || ValidName(name))
    else name in members
  }

  lemma HeldExactly(config: Config, groups: Groups, received: seq<string>, members: set<string>, name: string)
    requires config != Listed([])
    requires name in members && Decided(config, groups, received, name) ==> name in groups
    ensures name in Synced(groups, members, Info(config, groups, received).value, true)
       <==> HeldAfter(config, groups, received, members, name)
  {
    hide Info, Meant, Decided;
    InfoIs(config, groups, received, name);
    MeantIsDecided(config, groups, received, name);
  }

  /** The realm's groups after a sync: the old ones as they were, the valid missing ones new. */
  lemma GroupsAfter(groups: Groups, names: set<string>, name: string)
    ensures name in WithMissing(groups, names, true) <==> name in groups || (name in names && ValidName(name))
    ensures name in groups ==> WithMissing(groups, names, true)[name] == groups[name]
    ensures name in WithMissing(groups, names, true) && name !in groups ==>
              WithMissing(groups, names, true)[name] == Group(false, false)
  {}

  lemma SyncKeepsValid(groups: Groups, members: set<string>, info: GroupInfo, create: bool)
    requires Valid(groups, members) && NoSystemNames(info)
    ensures Valid(WithMissing(groups, info.intended, create), Synced(groups, members, info, create))
  {}

  lemma MappingAgain(groups: Groups, received: seq<string>, names: set<string>)
    requires forall n :: n in names ==> n in received
    ensures Mapping(AllGroups, WithMissing(groups, names, true), received) == Mapping(AllGroups, groups, received)
  {
    hide ValidName;
    var after := WithMissing(groups, names, true);
    forall n ensures n in after <==> n in groups || n in Creatable(groups, names)
             ensures n in groups ==> after[n] == groups[n]
    {}
  }

  /** With the created groups in the realm the mapping may have grown, but not by any new name. */
  lemma InfoAgain(config: Config, groups: Groups, received: seq<string>)
    requires config != Listed([])
    ensures Info(config, groups, received).Some?
    ensures Info(config, WithMissing(groups, Info(config, groups, received).value.intended, true), received)
         == Info(config, groups, received)
  {
    if config == AllGroups {
      var names := Info(config, groups, received).value.intended;
      forall n | n in names ensures n in received {
        InfoIs(config, groups, received, n);
      }
      MappingAgain(groups, received, names);
    }
  }

  /** A second sync with the same list changes neither memberships nor groups. */
  lemma SecondSyncIsIdle(config: Config, groups: Groups, received: seq<string>, members: set<string>)
    requires config != Listed([])
    ensures var info := Info(config, groups, received).value;
            var groups2 := WithMissing(groups, info.intended, true);
            var members2 := Synced(groups, members, info, true);
            var info2 := Info(config, groups2, received).value;
            WithMissing(groups2, info2.intended, true) == groups2 && Synced(groups2, members2, info2, true) == members2
  {
    hide Mapping, ValidName;
    InfoAgain(config, groups, received);
    var info := Info(config, groups, received).value;
    var groups2 := WithMissing(groups, info.intended, true);
    assert WithMissing(groups2, info.intended, true) == groups2;
  }

  /** Group-sync agreement: syncing the groups an invitation gave and then copying them to the new user
      gives the user what syncing at login would have given. */
  lemma SignupAgreesWithLogin(groups: Groups, invited: set<string>, own: set<string>, info: GroupInfo)
    requires own !! info.syncable && info.intended <= info.syncable
    ensures own + Synced(groups, invited, info, true) == Synced(groups, own + invited, info, true)
  {}

  /** Without the names of system groups; if some external name stands for one, login stops at its assertion. */
  lemma SystemNameStopsLogin(config: Config, groups: Groups, received: seq<string>)
    requires config != Listed([])
    ensures !NoSystemNames(Info(config, groups, received).value)
       <==> exists name :: Decided(config, groups, received, name) && IsSystemName(name)
  {
    hide Info, Meant, Decided, IsSystemName;
    var info := Info(config, groups, received).value;
    forall n ensures n in info.syncable <==> Decided(config, groups, received, n)
             ensures n in info.intended ==> n in info.syncable
    {
      InfoIs(config, groups, received, n);
      MeantIsDecided(config, groups, received, n);
    }
  }

  lemma HeldAtSignup(config: Config, groups: Groups, received: seq<string>, own: set<string>, invited: set<string>)
    requires config != Listed([]) && invited <= groups.Keys && own !! Info(config, groups, received).value.syncable
    ensures forall name ::
              name in Synced(groups, own + invited, Info(config, groups, received).value, true)
              <==> HeldAfter(config, groups, received, own + invited, name)
  {
    hide Info, HeldAfter, Decided, Meant, Synced;
    forall name
      ensures name in Synced(groups, own + invited, Info(config, groups, received).value, true)
         <==> HeldAfter(config, groups, received, own + invited, name)
    {
      InfoIs(config, groups, received, name);
      HeldExactly(config, groups, received, own + invited, name);
    }
  }

  // --------------------------------------------------------------- the two paths

  const ZULIP_GROUPS := "zulip_groups"

  function Received(extraAttrs: map<string, seq<string>>): seq<string> {
    if ZULIP_GROUPS in extraAttrs then extraAttrs[ZULIP_GROUPS] else []
  }

  /** group_names_to_ensure_member. */
  function Members(syncMap: map<string, bool>): set<string> {
    set n | n in syncMap && syncMap[n]
  }

  /** One realm's groups, one user's memberships, and the groups of the user's PreregistrationUser. */
  class Realm {
    var groups: Groups
    var members: set<string>
    var invited: set<string>

    constructor (groups: Groups, members: set<string>, invited: set<string>)
      ensures this.groups == groups && this.members == members && this.invited == invited
    {
      this.groups, this.members, this.invited := groups, members, invited;
    }

    /** process_social_auth_group_sync_info; zulip_groups is popped even if no groups are configured. */
    method ProcessGroupSyncInfo(config: Config, extraAttrs: map<string, seq<string>>)
      returns (info: Option<GroupInfo>, rest: map<string, seq<string>>)
      ensures info == Info(config, groups, Received(extraAttrs))
      ensures info.Some? ==>
                var received := if "zulip_groups" in extraAttrs then extraAttrs["zulip_groups"] else [];
                forall name ::
                  && (name in info.value.intended <==> Meant(config, groups, received, name))
                  && (name in info.value.syncable <==> Decided(config, groups, received, name))
      ensures rest == extraAttrs - {ZULIP_GROUPS}
    {
      hide Meant, Decided;
      var received := Received(extraAttrs);
      rest := extraAttrs - {ZULIP_GROUPS};
      var mapping: map<string, string> := map[];
      match config {
      case Listed(items) =>
        if items == [] {
          return None, rest;
        }
        var i := 0;
        while i < |items|
          invariant 0 <= i <= |items| && mapping == ItemMapping(items[..i])
        {
          assert items[..i + 1][..i] == items[..i];
          match items[i] {
            case Plain(name) => mapping := mapping[name := name];
            case Renamed(external, zulip) => mapping := mapping[external := zulip];
          }
          i := i + 1;
        }
        assert items[..i] == items;
      case AllGroups =>
        mapping := Mapping(config, groups, received);
      }
      var intended := set e | e in received && e in mapping :: mapping[e];
      info := Some(GroupInfo(mapping.Values, intended));
      forall name
        ensures name in intended <==> Meant(config, groups, received, name)
        ensures name in mapping.Values <==> Decided(config, groups, received, name)
      {
        InfoIs(config, groups, received, name);
      }
    }

    /** ensure_missing_groups: invalid names are skipped. */
    method EnsureMissingGroups(missing: set<string>) returns (created: set<string>)
      requires missing !! groups.Keys
      modifies this`groups
      ensures created == Creatable(old(groups), missing)
      ensures groups == old(groups) + NewGroups(created)
    {
      hide ValidName, NewGroups;
      var todo := missing;
      var valid := {};
      while todo != {}
        invariant todo <= missing && groups == old(groups)
        invariant valid == set n | n in missing - todo && ValidName(n)
        decreases |todo|
      {
        ghost var some := Sums.SomeElement(todo);
        var name :| name in todo;
        var error := CheckUserGroupName(name);
        if error.None? {
          valid := valid + {name};
        }
        todo := todo - {name};
      }
      todo := valid;
      created := {};
      NoNewGroups(groups);
      while todo != {}
        invariant todo <= valid && created == valid - todo && groups == old(groups) + NewGroups(created)
        decreases |todo|
      {
        ghost var some := Sums.SomeElement(todo);
        var name :| name in todo;
        OneNewGroup(old(groups), created, name);
        groups := groups[name := Group(false, false)];
        created := created + {name};
        todo := todo - {name};
      }
    }

    /** The groups with these names, the missing ones created first if that is wanted and they are
        fewer than the names: names of groups are distinct. */
    method FindOrCreate(names: set<string>, create: bool) returns (found: set<string>)
      modifies this`groups
      ensures groups == WithMissing(old(groups), names, create)
      ensures found == set n | n in names && n in groups
    {
      hide ValidName;
      found := set n | n in names && n in groups;
      Sums.SubsetSize(found, names);
      MissingOnly(groups, names, found);
      if create && |found| < |names| {
        var created := EnsureMissingGroups(names - found);
        found := found + created;
      }
    }

    /** sync_groups: false is a failed assertion on the name of a system group. */
    method SyncGroups(info: GroupInfo, create: bool) returns (ok: bool)
      requires Valid(groups, members) && info.intended <= info.syncable
      modifies this`groups, this`members
      ensures ok <==> NoSystemNames(info)
      ensures !ok ==> groups == old(groups) && members == old(members)
      ensures ok ==> groups == WithMissing(old(groups), info.intended, create)
      ensures ok ==> members == Synced(old(groups), old(members), info, create)
      ensures ok ==> Valid(groups, members)
    {
      hide Synced, WithMissing, NoSystemNames;
      if !NoSystemNames(info) {
        return false;
      }
      SyncKeepsValid(groups, members, info, create);
      NoneIsSystem(groups, members, info);
      ghost var was, had := groups, members;
      var existing := set n | n in members && n in info.syncable && !groups[n].isSystem;
      var toAdd := info.intended - existing;
      var toRemove := existing - info.intended;
      if toAdd == {} { NothingToAdd(info.intended, existing); }
      AlreadyThere(groups, info.intended, existing, create);
      if toAdd != {} {
        var addGroups := FindOrCreate(toAdd, create);
        assert addGroups !! members;
        members := members + addGroups;
      }
      if toRemove != {} {
        var removeGroups := set n | n in toRemove && n in groups;
        members := members - removeGroups;
      }
      LoginMembers(was, had, info, create, existing);
      ok := true;
    }

    /** sync_groups_for_prereg_user. */
    method SyncGroupsForPreregUser(syncMap: map<string, bool>, create: bool)
      requires invited <= groups.Keys
      modifies this`groups, this`invited
      ensures groups == WithMissing(old(groups), Members(syncMap), create)
      ensures invited == Synced(old(groups), old(invited), GroupInfo(syncMap.Keys, Members(syncMap)), create)
    {
      hide WithMissing;
      var toEnsure := Members(syncMap);
      var toEnsureNot := set n | n in syncMap && !syncMap[n];
      GroupsStay(groups, toEnsure, create);
      var ensured := FindOrCreate(toEnsure, create);
      var notMember := set n | n in toEnsureNot && n in groups;
      invited := invited + ensured;
      invited := invited - notMember;
    }

    /** The group part of social_auth_sync_user_attributes for an existing user. */
    method SyncAtLogin(config: Config, extraAttrs: map<string, seq<string>>) returns (ok: bool)
      requires Valid(groups, members)
      modifies this`groups, this`members
      ensures var info := Info(config, old(groups), Received(extraAttrs));
              if info.None? then ok && groups == old(groups) && members == old(members)
              else if !NoSystemNames(info.value) then !ok && groups == old(groups) && members == old(members)
              else ok && groups == WithMissing(old(groups), info.value.intended, true)
                      && members == Synced(old(groups), old(members), info.value, true)
      ensures config != Listed([]) ==>
                var received := if "zulip_groups" in extraAttrs then extraAttrs["zulip_groups"] else [];
                && (ok <==> !exists name :: Decided(config, old(groups), received, name) && IsSystemName(name))
                && (ok ==> forall name ::
                     name in members <==> HeldAfter(config, old(groups), received, old(members), name))
    {
      hide HeldAfter, NoSystemNames, Info, Decided, Meant, Synced;
      var info, rest := ProcessGroupSyncInfo(config, extraAttrs);
      ok := true;
      if info.Some? {
        SystemNameStopsLogin(config, groups, Received(extraAttrs));
        forall name {
          HeldExactly(config, groups, Received(extraAttrs), members, name);
        }
        ok := SyncGroups(info.value, true);
      }
    }

    /** The same for a signup: the membership map goes through the PreregistrationUser, whose groups
        are then given to the new user, a member so far of some system groups only. */
    method SyncAtSignup(config: Config, extraAttrs: map<string, seq<string>>)
      requires invited <= groups.Keys && invited !! members
      requires Info(config, groups, Received(extraAttrs)).Some? ==>
                 members !! Info(config, groups, Received(extraAttrs)).value.syncable
      modifies this
      ensures var info := Info(config, old(groups), Received(extraAttrs));
              if info.None? then groups == old(groups) && members == old(members) + old(invited)
              else && groups == WithMissing(old(groups), info.value.intended, true)
                   && members == Synced(old(groups), old(members) + old(invited), info.value, true)
      ensures config != Listed([]) ==>
                var received := if "zulip_groups" in extraAttrs then extraAttrs["zulip_groups"] else [];
                forall name ::
                  name in members <==> HeldAfter(config, old(groups), received, old(members) + old(invited), name)
    {
      hide ValidName, Info, HeldAfter, Decided, Meant;
      var info, rest := ProcessGroupSyncInfo(config, extraAttrs);
      var syncMap: map<string, bool> := map[];
      if info.Some? {
        SignupAgreesWithLogin(groups, invited, members, info.value);
        HeldAtSignup(config, groups, Received(extraAttrs), members, invited);
        syncMap := map n | n in info.value.syncable :: n in info.value.intended;
        assert info.value == GroupInfo(syncMap.Keys, Members(syncMap));
      }
      if syncMap != map[] {
        SyncGroupsForPreregUser(syncMap, true);
      }
      assert members !! invited;
      members := members + invited;
    }
  }

  lemma NothingToAdd(names: set<string>, existing: set<string>)
    requires names - existing == {}
    ensures names <= existing
  {
    forall n | n in names ensures n in existing {
      assert n in existing || n in names - existing;
    }
  }

  lemma NoNewGroups(groups: Groups)
    ensures groups + NewGroups({}) == groups
  {}

  lemma OneNewGroup(groups: Groups, names: set<string>, name: string)
    ensures (groups + NewGroups(names))[name := Group(false, false)] == groups + NewGroups(names + {name})
  {}

  lemma MissingOnly(groups: Groups, names: set<string>, found: set<string>)
    requires found == set n | n in names && n in groups
    ensures Creatable(groups, names - found) == Creatable(groups, names)
    ensures found == names ==> groups + NewGroups(Creatable(groups, names)) == groups
  {}

  /** Names of groups the user is in already are not missing. */
  lemma AlreadyThere(groups: Groups, names: set<string>, existing: set<string>, create: bool)
    requires existing <= groups.Keys
    ensures WithMissing(groups, names - existing, create) == WithMissing(groups, names, create)
    ensures names <= existing ==> WithMissing(groups, names, create) == groups
    ensures groups.Keys <= WithMissing(groups, names, create).Keys
  {
    assert Creatable(groups, names - existing) == Creatable(groups, names);
    if names <= existing { assert Creatable(groups, names) == {}; }
  }

  lemma GroupsStay(groups: Groups, names: set<string>, create: bool)
    ensures groups.Keys <= WithMissing(groups, names, create).Keys
  {}

  lemma NoneIsSystem(groups: Groups, members: set<string>, info: GroupInfo)
    requires Valid(groups, members) && NoSystemNames(info)
    ensures forall n :: n in members && n in info.syncable ==> !groups[n].isSystem
  {}

  lemma LoginMembers(groups: Groups, members: set<string>, info: GroupInfo, create: bool, existing: set<string>)
    requires members <= groups.Keys && existing == members * info.syncable && info.intended <= info.syncable
    ensures Synced(groups, members, info, create)
         == members + (set n | n in info.intended - existing
             && n in WithMissing(groups, info.intended, create)) - (existing - info.intended)
  {
    GroupsStay(groups, info.intended, create);
  }
}
