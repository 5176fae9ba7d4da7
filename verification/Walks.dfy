/** The walk theorem for each of the five lists that page with the cursor of their last kept row. Identifiers
    are primary keys; the tables may change between requests. */
module Walks {
  import opened Keyset
  import opened Paging
  import opened Listings
  import opened UserListing

  /** No two rows share an identifier. */
  ghost predicate IdsDiffer<T(!new)>(key: T -> Key, rows: set<T>) {
    forall x, y | x in rows && y in rows && key(x).id == key(y).id :: x == y
  }

  lemma MembersWalk(roles: seq<set<RoleRow>>, org: Id, limit: nat, tables: seq<set<Member>>, cursor: Option<Key>, pages: seq<Page<Member>>)
    requires |tables| == |roles| && forall i | 0 <= i < |tables| :: tables[i] == MembersOf(roles[i], org)
    requires IsChain(Descending, MemberKey, limit, tables, cursor, pages)
    ensures ListsStable(Descending, MemberKey, tables, cursor, pages)
  {
    forall i | 0 <= i < |tables| ensures KeysDiffer(MemberKey, tables[i]) { OneRowPerMember(roles[i], org); }
    WalkListsEveryStableRow(Descending, MemberKey, limit, tables, cursor, pages);
  }

  lemma OrganisationsWalk(organisations: seq<set<Organisation>>, roles: seq<set<RoleRow>>, caller: Id, limit: nat,
                          tables: seq<set<Organisation>>, cursor: Option<Key>, pages: seq<Page<Organisation>>)
    requires |tables| == |organisations| == |roles|
    requires forall i | 0 <= i < |tables| ::
               IdsDiffer(OrganisationKey, organisations[i]) && tables[i] == OrganisationsOf(organisations[i], roles[i], caller)
    requires IsChain(Descending, OrganisationKey, limit, tables, cursor, pages)
    ensures ListsStable(Descending, OrganisationKey, tables, cursor, pages)
  {
    forall i | 0 <= i < |tables| ensures KeysDiffer(OrganisationKey, tables[i]) {
      assert tables[i] <= organisations[i];
    }
    WalkListsEveryStableRow(Descending, OrganisationKey, limit, tables, cursor, pages);
  }

  lemma ChannelsWalk(channels: seq<set<Channel>>, org: Id, limit: nat, tables: seq<set<Channel>>, cursor: Option<Key>, pages: seq<Page<Channel>>)
    requires |tables| == |channels|
    requires forall i | 0 <= i < |tables| :: IdsDiffer(ChannelKey, channels[i]) && tables[i] == ChannelsOf(channels[i], org)
    requires IsChain(Descending, ChannelKey, limit, tables, cursor, pages)
    ensures ListsStable(Descending, ChannelKey, tables, cursor, pages)
  {
    forall i | 0 <= i < |tables| ensures KeysDiffer(ChannelKey, tables[i]) {
      assert tables[i] <= channels[i];
    }
    WalkListsEveryStableRow(Descending, ChannelKey, limit, tables, cursor, pages);
  }

  lemma AuditWalk(events: seq<set<AuditRow>>, f: AuditFilter, limit: nat, tables: seq<set<AuditRow>>, cursor: Option<Key>, pages: seq<Page<AuditRow>>)
    requires |tables| == |events|
    requires forall i | 0 <= i < |tables| :: IdsDiffer(AuditKey, events[i]) && tables[i] == Selected(events[i], f)
    requires IsChain(Descending, AuditKey, limit, tables, cursor, pages)
    ensures ListsStable(Descending, AuditKey, tables, cursor, pages)
  {
    forall i | 0 <= i < |tables| ensures KeysDiffer(AuditKey, tables[i]) {
      assert tables[i] <= events[i];
    }
    WalkListsEveryStableRow(Descending, AuditKey, limit, tables, cursor, pages);
  }

  lemma UsersWalk(users: seq<set<User>>, roles: seq<set<RoleRow>>, ilike: Matcher, org: Option<Id>, q: Option<string>, limit: nat,
                  tables: seq<set<User>>, cursor: Option<Key>, pages: seq<Page<User>>)
    requires |tables| == |users| == |roles|
    requires forall i | 0 <= i < |tables| ::
               IdsDiffer(UserKey, users[i]) && tables[i] == Wanted(users[i], roles[i], ilike, org, q)
    requires IsChain(Ascending, UserKey, limit, tables, cursor, pages)
    ensures ListsStable(Ascending, UserKey, tables, cursor, pages)
  {
    forall i | 0 <= i < |tables| ensures KeysDiffer(UserKey, tables[i]) {
      assert tables[i] <= users[i];
    }
    WalkListsEveryStableRow(Ascending, UserKey, limit, tables, cursor, pages);
  }
}
