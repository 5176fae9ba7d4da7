/** The list services that page through members, organisations, channels and audit events. */
module Listings {
  import opened Keyset
  import opened Paging

  /** The nearest number in the range. */
  function Clamp(n: nat, low: nat, high: nat): (r: nat)
    requires low <= high
    ensures low <= r <= high && (low <= n <= high ==> r == n) && (r > n ==> r == low) && (r < n ==> r == high)
  {
    if n < low then low else if n > high then high else n
  }

  // ---- organisation members: newest first by the earliest role in the organisation ------

  datatype RoleRow = RoleRow(user: Id, org: Id, role: string, createdAt: Time)

  datatype Member = Member(user: Id, joinedAt: Time)

  function MemberKey(m: Member): Key {
    Key(m.joinedAt, m.user)
  }

  predicate Earliest(roles: set<RoleRow>, r: RoleRow) {
    forall other | other in roles && other.user == r.user && other.org == r.org :: r.createdAt <= other.createdAt
  }

  /** `GROUP BY u.id` with `MIN(uor.created_at)`. */
  function MembersOf(roles: set<RoleRow>, org: Id): set<Member> {
    set r | r in roles && r.org == org && Earliest(roles, r) :: Member(r.user, r.createdAt)
  }

  /** One row per user, so the key is unique. */
  lemma OneRowPerMember(roles: set<RoleRow>, org: Id)
    ensures KeysDiffer(MemberKey, MembersOf(roles, org))
    ensures forall m, n | m in MembersOf(roles, org) && n in MembersOf(roles, org) && m.user == n.user :: m == n
  {
    forall m, n | m in MembersOf(roles, org) && n in MembersOf(roles, org) && m.user == n.user ensures m == n {
      var r :| r in roles && r.org == org && Earliest(roles, r) && m == Member(r.user, r.createdAt);
      var q :| q in roles && q.org == org && Earliest(roles, q) && n == Member(q.user, q.createdAt);
      assert r.createdAt <= q.createdAt && q.createdAt <= r.createdAt;
    }
  }

  /** A member is someone with a role in the organisation, and joined with the earliest of them. */
  lemma MembersHoldRoles(roles: set<RoleRow>, org: Id, m: Member)
    ensures m in MembersOf(roles, org) <==>
              && (exists r | r in roles :: r.user == m.user && r.org == org && r.createdAt == m.joinedAt)
              && forall r | r in roles && r.user == m.user && r.org == org :: m.joinedAt <= r.createdAt
  {
    if exists r | r in roles :: r.user == m.user && r.org == org && r.createdAt == m.joinedAt {
      var r :| r in roles && r.user == m.user && r.org == org && r.createdAt == m.joinedAt;
      assert m == Member(r.user, r.createdAt);
      if forall q | q in roles && q.user == m.user && q.org == org :: m.joinedAt <= q.createdAt {
        assert Earliest(roles, r);
      }
    }
  }

  datatype MembersResult = Members(page: Page<Member>) | NotFound

  method ListOrganisationMembers(roles: set<RoleRow>, caller: Id, isOperator: bool, org: Id, cursor: Option<Key>, limit: nat)
    returns (r: MembersResult)
    ensures r.NotFound? <==> !isOperator && !exists row | row in roles :: row.user == caller && row.org == org
    ensures r.Members? ==> IsPage(Descending, MemberKey, MembersOf(roles, org), cursor, Clamp(limit, 1, 100), r.page)
    ensures r.Members? ==>
              IsListPage(MembersOf(roles, org), (m: Member) => true, (m: Member) => m.joinedAt, (m: Member) => m.user, true,
                         cursor, Clamp(limit, 1, 100), r.page)
  {
    if !isOperator {
      var mine := set row | row in roles && row.user == caller && row.org == org;
      if mine == {} {
        assert forall row | row in roles :: row in mine <==> row.user == caller && row.org == org;
        return NotFound;
      }
      var row :| row in mine;
    }
    var page := CutPage(Descending, MemberKey, MembersOf(roles, org), cursor, Clamp(limit, 1, 100));
    PageIsListed(Descending, MemberKey, MembersOf(roles, org), cursor, Clamp(limit, 1, 100), page,
                 MembersOf(roles, org), (m: Member) => true, (m: Member) => m.joinedAt, (m: Member) => m.user);
    r := Members(page);
  }

  // ---- the caller's organisations --------------------------------------------------------

  datatype Organisation = Organisation(id: Id, name: string, createdAt: Time)

  function OrganisationKey(o: Organisation): Key {
    Key(o.createdAt, o.id)
  }

  function OrganisationsOf(organisations: set<Organisation>, roles: set<RoleRow>, user: Id): set<Organisation> {
    set o, r | o in organisations && r in roles && r.org == o.id && r.user == user :: o
  }

  method ListMyOrganisations(organisations: set<Organisation>, roles: set<RoleRow>, caller: Id, cursor: Option<Key>, limit: nat)
    returns (page: Page<Organisation>)
    ensures IsPage(Descending, OrganisationKey, OrganisationsOf(organisations, roles, caller), cursor, Clamp(limit, 1, 100), page)
    ensures IsListPage(organisations, (o: Organisation) => exists r | r in roles :: r.org == o.id && r.user == caller,
                       (o: Organisation) => o.createdAt, (o: Organisation) => o.id, true, cursor, Clamp(limit, 1, 100), page)
  {
    page := CutPage(Descending, OrganisationKey, OrganisationsOf(organisations, roles, caller), cursor, Clamp(limit, 1, 100));
    PageIsListed(Descending, OrganisationKey, OrganisationsOf(organisations, roles, caller), cursor, Clamp(limit, 1, 100), page,
                 organisations, (o: Organisation) => exists r | r in roles :: r.org == o.id && r.user == caller,
                 (o: Organisation) => o.createdAt, (o: Organisation) => o.id);
  }

  // ---- inbound channels -------------------------------------------------------------------

  datatype Channel = Channel(id: Id, org: Id, name: string, createdAt: Time)

  function ChannelKey(c: Channel): Key {
    Key(c.createdAt, c.id)
  }

  function ChannelsOf(channels: set<Channel>, org: Id): set<Channel> {
    set c | c in channels && c.org == org
  }

  /** A page without a cursor claims that nothing follows it. */
  ghost predicate TellsTheEnd<T(!new)>(d: Direction, key: T -> Key, rows: set<T>, cursor: Option<Key>, page: Page<T>) {
    page.next.None? ==> forall x | x in After(d, key, rows, cursor) :: x in page.items
  }

  /** The limit is not clamped from below here: a page of size 0 comes back empty and without a cursor. */
  method ListInboundChannels(channels: set<Channel>, org: Id, cursor: Option<Key>, limit: nat) returns (page: Page<Channel>)
    ensures limit >= 1 ==> IsPage(Descending, ChannelKey, ChannelsOf(channels, org), cursor, limit, page)
    ensures limit >= 1 ==>
              IsListPage(channels, (c: Channel) => c.org == org, (c: Channel) => c.createdAt, (c: Channel) => c.id, true, cursor, limit, page)
    ensures limit == 0 ==> page == Page([], None)
    ensures TellsTheEnd(Descending, ChannelKey, ChannelsOf(channels, org), cursor, page)
       <==> limit >= 1 || After(Descending, ChannelKey, ChannelsOf(channels, org), cursor) == {}
  {
    var items := OrderByLimit(Descending, ChannelKey, After(Descending, ChannelKey, ChannelsOf(channels, org), cursor), limit + 1);
    ghost var fetched := items;
    if |items| > limit {
      items := items[..limit];
      if items == [] {
        page := Page(items, None);
        assert fetched[0] in After(Descending, ChannelKey, ChannelsOf(channels, org), cursor);
      } else {
        assert fetched[limit] !in items;
        page := Page(items, Some(ChannelKey(items[|items| - 1])));
      }
    } else {
      page := Page(items, None);
    }
    if limit >= 1 {
      PageIsListed(Descending, ChannelKey, ChannelsOf(channels, org), cursor, limit, page,
                   channels, (c: Channel) => c.org == org, (c: Channel) => c.createdAt, (c: Channel) => c.id);
    }
  }

  // ---- audit events -----------------------------------------------------------------------

  datatype AuditRow = AuditRow(
    id: Id, occurredAt: Time, category: string, eventType: string, outcome: string,
    actor: Option<Id>, targetOrg: Option<Id>)

  datatype AuditFilter = AuditFilter(
    org: Option<Id>, actor: Option<Id>, eventType: Option<string>, category: Option<string>, outcome: Option<string>,
    from: Option<Time>, to: Option<Time>)

  function AuditKey(e: AuditRow): Key {
    Key(e.occurredAt, e.id)
  }

  predicate Agrees<T(==)>(wanted: Option<T>, actual: T) {
    wanted.Some? ==> actual == wanted.value
  }

  predicate Selects(f: AuditFilter, e: AuditRow) {
    && (f.org.Some? ==> e.targetOrg == f.org) && (f.actor.Some? ==> e.actor == f.actor)
    && Agrees(f.eventType, e.eventType) && Agrees(f.category, e.category) && Agrees(f.outcome, e.outcome)
    && (f.from.Some? ==> e.occurredAt >= f.from.value) && (f.to.Some? ==> e.occurredAt <= f.to.value)
  }

  function Selected(events: set<AuditRow>, f: AuditFilter): set<AuditRow> {
    set e | e in events && Selects(f, e)
  }

  function Narrow(rows: set<AuditRow>, wanted: bool, keep: AuditRow -> bool): set<AuditRow> {
    if wanted then set e | e in rows && keep(e) else rows
  }

  /** The query grows one conjunct at a time. */
  method BuildQuery(events: set<AuditRow>, f: AuditFilter) returns (matching: set<AuditRow>)
    ensures matching == Selected(events, f)
  {
    matching := Narrow(events, f.org.Some?, (e: AuditRow) => e.targetOrg == f.org);
    matching := Narrow(matching, f.actor.Some?, (e: AuditRow) => e.actor == f.actor);
    matching := Narrow(matching, f.eventType.Some?, (e: AuditRow) => Agrees(f.eventType, e.eventType));
    matching := Narrow(matching, f.category.Some?, (e: AuditRow) => Agrees(f.category, e.category));
    matching := Narrow(matching, f.outcome.Some?, (e: AuditRow) => Agrees(f.outcome, e.outcome));
    matching := Narrow(matching, f.from.Some?, (e: AuditRow) => f.from.Some? && e.occurredAt >= f.from.value);
    matching := Narrow(matching, f.to.Some?, (e: AuditRow) => f.to.Some? && e.occurredAt <= f.to.value);
  }

  /** One page of the events all given filters accept, newest first, on the events' own columns. */
  ghost predicate IsEventPage(events: set<AuditRow>, f: AuditFilter, cursor: Option<Key>, limit: nat, page: Page<AuditRow>) {
    IsListPage(events,
               (e: AuditRow) =>
                 && (f.org.Some? ==> e.targetOrg == Some(f.org.value)) && (f.actor.Some? ==> e.actor == Some(f.actor.value))
                 && (f.eventType.Some? ==> e.eventType == f.eventType.value)
                 && (f.category.Some? ==> e.category == f.category.value)
                 && (f.outcome.Some? ==> e.outcome == f.outcome.value)
                 && (f.from.Some? ==> f.from.value <= e.occurredAt) && (f.to.Some? ==> e.occurredAt <= f.to.value),
               (e: AuditRow) => e.occurredAt, (e: AuditRow) => e.id, true, cursor, limit, page)
  }

  lemma FilterMeans(f: AuditFilter, e: AuditRow)
    ensures Selects(f, e) <==>
              && (f.org.Some? ==> e.targetOrg == Some(f.org.value)) && (f.actor.Some? ==> e.actor == Some(f.actor.value))
              && (f.eventType.Some? ==> e.eventType == f.eventType.value)
              && (f.category.Some? ==> e.category == f.category.value)
              && (f.outcome.Some? ==> e.outcome == f.outcome.value)
              && (f.from.Some? ==> f.from.value <= e.occurredAt) && (f.to.Some? ==> e.occurredAt <= f.to.value)
  {
  }

  lemma SelectedPage(events: set<AuditRow>, f: AuditFilter, cursor: Option<Key>, limit: nat, page: Page<AuditRow>)
    requires IsPage(Descending, AuditKey, Selected(events, f), cursor, limit, page)
    ensures IsEventPage(events, f, cursor, limit, page)
  {
    var keep := (e: AuditRow) =>
      && (f.org.Some? ==> e.targetOrg == Some(f.org.value)) && (f.actor.Some? ==> e.actor == Some(f.actor.value))
      && (f.eventType.Some? ==> e.eventType == f.eventType.value)
      && (f.category.Some? ==> e.category == f.category.value)
      && (f.outcome.Some? ==> e.outcome == f.outcome.value)
      && (f.from.Some? ==> f.from.value <= e.occurredAt) && (f.to.Some? ==> e.occurredAt <= f.to.value);
    forall e ensures e in Selected(events, f) <==> e in events && keep(e) { FilterMeans(f, e); }
    PageIsListed(Descending, AuditKey, Selected(events, f), cursor, limit, page, events, keep,
                 (e: AuditRow) => e.occurredAt, (e: AuditRow) => e.id);
  }

  method ListEvents(events: set<AuditRow>, f: AuditFilter, cursor: Option<Key>, limit: nat) returns (page: Page<AuditRow>)
    ensures limit >= 1 ==> IsPage(Descending, AuditKey, Selected(events, f), cursor, limit, page)
    ensures limit >= 1 ==> IsEventPage(events, f, cursor, limit, page)
    ensures limit == 0 ==> page == Page([], None)
    ensures TellsTheEnd(Descending, AuditKey, Selected(events, f), cursor, page)
       <==> limit >= 1 || After(Descending, AuditKey, Selected(events, f), cursor) == {}
  {
    var matching := BuildQuery(events, f);
    page := CopyPage(matching, cursor, limit);
    if limit >= 1 { SelectedPage(events, f, cursor, limit, page); }
  }

  /** The rows are copied over one at a time, all but the extra one. Size 0 is as for channels. */
  method CopyPage(matching: set<AuditRow>, cursor: Option<Key>, limit: nat) returns (page: Page<AuditRow>)
    ensures limit >= 1 ==> IsPage(Descending, AuditKey, matching, cursor, limit, page)
    ensures limit == 0 ==> page == Page([], None)
    ensures TellsTheEnd(Descending, AuditKey, matching, cursor, page)
       <==> limit >= 1 || After(Descending, AuditKey, matching, cursor) == {}
  {
    var rows := OrderByLimit(Descending, AuditKey, After(Descending, AuditKey, matching, cursor), limit + 1);
    var items := [];
    for i := 0 to if |rows| < limit then |rows| else limit
      invariant items == rows[..i]
    {
      items := items + [rows[i]];
    }
    page := Page(items, None);
    if |rows| > limit {
      FrontOfTop(Descending, AuditKey, After(Descending, AuditKey, matching, cursor), limit, rows);
      if items != [] {
        page := Page(items, Some(AuditKey(items[|items| - 1])));
      }
    }
  }
}
