/** The user list: eight query shapes that must agree, and memberships grouped through a hash map. */
module UserListing {
  import opened Keyset
  import opened Paging
  import opened Listings

  datatype User = User(id: Id, username: string, email: string, createdAt: Time)

  /** `ILIKE '%query%'`, as the database decides it. */
  type Matcher = (string, string) -> bool

  /** A row of the join of users with their role rows. */
  datatype Joined = Joined(user: User, role: RoleRow)

  function UserKey(u: User): Key {
    Key(u.createdAt, u.id)
  }

  predicate Matches(ilike: Matcher, u: User, query: string) {
    ilike(u.username, query) || ilike(u.email, query)
  }

  predicate BelongsTo(roles: set<RoleRow>, u: User, org: Id) {
    exists r | r in roles :: r.user == u.id && r.org == org
  }

  /** What the list is meant to hold, whichever filters are given. */
  function Wanted(users: set<User>, roles: set<RoleRow>, ilike: Matcher, org: Option<Id>, q: Option<string>): set<User> {
    set u | u in users && (org.Some? ==> BelongsTo(roles, u, org.value)) && (q.Some? ==> Matches(ilike, u, q.value))
  }

  /** `FROM users u JOIN user_organisation_roles uor ON uor.user_id = u.id WHERE uor.organisation_id = org`:
      one row per role, so a user with two roles appears twice. */
  function Join(users: set<User>, roles: set<RoleRow>, org: Id): set<Joined> {
    set u, r | u in users && r in roles && r.user == u.id && r.org == org :: Joined(u, r)
  }

  /** `GROUP BY u.id`. */
  function GroupByUser(rows: set<Joined>): set<User> {
    set j | j in rows :: j.user
  }

  function Where(rows: set<Joined>, keep: Joined -> bool): set<Joined> {
    set j | j in rows && keep(j)
  }

  lemma GroupingUndoesTheJoin(users: set<User>, roles: set<RoleRow>, org: Id, keep: Joined -> bool, keepUser: User -> bool)
    requires forall j | j in Join(users, roles, org) :: keep(j) == keepUser(j.user)
    ensures GroupByUser(Where(Join(users, roles, org), keep))
         == set u | u in users && BelongsTo(roles, u, org) && keepUser(u)
  {
    var grouped := GroupByUser(Where(Join(users, roles, org), keep));
    forall u | u in users && BelongsTo(roles, u, org) && keepUser(u) ensures u in grouped {
      var r :| r in roles && r.user == u.id && r.org == org;
      assert Joined(u, r) in Join(users, roles, org);
      assert Joined(u, r).user == u;
    }
  }

  predicate Follows(c: Key, u: User) {
    Before(Ascending, c, UserKey(u))
  }

  /** One query text per combination of organisation, search text and cursor. */
  method QueryUsers(users: set<User>, roles: set<RoleRow>, ilike: Matcher, org: Option<Id>, q: Option<string>,
                    cursor: Option<Key>, limit: nat)
    returns (rows: seq<User>)
    ensures IsTop(Ascending, UserKey, After(Ascending, UserKey, Wanted(users, roles, ilike, org, q), cursor), limit, rows)
  {
    var candidates: set<User>;
    match (org, q, cursor) {
      case (None, None, None) => candidates := users;
      case (None, None, Some(c)) => candidates := set u | u in users && Follows(c, u);
      case (Some(oid), None, None) =>
        candidates := GroupByUser(Join(users, roles, oid));
        assert Where(Join(users, roles, oid), j => true) == Join(users, roles, oid);
        GroupingUndoesTheJoin(users, roles, oid, j => true, u => true);
      case (Some(oid), None, Some(c)) =>
        var keep := (j: Joined) => Follows(c, j.user);
        candidates := GroupByUser(Where(Join(users, roles, oid), keep));
        GroupingUndoesTheJoin(users, roles, oid, keep, u => Follows(c, u));
      case (None, Some(query), None) => candidates := set u | u in users && Matches(ilike, u, query);
      case (None, Some(query), Some(c)) => candidates := set u | u in users && Matches(ilike, u, query) && Follows(c, u);
      case (Some(oid), Some(query), None) =>
        var keep := (j: Joined) => Matches(ilike, j.user, query);
        candidates := GroupByUser(Where(Join(users, roles, oid), keep));
        GroupingUndoesTheJoin(users, roles, oid, keep, u => Matches(ilike, u, query));
      case (Some(oid), Some(query), Some(c)) =>
        var keep := (j: Joined) => Matches(ilike, j.user, query) && Follows(c, j.user);
        candidates := GroupByUser(Where(Join(users, roles, oid), keep));
        GroupingUndoesTheJoin(users, roles, oid, keep, u => Matches(ilike, u, query) && Follows(c, u));
    }
    assert candidates == After(Ascending, UserKey, Wanted(users, roles, ilike, org, q), cursor);
    rows := OrderByLimit(Ascending, UserKey, candidates, limit);
  }

  // ---- memberships ------------------------------------------------------------------------

  /** A row of `list_memberships_for_users`: one user's roles in one organisation. */
  datatype Membership = Membership(user: Id, org: Id, orgName: string, roleCodes: seq<string>, joinedAt: Time)

  datatype UserWithMemberships = UserWithMemberships(user: User, memberships: seq<Membership>)

  function OfUser(rows: seq<Membership>, user: Id): seq<Membership> {
    if rows == [] then []
    else OfUser(rows[..|rows| - 1], user) + if rows[|rows| - 1].user == user then rows[|rows| - 1..] else []
  }

  function InOrg(rows: seq<Membership>, org: Id): seq<Membership> {
    if rows == [] then []
    else InOrg(rows[..|rows| - 1], org) + if rows[|rows| - 1].org == org then rows[|rows| - 1..] else []
  }

  /** `WHERE uor.user_id = ANY(ids)`, in the order of the result. */
  function OfUsers(rows: seq<Membership>, ids: set<Id>): seq<Membership> {
    if rows == [] then []
    else OfUsers(rows[..|rows| - 1], ids) + if rows[|rows| - 1].user in ids then rows[|rows| - 1..] else []
  }

  lemma {:induction false} BulkFetchLosesNothing(rows: seq<Membership>, ids: set<Id>, user: Id)
    requires user in ids
    ensures OfUser(OfUsers(rows, ids), user) == OfUser(rows, user)
  {
    if rows != [] {
      var front, last := rows[..|rows| - 1], rows[|rows| - 1];
      BulkFetchLosesNothing(front, ids, user);
      assert rows[|rows| - 1..] == [last];
      if last.user in ids {
        var fetched := OfUsers(front, ids) + [last];
        assert OfUsers(rows, ids) == fetched;
        assert fetched[..|fetched| - 1] == OfUsers(front, ids) && fetched[|fetched| - 1..] == [last];
      } else {
        assert OfUsers(rows, ids) == OfUsers(front, ids);
        assert OfUser(rows, user) == OfUser(front, user);
      }
    }
  }

  function Got(byUser: map<Id, seq<Membership>>, user: Id): seq<Membership> {
    if user in byUser then byUser[user] else []
  }

  /** The map holds each user's rows, in order, and nothing else. */
  ghost predicate Groups(byUser: map<Id, seq<Membership>>, rows: seq<Membership>) {
    forall user :: Got(byUser, user) == OfUser(rows, user)
  }

  function Pushed(byUser: map<Id, seq<Membership>>, m: Membership): map<Id, seq<Membership>> {
    byUser[m.user := Got(byUser, m.user) + [m]]
  }

  lemma OneMoreRow(rows: seq<Membership>, m: Membership, user: Id)
    ensures OfUser(rows + [m], user) == if m.user == user then OfUser(rows, user) + [m] else OfUser(rows, user)
  {
    assert (rows + [m])[..|rows|] == rows && (rows + [m])[|rows|..] == [m];
  }

  lemma PushKeepsGroups(byUser: map<Id, seq<Membership>>, rows: seq<Membership>, m: Membership)
    requires Groups(byUser, rows)
    ensures Groups(Pushed(byUser, m), rows + [m])
  {
    forall user ensures Got(Pushed(byUser, m), user) == OfUser(rows + [m], user) {
      OneMoreRow(rows, m, user);
      assert Got(byUser, user) == OfUser(rows, user);
    }
  }

  method GroupByUserId(raw: seq<Membership>) returns (byUser: map<Id, seq<Membership>>)
    ensures Groups(byUser, raw)
  {
    byUser := map[];
    for i := 0 to |raw|
      invariant Groups(byUser, raw[..i])
    {
      var m := raw[i];
      PushKeepsGroups(byUser, raw[..i], m);
      byUser := byUser[m.user := Got(byUser, m.user) + [m]];
      assert raw[..i + 1] == raw[..i] + [m];
    }
    assert raw[..|raw|] == raw;
  }

  /** One bulk fetch for the users of a page, then grouping. */
  method FetchByUser(memberships: seq<Membership>, ids: set<Id>) returns (byUser: map<Id, seq<Membership>>)
    ensures forall user | user in ids :: Got(byUser, user) == OfUser(memberships, user)
  {
    byUser := GroupByUserId(OfUsers(memberships, ids));
    forall user | user in ids ensures Got(byUser, user) == OfUser(memberships, user) {
      BulkFetchLosesNothing(memberships, ids, user);
    }
  }

  /** `retain`, in place. */
  method Retain(rows: seq<Membership>, org: Id) returns (kept: seq<Membership>)
    ensures kept == InOrg(rows, org)
  {
    kept := [];
    for i := 0 to |rows|
      invariant kept == InOrg(rows[..i], org)
    {
      assert rows[..i + 1][..i] == rows[..i] && rows[..i + 1][i..] == [rows[i]];
      if rows[i].org == org { kept := kept + [rows[i]]; }
    }
    assert rows[..|rows|] == rows;
  }

  /** What a caller may see of one user's memberships. */
  function VisibleTo(mine: seq<Membership>, isOperator: bool, callerOrg: Option<Id>): seq<Membership> {
    if !isOperator && callerOrg.Some? then InOrg(mine, callerOrg.value) else mine
  }

  function Shown(memberships: seq<Membership>, user: Id, isOperator: bool, callerOrg: Option<Id>): seq<Membership> {
    VisibleTo(OfUser(memberships, user), isOperator, callerOrg)
  }

  /** `picked` is the elements of `all` to `keep`, each once and in their order; `at` says where they are. */
  ghost predicate PicksAt<T(!new)>(all: seq<T>, keep: T -> bool, picked: seq<T>, at: seq<nat>) {
    && |at| == |picked| && (forall k | 0 <= k < |at| :: at[k] < |all| && picked[k] == all[at[k]])
    && (forall j, k | 0 <= j < k < |at| :: at[j] < at[k])
    && (forall i: nat | i < |all| :: keep(all[i]) <==> i in at)
  }

  ghost predicate Picks<T(!new)>(all: seq<T>, keep: T -> bool, picked: seq<T>) {
    exists at: seq<nat> :: PicksAt(all, keep, picked, at)
  }

  lemma PickLast<T(!new)>(all: seq<T>, keep: T -> bool, picked: seq<T>, at: seq<nat>, x: T)
    requires PicksAt(all, keep, picked, at) && keep(x)
    ensures PicksAt(all + [x], keep, picked + [x], at + [|all|])
  {
    var longer, after := all + [x], at + [|all|];
    forall i: nat | i < |longer| ensures keep(longer[i]) <==> i in after {
      if i == |all| { assert after[|at|] == i; } else { assert longer[i] == all[i] && (i in after <==> i in at); }
    }
  }

  lemma SkipLast<T(!new)>(all: seq<T>, keep: T -> bool, picked: seq<T>, at: seq<nat>, x: T)
    requires PicksAt(all, keep, picked, at) && !keep(x)
    ensures PicksAt(all + [x], keep, picked, at)
  {
    var longer := all + [x];
    forall i: nat | i < |longer| ensures keep(longer[i]) <==> i in at {
      if i < |all| { assert longer[i] == all[i]; }
    }
  }

  lemma PickOneMore<T(!new)>(all: seq<T>, keep: T -> bool, picked: seq<T>, x: T)
    requires Picks(all, keep, picked)
    ensures Picks(all + [x], keep, if keep(x) then picked + [x] else picked)
  {
    var at: seq<nat> :| PicksAt(all, keep, picked, at);
    if keep(x) {
      PickLast(all, keep, picked, at, x);
    } else {
      SkipLast(all, keep, picked, at, x);
    }
  }

  lemma {:induction false} ShownArePicked(memberships: seq<Membership>, user: Id, isOperator: bool, callerOrg: Option<Id>, keep: Membership -> bool)
    requires forall m :: keep(m) <==> m.user == user && (isOperator || callerOrg == None || callerOrg == Some(m.org))
    ensures Picks(memberships, keep, Shown(memberships, user, isOperator, callerOrg))
  {
    if memberships == [] {
      assert PicksAt(memberships, keep, [], []);
    } else {
      var front, last := memberships[..|memberships| - 1], memberships[|memberships| - 1];
      assert memberships == front + [last];
      ShownArePicked(front, user, isOperator, callerOrg, keep);
      PickOneMore(front, keep, Shown(front, user, isOperator, callerOrg), last);
      OneMoreRow(front, last, user);
      if last.user == user && callerOrg.Some? { OneMoreInOrg(OfUser(front, user), last, callerOrg.value); }
    }
  }

  lemma OneMoreInOrg(rows: seq<Membership>, m: Membership, org: Id)
    ensures InOrg(rows + [m], org) == if m.org == org then InOrg(rows, org) + [m] else InOrg(rows, org)
  {
    assert (rows + [m])[..|rows|] == rows && (rows + [m])[|rows|..] == [m];
  }

  function Users(items: seq<UserWithMemberships>): seq<User> {
    seq(|items|, i requires 0 <= i < |items| => items[i].user)
  }

  /** One page of users, each with exactly its own visible memberships. `memberships` is the whole
      membership listing in its query's order. */
  method ListUsers(users: set<User>, roles: set<RoleRow>, memberships: seq<Membership>, ilike: Matcher, isOperator: bool,
                   callerOrg: Option<Id>, org: Option<Id>, q: Option<string>, cursor: Option<Key>, limit: nat)
    returns (items: seq<UserWithMemberships>, next: Option<Key>)
    requires limit >= 1
    requires forall u, v | u in users && v in users && u.id == v.id :: u == v
    ensures IsPage(Ascending, UserKey, Wanted(users, roles, ilike, if isOperator then org else callerOrg, q), cursor, limit,
                   Page(Users(items), next))
    ensures IsListPage(users,
                       (u: User) =>
                         var only := if isOperator then org else callerOrg;
                         && (only.Some? ==> exists r | r in roles :: r.user == u.id && r.org == only.value)
                         && (q.Some? ==> ilike(u.username, q.value) || ilike(u.email, q.value)),
                       (u: User) => u.createdAt, (u: User) => u.id, false, cursor, limit, Page(Users(items), next))
    ensures forall i | 0 <= i < |items| :: items[i].memberships == Shown(memberships, items[i].user.id, isOperator, callerOrg)
    ensures forall i | 0 <= i < |items| ::
              Picks(memberships,
                    (m: Membership) => m.user == items[i].user.id && (isOperator || callerOrg == None || callerOrg == Some(m.org)),
                    items[i].memberships)
  {
    var effective := if isOperator then org else callerOrg;
    var fetched := QueryUsers(users, roles, ilike, effective, q, cursor, limit + 1);
    var page := Truncate(Ascending, UserKey, Wanted(users, roles, ilike, effective, q), cursor, limit, fetched);
    next := page.next;
    items := Attach(page.items, memberships, isOperator, callerOrg);
    assert Users(items) == page.items;
    PageIsListed(Ascending, UserKey, Wanted(users, roles, ilike, effective, q), cursor, limit, page, users,
                 (u: User) =>
                   var only := if isOperator then org else callerOrg;
                   && (only.Some? ==> exists r | r in roles :: r.user == u.id && r.org == only.value)
                   && (q.Some? ==> ilike(u.username, q.value) || ilike(u.email, q.value)),
                 (u: User) => u.createdAt, (u: User) => u.id);
    forall i | 0 <= i < |items|
      ensures Picks(memberships,
                    (m: Membership) => m.user == items[i].user.id && (isOperator || callerOrg == None || callerOrg == Some(m.org)),
                    items[i].memberships)
    {
      ShownArePicked(memberships, items[i].user.id, isOperator, callerOrg,
                     (m: Membership) => m.user == items[i].user.id && (isOperator || callerOrg == None || callerOrg == Some(m.org)));
    }
  }

  method Attach(rows: seq<User>, memberships: seq<Membership>, isOperator: bool, callerOrg: Option<Id>)
    returns (items: seq<UserWithMemberships>)
    requires forall i, j | 0 <= i < j < |rows| :: rows[i].id != rows[j].id
    ensures |items| == |rows|
    ensures forall i | 0 <= i < |items| ::
              items[i] == UserWithMemberships(rows[i], Shown(memberships, rows[i].id, isOperator, callerOrg))
  {
    var ids := set i | 0 <= i < |rows| :: rows[i].id;
    var byUser := FetchByUser(memberships, ids);
    items := Assemble(rows, byUser, isOperator, callerOrg);
    forall i | 0 <= i < |items| ensures Got(byUser, rows[i].id) == OfUser(memberships, rows[i].id) {
      assert rows[i].id in ids;
    }
  }

  /** Each user takes its group out of the map; non-operators then keep their own organisation's rows. */
  method Assemble(rows: seq<User>, groups: map<Id, seq<Membership>>, isOperator: bool, callerOrg: Option<Id>)
    returns (items: seq<UserWithMemberships>)
    requires forall i, j | 0 <= i < j < |rows| :: rows[i].id != rows[j].id
    ensures |items| == |rows|
    ensures forall i | 0 <= i < |items| ::
              items[i] == UserWithMemberships(rows[i], VisibleTo(Got(groups, rows[i].id), isOperator, callerOrg))
  {
    var byUser := groups;
    items := [];
    for i := 0 to |rows|
      invariant |items| == i
      invariant forall k | 0 <= k < i ::
                  items[k] == UserWithMemberships(rows[k], VisibleTo(Got(groups, rows[k].id), isOperator, callerOrg))
      invariant forall k | i <= k < |rows| :: Got(byUser, rows[k].id) == Got(groups, rows[k].id)
    {
      var mine := Got(byUser, rows[i].id);
      byUser := byUser - {rows[i].id};
      if !isOperator && callerOrg.Some? {
        mine := Retain(mine, callerOrg.value);
      }
      items := items + [UserWithMemberships(rows[i], mine)];
    }
  }
}
