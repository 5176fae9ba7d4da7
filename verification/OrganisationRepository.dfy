/** The membership table as an object; each method is one call that does not overlap others. */
module OrganisationRepository {
  import opened Keyset
  import opened LastOwner

  datatype RepoError = NotMember | LastOwner | UnknownRoleCode | UnknownUser | NotFound | DuplicateName

  datatype Result<+T> = Ok(value: T) | Err(error: RepoError)

  class Repository {
    const roleCodes: set<string>
    var users: set<Id>
    var rows: set<Grant>
    var names: map<Id, string>     // organisations
    var orgs: set<Id>              // those created with an owner

    constructor (roleCodes: set<string>, users: set<Id>)
      requires OWNER in roleCodes
      ensures this.roleCodes == roleCodes && this.users == users
      ensures Valid() && names == map[]
    {
      this.roleCodes, this.users, rows, names, orgs := roleCodes, users, {}, map[], {};
    }

    /** Foreign keys, and the promise that recorded organisations have an owner. */
    ghost predicate Valid()
      reads this
    {
      && OWNER in roleCodes && orgs <= names.Keys
      && (forall g | g in rows :: g.org in names && g.user in users)
      && (forall org | org in orgs :: HasOwner(rows, org))
    }

    function View(): State
      reads this
    {
      State(rows, orgs, map[])
    }

    method CreateWithInitialOwner(id: Id, name: string, creator: Id, ownerRoleCode: string) returns (r: Result<Id>)
      requires Valid() && id !in names
      modifies this`rows, this`names, this`orgs
      ensures Valid()
      ensures r == if name in old(names).Values then Err(DuplicateName)
                   else if ownerRoleCode !in roleCodes then Err(UnknownRoleCode)
                   else if creator !in users then Err(UnknownUser)
                   else Ok(id)
      ensures r.Err? ==> rows == old(rows) && names == old(names) && orgs == old(orgs)
      ensures r.Ok? ==> rows == old(rows) + {Grant(creator, id, ownerRoleCode)} && names == old(names)[id := name]
      ensures r.Ok? && ownerRoleCode == OWNER ==> View() == Do(old(View()), CreateWithOwner(id, creator))
    {
      if name in names.Values { return Err(DuplicateName); }
      if ownerRoleCode !in roleCodes { return Err(UnknownRoleCode); }
      if creator !in users { return Err(UnknownUser); }
      names := names[id := name];
      rows := rows + {Grant(creator, id, ownerRoleCode)};
      if ownerRoleCode == OWNER {
        orgs := orgs + {id};
        assert Owns(rows, creator, id);
      }
      forall org | org in orgs && org != id ensures HasOwner(rows, org) {
        var user :| Owns(old(rows), user, org);
        assert Owns(rows, user, org);
      }
      r := Ok(id);
    }

    method AddMember(user: Id, org: Id, roleCode: string) returns (r: Result<()>)
      requires Valid()
      modifies this`rows
      ensures Valid()
      ensures r == if roleCode !in roleCodes then Err(UnknownRoleCode)
                   else if user !in users || org !in names then Err(NotFound) else Ok(())
      ensures View() == if r.Ok? then Do(old(View()), LastOwner.AddMember(Grant(user, org, roleCode))) else old(View())
      ensures rows == if r.Ok? then old(rows) + {Grant(user, org, roleCode)} else old(rows)
    {
      if roleCode !in roleCodes { return Err(UnknownRoleCode); }
      if user !in users || org !in names { return Err(NotFound); }
      rows := rows + {Grant(user, org, roleCode)};
      forall o | o in orgs ensures HasOwner(rows, o) {
        var u :| Owns(old(rows), u, o);
        assert Owns(rows, u, o);
      }
      r := Ok(());
    }

    /** Removes the member unless that would take the last owner. `steps` is the transaction as the step
        machine performs it. */
    method RemoveMemberChecked(user: Id, org: Id) returns (r: Result<()>, ghost steps: seq<Step>)
      requires Valid()
      modifies this`rows
      ensures Valid() && Leads(old(View()), steps, View())
      ensures r == if RowsOf(old(rows), user, org) == {} then Err(NotMember)
                   else if Owns(old(rows), user, org) && OtherOwners(old(rows), user, org) == {} then Err(RepoError.LastOwner)
                   else Ok(())
      ensures rows == if r.Ok? then old(rows) - RowsOf(old(rows), user, org) else old(rows)
      ensures r == Err(NotMember) <==> forall g <- old(rows) :: !(g.user == user && g.org == org)
      ensures r == Err(RepoError.LastOwner) <==>
                && Grant(user, org, "org_owner") in old(rows)
                && forall g <- old(rows) :: g.org == org && g.role == "org_owner" ==> g.user == user
      ensures r.Ok? ==> forall g :: g in rows <==> g in old(rows) && !(g.user == user && g.org == org)
    {
      ghost var s := View();
      ghost var m;
      RemovalMeans(rows, user, org);
      var mine := RowsOf(rows, user, org);
      if mine == {} {
        steps := RefusedRun(s, user, org);
        return Err(NotMember), steps;
      }
      var others := OtherOwners(rows, user, org);
      if Owns(rows, user, org) && |others| == 0 {
        steps := RefusedRun(s, user, org);
        return Err(RepoError.LastOwner), steps;
      }
      RemovalKeepsOwners(s, user, org);
      steps, m := WholeRemoval(s, [], s, 0, user, org);
      rows := rows - mine;
      r := Ok(());
    }
  }

  lemma RemovalMeans(rows: set<Grant>, user: Id, org: Id)
    ensures RowsOf(rows, user, org) == {} <==> forall g <- rows :: !(g.user == user && g.org == org)
    ensures OtherOwners(rows, user, org) == {} <==>
              forall g <- rows :: g.org == org && g.role == "org_owner" ==> g.user == user
    ensures forall g :: g in rows - RowsOf(rows, user, org) <==> g in rows && !(g.user == user && g.org == org)
  {
    var mine, others := RowsOf(rows, user, org), OtherOwners(rows, user, org);
    if forall g <- rows :: !(g.user == user && g.org == org) { assert forall g :: g !in mine; }
    forall g | g in rows && g.user == user && g.org == org ensures g in mine {
    }
    if forall g <- rows :: g.org == org && g.role == "org_owner" ==> g.user == user { assert forall g :: g !in others; }
    forall g | g in rows && g.org == org && g.role == "org_owner" && g.user != user ensures g in others {
    }
  }

  /** A refused removal reads and rolls back. */
  lemma RefusedRun(s: State, user: Id, org: Id) returns (steps: seq<Step>)
    requires s.txs == map[]
    requires RowsOf(s.rows, user, org) == {} || (Owns(s.rows, user, org) && OtherOwners(s.rows, user, org) == {})
    ensures Leads(s, steps, s)
  {
    var m;
    steps, m := Extend(s, [], s, Begin(0, user, org));
    if RowsOf(s.rows, user, org) != {} {
      steps, m := Extend(s, steps, m, CheckMember(0));
      steps, m := Extend(s, steps, m, CountOwners(0, {}));
    }
    steps, m := Extend(s, steps, m, Abort(0));
    assert m.txs == s.txs;
  }

  lemma RemovalKeepsOwners(s: State, user: Id, org: Id)
    requires s.txs == map[] && forall o | o in s.orgs :: HasOwner(s.rows, o)
    requires Owns(s.rows, user, org) ==> OtherOwners(s.rows, user, org) != {}
    ensures forall o | o in s.orgs :: HasOwner(s.rows - RowsOf(s.rows, user, org), o)
  {
    var removal := Removal(user, org, Deleted, OtherOwners(s.rows, user, org), RowsOf(s.rows, user, org));
    var m := s.(txs := map[0 := removal]);
    assert Inv(m);
    forall o | o in s.orgs ensures HasOwner(s.rows - RowsOf(s.rows, user, org), o) {
      CommitSparesAnOwner(m, 0, o);
    }
  }
}
