/** Last-owner protection: `remove_member_checked` transactions interleaved statement by statement. */
module LastOwner {
  import opened Keyset

  type TxId = int

  /** A row of `user_organisation_roles`, with the role's code. */
  datatype Grant = Grant(user: Id, org: Id, role: string)

  const OWNER := "org_owner"

  /** How far a removal has got: one phase after each of its statements. */
  datatype Phase = Begun | Member | Counted | Checked | Deleted

  /** An open removal. `locked` are the other owners' rows it counted `FOR UPDATE`; `deleted` its
      uncommitted deletes, which it also holds locked. */
  datatype Removal = Removal(user: Id, org: Id, phase: Phase, locked: set<Grant>, deleted: set<Grant>)

  datatype State = State(rows: set<Grant>, orgs: set<Id>, txs: map<TxId, Removal>)

  datatype Step =
    | Begin(tx: TxId, user: Id, org: Id)
    | CheckMember(tx: TxId)
    | CountOwners(tx: TxId, seen: set<Grant>)
    | CheckTarget(tx: TxId)
    | DeleteRows(tx: TxId, seen: set<Grant>)
    | Commit(tx: TxId)
    | Abort(tx: TxId)                     // refused, failed, deadlocked or crashed
    | AddMember(grant: Grant)
    | CreateWithOwner(org: Id, user: Id)

  function RowsOf(rows: set<Grant>, user: Id, org: Id): set<Grant> {
    set g | g in rows && g.user == user && g.org == org
  }

  function OtherOwners(rows: set<Grant>, user: Id, org: Id): set<Grant> {
    set g | g in rows && g.org == org && g.role == OWNER && g.user != user
  }

  predicate Owns(rows: set<Grant>, user: Id, org: Id) {
    Grant(user, org, OWNER) in rows
  }

  ghost predicate HasOwner(rows: set<Grant>, org: Id) {
    exists user :: Owns(rows, user, org)
  }

  function Held(tx: Removal): set<Grant> {
    tx.locked + tx.deleted
  }

  /** No other open transaction holds any of `rows`: otherwise the statement waits. */
  predicate Unlocked(s: State, t: TxId, rows: set<Grant>) {
    forall u | u in s.txs && u != t :: Held(s.txs[u]) !! rows
  }

  predicate InPhase(s: State, t: TxId, phase: Phase) {
    t in s.txs && s.txs[t].phase == phase
  }

  predicate Enabled(s: State, step: Step) {
    match step
    case Begin(t, _, _) => t !in s.txs
    case CheckMember(t) => InPhase(s, t, Begun) && RowsOf(s.rows, s.txs[t].user, s.txs[t].org) != {}
    case CountOwners(t, seen) =>
      // A statement that waited for a lock works on an older snapshot: rows granted meanwhile may be missing.
      && InPhase(s, t, Member) && seen <= OtherOwners(s.rows, s.txs[t].user, s.txs[t].org) && Unlocked(s, t, seen)
    case CheckTarget(t) =>
      InPhase(s, t, Counted) && !(Owns(s.rows, s.txs[t].user, s.txs[t].org) && |s.txs[t].locked| == 0)
    case DeleteRows(t, seen) =>
      InPhase(s, t, Checked) && seen <= RowsOf(s.rows, s.txs[t].user, s.txs[t].org) && Unlocked(s, t, seen)
    case Commit(t) => InPhase(s, t, Deleted)
    case Abort(t) => t in s.txs
    case AddMember(g) =>
      // Re-inserting a row whose deletion is uncommitted waits for that transaction.
      forall t | t in s.txs :: g !in s.txs[t].deleted
    case CreateWithOwner(org, _) =>
      org !in s.orgs && (forall g | g in s.rows :: g.org != org) && (forall t | t in s.txs :: s.txs[t].org != org)
  }

  function InTx(s: State, t: TxId, tx: Removal): State {
    s.(txs := s.txs[t := tx])
  }

  function Do(s: State, step: Step): State
    requires Enabled(s, step)
  {
    match step
    case Begin(t, user, org) => InTx(s, t, Removal(user, org, Begun, {}, {}))
    case CheckMember(t) => InTx(s, t, s.txs[t].(phase := Member))
    case CountOwners(t, seen) => InTx(s, t, s.txs[t].(phase := Counted, locked := seen))
    case CheckTarget(t) => InTx(s, t, s.txs[t].(phase := Checked))
    case DeleteRows(t, seen) => InTx(s, t, s.txs[t].(phase := Deleted, deleted := seen))
    case Commit(t) => s.(rows := s.rows - s.txs[t].deleted, txs := s.txs - {t})
    case Abort(t) => s.(txs := s.txs - {t})
    case AddMember(g) => s.(rows := s.rows + {g})
    case CreateWithOwner(org, user) => s.(rows := s.rows + {Grant(user, org, OWNER)}, orgs := s.orgs + {org})
  }

  predicate Leads(s: State, steps: seq<Step>, t: State)
    decreases |steps|
  {
    if steps == [] then s == t
    else Enabled(s, steps[0]) && Leads(Do(s, steps[0]), steps[1..], t)
  }

  /** The one window the statements leave open: a removal that counted no other owner and then found its
      target not to be an owner, before it deletes. Ownership must not be granted to its target there. */
  predicate Exposed(tx: Removal, user: Id, org: Id) {
    tx.user == user && tx.org == org && tx.phase == Checked && tx.locked == {}
  }

  predicate Careful(s: State, step: Step) {
    step.AddMember? && step.grant.role == OWNER ==>
      forall t | t in s.txs :: !Exposed(s.txs[t], step.grant.user, step.grant.org)
  }

  predicate CarefulRun(s: State, steps: seq<Step>)
    decreases |steps|
  {
    steps == [] || (Enabled(s, steps[0]) && Careful(s, steps[0]) && CarefulRun(Do(s, steps[0]), steps[1..]))
  }

  // ---- invariant -------------------------------------------------------------------

  ghost predicate RemovalOk(rows: set<Grant>, tx: Removal) {
    && tx.locked <= OtherOwners(rows, tx.user, tx.org)
    && tx.deleted <= RowsOf(rows, tx.user, tx.org) && (tx.phase != Deleted ==> tx.deleted == {})
    && (tx.phase == Checked && tx.locked == {} ==> !Owns(rows, tx.user, tx.org))
    && (tx.phase == Deleted && tx.locked == {} ==> !Owns(tx.deleted, tx.user, tx.org))
  }

  ghost predicate Inv(s: State) {
    && (forall org | org in s.orgs :: HasOwner(s.rows, org))
    && (forall t | t in s.txs :: RemovalOk(s.rows, s.txs[t]))
    && (forall t, u | t in s.txs && u in s.txs && t != u :: Held(s.txs[t]) !! Held(s.txs[u]))
  }

  /** The heart of it: a commit spares an owner, either one it locked or one that is not its target. */
  lemma CommitSparesAnOwner(s: State, t: TxId, org: Id)
    requires Inv(s) && Enabled(s, Commit(t)) && org in s.orgs
    ensures HasOwner(Do(s, Commit(t)).rows, org)
  {
    var tx, rows := s.txs[t], Do(s, Commit(t)).rows;
    assert RemovalOk(s.rows, tx);
    if org == tx.org && tx.locked != {} {
      var g :| g in tx.locked;
      assert g == Grant(g.user, org, OWNER);
      assert Owns(rows, g.user, org);
    } else {
      var user :| Owns(s.rows, user, org);
      assert Owns(rows, user, org);
    }
  }

  lemma StepKeepsInv(s: State, step: Step)
    requires Inv(s) && Enabled(s, step) && Careful(s, step)
    ensures Inv(Do(s, step))
  {
    var u := Do(s, step);
    forall org | org in u.orgs ensures HasOwner(u.rows, org) {
      if step.Commit? {
        CommitSparesAnOwner(s, step.tx, org);
      } else if org in s.orgs {
        var user :| Owns(s.rows, user, org);
        assert Owns(u.rows, user, org);
      } else {
        assert Owns(u.rows, step.user, org);
      }
    }
    forall t | t in u.txs ensures RemovalOk(u.rows, u.txs[t]) {
      if t in s.txs {
        assert RemovalOk(s.rows, s.txs[t]);
        if step.Commit? { assert Held(s.txs[t]) !! Held(s.txs[step.tx]); }
      }
    }
  }

  lemma {:induction false} RunKeepsInv(s: State, steps: seq<Step>, t: State)
    requires Inv(s) && Leads(s, steps, t) && CarefulRun(s, steps)
    ensures s.orgs <= t.orgs && Inv(t)
    decreases |steps|
  {
    if steps != [] {
      StepKeepsInv(s, steps[0]);
      RunKeepsInv(Do(s, steps[0]), steps[1..], t);
    }
  }

  /** Any number of removals, grants and new organisations, interleaved in any way that keeps ownership
      grants out of the open window: every organisation that had an owner still has one. */
  lemma OwnersRemain(s: State, steps: seq<Step>, t: State)
    requires s.txs == map[] && forall org | org in s.orgs :: HasOwner(s.rows, org)
    requires Leads(s, steps, t) && CarefulRun(s, steps)
    ensures s.orgs <= t.orgs && forall org | org in t.orgs :: HasOwner(t.rows, org)
  {
    RunKeepsInv(s, steps, t);
  }

  // ---- the window is exact -----------------------------------------------------------

  predicate NoGrants(steps: seq<Step>) {
    forall i | 0 <= i < |steps| :: !steps[i].AddMember?
  }

  lemma {:induction false} NoGrantsIsCareful(s: State, steps: seq<Step>, t: State)
    requires Leads(s, steps, t) && NoGrants(steps)
    ensures CarefulRun(s, steps)
    decreases |steps|
  {
    if steps != [] {
      NoGrantsIsCareful(Do(s, steps[0]), steps[1..], t);
    }
  }

  lemma {:induction false} LeadsOneMore(s: State, steps: seq<Step>, m: State, step: Step)
    requires Leads(s, steps, m) && Enabled(m, step)
    ensures Leads(s, steps + [step], Do(m, step))
    decreases |steps|
  {
    if steps == [] {
      assert Leads(Do(m, step), [], Do(m, step));
    } else {
      assert (steps + [step])[1..] == steps[1..] + [step];
      LeadsOneMore(Do(s, steps[0]), steps[1..], m, step);
    }
  }

  lemma Extend(s: State, steps: seq<Step>, m: State, step: Step) returns (longer: seq<Step>, t: State)
    requires Leads(s, steps, m) && Enabled(m, step)
    ensures Leads(s, longer, t) && t == Do(m, step)
    ensures NoGrants(steps) && !step.AddMember? ==> NoGrants(longer)
  {
    LeadsOneMore(s, steps, m, step);
    longer, t := steps + [step], Do(m, step);
  }

  /** The checks of a removal, uninterrupted, beside transactions that hold no locks. */
  lemma ChecksPass(s: State, before: seq<Step>, a: State, t: TxId, user: Id, org: Id)
    returns (steps: seq<Step>, m: State)
    requires Leads(s, before, a) && t !in a.txs && forall x | x in a.txs :: Held(a.txs[x]) == {}
    requires RowsOf(a.rows, user, org) != {}
    requires Owns(a.rows, user, org) ==> OtherOwners(a.rows, user, org) != {}
    ensures Leads(s, steps, m) && (NoGrants(before) ==> NoGrants(steps))
    ensures m == InTx(a, t, Removal(user, org, Checked, OtherOwners(a.rows, user, org), {}))
  {
    var others := OtherOwners(a.rows, user, org);
    steps, m := Extend(s, before, a, Begin(t, user, org));
    steps, m := Extend(s, steps, m, CheckMember(t));
    steps, m := Extend(s, steps, m, CountOwners(t, others));
    steps, m := Extend(s, steps, m, CheckTarget(t));
    assert m.txs == a.txs[t := Removal(user, org, Checked, others, {})];
  }

  /** A whole removal, uninterrupted: exactly the member's rows are gone. */
  lemma WholeRemoval(s: State, before: seq<Step>, a: State, t: TxId, user: Id, org: Id)
    returns (steps: seq<Step>, m: State)
    requires Leads(s, before, a) && t !in a.txs && forall x | x in a.txs :: Held(a.txs[x]) == {}
    requires RowsOf(a.rows, user, org) != {}
    requires Owns(a.rows, user, org) ==> OtherOwners(a.rows, user, org) != {}
    ensures Leads(s, steps, m) && (NoGrants(before) ==> NoGrants(steps))
    ensures m == a.(rows := a.rows - RowsOf(a.rows, user, org))
    ensures forall g :: g in m.rows <==> g in a.rows && !(g.user == user && g.org == org)
  {
    steps, m := ChecksPass(s, before, a, t, user, org);
    steps, m := RowsGo(s, steps, m, a, t, m.txs[t]);
  }

  lemma RowsGo(s: State, before: seq<Step>, b: State, a: State, t: TxId, tx: Removal)
    returns (steps: seq<Step>, m: State)
    requires Leads(s, before, b) && t !in a.txs && forall x | x in a.txs :: Held(a.txs[x]) == {}
    requires tx.phase == Checked && b == InTx(a, t, tx)
    ensures Leads(s, steps, m) && (NoGrants(before) ==> NoGrants(steps))
    ensures m == a.(rows := a.rows - RowsOf(a.rows, tx.user, tx.org))
  {
    steps, m := Extend(s, before, b, DeleteRows(t, RowsOf(a.rows, tx.user, tx.org)));
    steps, m := Extend(s, steps, m, Commit(t));
    assert m.txs == a.txs;
  }

  /** Every other open transaction may abort. */
  lemma {:induction false} OthersAbort(s: State, before: seq<Step>, a: State, keep: TxId)
    returns (steps: seq<Step>, m: State)
    requires Leads(s, before, a) && NoGrants(before) && keep in a.txs
    ensures Leads(s, steps, m) && NoGrants(steps) && m == a.(txs := map[keep := a.txs[keep]])
    decreases |a.txs|
  {
    if other :| other in a.txs && other != keep {
      steps, m := Extend(s, before, a, Abort(other));
      assert m.txs.Keys == a.txs.Keys - {other};
      steps, m := OthersAbort(s, steps, m, keep);
    } else {
      steps, m := before, a;
      var txs := a.txs;
      assert forall x | x in txs :: x == keep;
      assert txs == map[keep := txs[keep]];
    }
  }

  /** Beside an exposed removal whose target owns the organisation, all other owners may be removed. */
  lemma {:induction false} OthersLeave(s: State, before: seq<Step>, a: State, t: TxId, user: Id, org: Id)
    returns (steps: seq<Step>, m: State)
    requires Leads(s, before, a) && NoGrants(before) && Owns(a.rows, user, org)
    requires a.txs == map[t := Removal(user, org, Checked, {}, {})]
    ensures Leads(s, steps, m) && NoGrants(steps) && m.txs == a.txs
    ensures Owns(m.rows, user, org) && OtherOwners(m.rows, user, org) == {}
    decreases |OtherOwners(a.rows, user, org)|
  {
    steps, m := before, a;
    var others := OtherOwners(a.rows, user, org);
    if g :| g in others {
      assert Grant(user, org, OWNER) in OtherOwners(a.rows, g.user, org) && g in RowsOf(a.rows, g.user, org);
      steps, m := WholeRemoval(s, before, a, t + 1, g.user, org);
      assert OtherOwners(m.rows, user, org) == others - {g};
      steps, m := OthersLeave(s, steps, m, t, user, org);
    }
  }

  /** An exposed removal takes the last owner with it. */
  lemma LastOneLeaves(s: State, before: seq<Step>, a: State, t: TxId, user: Id, org: Id)
    returns (steps: seq<Step>, m: State)
    requires Leads(s, before, a) && NoGrants(before) && OtherOwners(a.rows, user, org) == {}
    requires a.txs == map[t := Removal(user, org, Checked, {}, {})]
    ensures Leads(s, steps, m) && NoGrants(steps) && !HasOwner(m.rows, org)
  {
    var mine := RowsOf(a.rows, user, org);
    steps, m := Extend(s, before, a, DeleteRows(t, mine));
    steps, m := Extend(s, steps, m, Commit(t));
    assert m.rows == a.rows - mine;
    forall u ensures !Owns(m.rows, u, org) {
      var g := Grant(u, org, OWNER);
      assert g in a.rows ==> if u == user then g in mine else g in OtherOwners(a.rows, user, org);
    }
  }

  ghost predicate CanLoseOwner(s: State, org: Id) {
    exists steps: seq<Step>, t: State :: CarefulRun(s, steps) && Leads(s, steps, t) && !HasOwner(t.rows, org)
  }

  /** Ownership granted inside the window can be lost, in any state and with no further grant at all. */
  lemma GrantInsideTheWindowLosesTheOwner(s: State, g: Grant, t: TxId)
    requires Inv(s) && Enabled(s, AddMember(g)) && g.role == OWNER
    requires t in s.txs && Exposed(s.txs[t], g.user, g.org)
    ensures CanLoseOwner(Do(s, AddMember(g)), g.org)
  {
    var u := Do(s, AddMember(g));
    assert RemovalOk(s.rows, s.txs[t]);
    var steps, m := OthersAbort(u, [], u, t);
    steps, m := OthersLeave(u, steps, m, t, g.user, g.org);
    steps, m := LastOneLeaves(u, steps, m, t, g.user, g.org);
    NoGrantsIsCareful(u, steps, m);
  }

  /** The window is exact: after a grant of ownership the organisation can lose its last owner, all later
      grants staying out of the window, if and only if this one fell into it. */
  lemma WindowIsExact(s: State, g: Grant)
    requires Inv(s) && Enabled(s, AddMember(g)) && g.role == OWNER && g.org in s.orgs
    ensures CanLoseOwner(Do(s, AddMember(g)), g.org) <==> !Careful(s, AddMember(g))
  {
    var u := Do(s, AddMember(g));
    if Careful(s, AddMember(g)) {
      StepKeepsInv(s, AddMember(g));
      if CanLoseOwner(u, g.org) {
        var steps, t :| CarefulRun(u, steps) && Leads(u, steps, t) && !HasOwner(t.rows, g.org);
        RunKeepsInv(u, steps, t);
      }
    } else {
      var t :| t in s.txs && Exposed(s.txs[t], g.user, g.org);
      GrantInsideTheWindowLosesTheOwner(s, g, t);
    }
  }

  /** The window opens in ordinary use: the removal of a sole owner counts no other one, the ownership is
      handed to someone else, and only then is the target looked at. */
  lemma WindowsOpen(s: State, sole: Id, other: Id, org: Id) returns (steps: seq<Step>, t: State)
    requires s.txs == map[] && sole != other
    requires Owns(s.rows, sole, org) && OtherOwners(s.rows, sole, org) == {}
    ensures Leads(s, steps, t) && 1 in t.txs && Exposed(t.txs[1], sole, org) && t.orgs == s.orgs
  {
    assert Grant(sole, org, OWNER) in RowsOf(s.rows, sole, org);
    steps, t := Extend(s, [], s, Begin(1, sole, org));
    steps, t := Extend(s, steps, t, CheckMember(1));
    steps, t := Extend(s, steps, t, CountOwners(1, {}));
    steps, t := Extend(s, steps, t, AddMember(Grant(other, org, OWNER)));
    steps, t := OwnershipMovesOn(s, steps, t, sole, other, org);
  }

  lemma OwnershipMovesOn(s: State, before: seq<Step>, a: State, sole: Id, other: Id, org: Id)
    returns (steps: seq<Step>, t: State)
    requires Leads(s, before, a) && a.txs == map[1 := Removal(sole, org, Counted, {}, {})]
    requires sole != other && Owns(a.rows, sole, org) && Owns(a.rows, other, org)
    ensures Leads(s, steps, t) && t == a.(rows := t.rows, txs := map[1 := Removal(sole, org, Checked, {}, {})])
  {
    assert Grant(sole, org, OWNER) in RowsOf(a.rows, sole, org);
    assert Grant(other, org, OWNER) in OtherOwners(a.rows, sole, org);
    steps, t := WholeRemoval(s, before, a, 2, sole, org);
    assert !Owns(t.rows, sole, org);
    steps, t := Extend(s, steps, t, CheckTarget(1));
    assert t.txs == map[1 := Removal(sole, org, Checked, {}, {})];
  }
}
