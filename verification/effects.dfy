/** What each performed operation does to the stored rows, and through them to what users may do. */
module Effects {
  import opened Wrappers
  import opened HostModel
  import opened Hierarchy
  import opened Ancestry
  import opened Engine
  import opened Authority
  import opened Delegation
  import opened Membership
  import opened Access
  import opened Entitlement
  import Lifecycle

  // ---- Grants -----------------------------------------------------------------------------------------

  /** The row says what the request asked for, and who granted it. */
  ghost predicate Records(a: Assignment, req: GrantRequest, actor: User) {
    && a.user == req.user && a.role == req.role && a.grantedBy == actor.pk
    && a.validFrom == req.validFrom && a.validUntil == req.validUntil
    && (match req.scope
        case Some(n) => a.scopeCt == Some(n.model) && a.scopeId == Some(n.pk)
        case None => a.scopeCt.None? && a.scopeId.None?)
    && (req.level.Some? || req.scope.None? ==> a.level == req.level)
    && a.status == ACTIVE && a.revokedBy.None? && a.revokedAt.None?
  }

  /** Exactly one row is new, and it records the request; no row and no role changes. */
  lemma GrantStoresTheRequest(env: Env, db: Db, actor: User, now: int, req: GrantRequest)
    requires Integrity(db) && Grant(env, db, actor, now, req).Ok?
    ensures var after, k := Grant(env, db, actor, now, req).value, db.nextAssignment;
            && k !in db.assignments && after.assignments == db.assignments[k := after.assignments[k]]
            && after.roles == db.roles && req.role in db.roles
            && after.assignments[k].pk == k && Records(after.assignments[k], req, actor)
            && (req.level.None? && req.scope.Some? ==>
                  exists i: nat :: PlaysOnly(env, i, req.scope.value) && after.assignments[k].level == Some(env.levels[i].name))
  {
    if req.scope.Some? {
      LevelInferredExactlyWhenOne(env, req.scope.value);
      if req.level.Some? {
        LevelGivenExactlyWhenPlayed(env, req.level.value, req.scope.value);
      }
    }
  }

  /** The grantee's ACTIVE rows gain that row, and nobody else's rows change. */
  lemma GrantReachesTheGranteeOnly(env: Env, db: Db, actor: User, now: int, req: GrantRequest, user: nat)
    requires Integrity(db) && Grant(env, db, actor, now, req).Ok?
    ensures var after := Grant(env, db, actor, now, req).value;
            ActiveRows(after, user) ==
              if user == req.user
              then ActiveRows(db, user) + {Held(after.assignments[db.nextAssignment], db.roles[req.role])}
              else ActiveRows(db, user)
  {
    GrantStoresTheRequest(env, db, actor, now, req);
    var after, k := Grant(env, db, actor, now, req).value, db.nextAssignment;
    var added := Held(after.assignments[k], db.roles[req.role]);
    forall h ensures h in ActiveRows(after, user) <==> h in ActiveRows(db, user) || (user == req.user && h == added) {
      if h in ActiveRows(after, user) {
        var j :| j in after.assignments && after.assignments[j].user == user && after.assignments[j].status == ACTIVE
                 && after.assignments[j].role in after.roles && h == Held(after.assignments[j], after.roles[after.assignments[j].role]);
        if j != k {
          assert after.assignments[j] == db.assignments[j];
        }
      }
      if h in ActiveRows(db, user) {
        var j :| j in db.assignments && db.assignments[j].user == user && db.assignments[j].status == ACTIVE
                 && db.assignments[j].role in db.roles && h == Held(db.assignments[j], db.roles[db.assignments[j].role]);
        assert after.assignments[j] == db.assignments[j];
      }
    }
  }

  lemma RecordedScopeFits(env: Env, a: Assignment, req: GrantRequest, actor: User)
    requires UniqueNames(env.levels) && Records(a, req, actor) && ScopeFits(env, req.level, req.scope)
    requires a.level == StoredLevel(env, req.level, req.scope)
    ensures Fits(env, a)
  {
    LevelOkExactlyWhenFits(env, req.level, req.scope);
    if req.scope.Some? {
      assert Obj(a.scopeCt.value, a.scopeId.value) == req.scope.value;
    }
  }

  /** The new row is a valid one. */
  lemma GrantedRowCounts(env: Env, db: Db, actor: User, now: int, req: GrantRequest, later: int)
    requires UniqueNames(env.levels) && Integrity(db) && Grant(env, db, actor, now, req).Ok?
    requires (req.validFrom.Some? ==> req.validFrom.value <= later) && (req.validUntil.Some? ==> later < req.validUntil.value)
    ensures Counts(env, Grant(env, db, actor, now, req).value, db.nextAssignment, req.user, later)
  {
    GrantStoresTheRequest(env, db, actor, now, req);
    LevelOkExactlyWhenFits(env, req.level, req.scope);
    var a := Grant(env, db, actor, now, req).value.assignments[db.nextAssignment];
    AssignableExactlyWhen(env, db.roles[req.role], a.level, req.scope);
    RecordedScopeFits(env, a, req, actor);
    assert WithinOwner(env, db.roles[req.role], a);
  }

  /** From the grant on, inside its window, an active grantee has every permission of the role on every object
      at or below the scope, and on every object of the deployment that is within reach for a grant without one. */
  lemma GrantGivesAccess(env: Env, db: Db, actor: User, now: int, req: GrantRequest, user: User, later: int, p: Permission, o: Obj)
    requires UniqueNames(env.levels) && Integrity(db) && Grant(env, db, actor, now, req).Ok?
    requires user.pk == req.user && user.active && p in db.roles[req.role].perms
    requires (req.validFrom.Some? ==> req.validFrom.value <= later) && (req.validUntil.Some? ==> later < req.validUntil.value)
    requires match ResolveAnchor(env, o)
             case AtNode(n) => req.scope.None? || IsAncestorOrSelf(env, req.scope.value, n)
             case Denied => req.scope.None?
             case Global => true
             case Unregistered => false
    ensures HasPerm(env, user, EffectiveRows(Grant(env, db, actor, now, req).value, user.pk, later), p, Some(o))
  {
    var after, k := Grant(env, db, actor, now, req).value, db.nextAssignment;
    GrantStoresTheRequest(env, db, actor, now, req);
    GrantedRowCounts(env, db, actor, now, req, later);
    assert IsNodeModel(env.levels, o.model) <==> OfNodeModel(env, o);
    assert req.scope.Some? ==> Obj(after.assignments[k].scopeCt.value, after.assignments[k].scopeId.value) == req.scope.value;
    assert ReachesObject(env, after.assignments[k], o);
    AllowedExactlyWhen(env, after, user, later, p, o);
  }

  // ---- Windows ----------------------------------------------------------------------------------------

  /** A row expired, or not yet in force, is in nobody's effective rows. */
  lemma OutsideItsWindowARowIsUnused(db: Db, k: nat, user: nat, now: int)
    requires Integrity(db) && k in db.assignments
    requires (db.assignments[k].validUntil.Some? && db.assignments[k].validUntil.value <= now)
             || (db.assignments[k].validFrom.Some? && now < db.assignments[k].validFrom.value)
    ensures forall h :: h in EffectiveRows(db, user, now) ==> h.a.pk != k
  {
    forall h | h in EffectiveRows(db, user, now) ensures h.a.pk != k {
      EffectiveExactlyWhen(db, user, now, h);
    }
  }

  /** Nothing a row says of its grant ever changes. */
  lemma {:induction false} GrantStands(env: Env, db: Db, ws: seq<Lifecycle.Write>, k: nat)
    requires k in db.assignments && k < db.nextAssignment
    ensures k in Lifecycle.ApplyAll(env, db, ws).assignments
    ensures var a, b := db.assignments[k], Lifecycle.ApplyAll(env, db, ws).assignments[k];
            b == a.(status := b.status, revokedBy := b.revokedBy, revokedAt := b.revokedAt, reason := b.reason)
    decreases |ws|
  {
    if ws != [] {
      Lifecycle.WriteIsRowStep(env, db, ws[0], k);
      GrantStands(env, Lifecycle.Apply(env, db, ws[0]), ws[1..], k);
    }
  }

  lemma RunKeepsGrant(env: Env, db: Db, requests: seq<Request>, k: nat)
    requires k in db.assignments && k < db.nextAssignment
    ensures k in Run(env, db, requests).assignments
    ensures var a, b := db.assignments[k], Run(env, db, requests).assignments[k];
            b == a.(status := b.status, revokedBy := b.revokedBy, revokedAt := b.revokedAt, reason := b.reason)
  {
    var ws := Lifecycle.RunsAreWrites(env, db, requests);
    GrantStands(env, db, ws, k);
  }

  /** Whatever operations follow a grant, at any instant its row is among the grantee's effective rows if and only
      if it is still ACTIVE and the instant is at or after `valid_from`, when given, and before `valid_until`,
      when given. */
  lemma GrantIsEffectiveExactlyInItsWindow(env: Env, db: Db, actor: User, now: int, req: GrantRequest, requests: seq<Request>, later: int)
    requires Sound(env, db) && Grant(env, db, actor, now, req).Ok?
    ensures var end, k := Run(env, Grant(env, db, actor, now, req).value, requests), db.nextAssignment;
            && k in end.assignments
            && ((exists h :: h in EffectiveRows(end, req.user, later) && h.a.pk == k) <==>
                  && end.assignments[k].status == ACTIVE
                  && (req.validFrom.Some? ==> req.validFrom.value <= later)
                  && (req.validUntil.Some? ==> later < req.validUntil.value))
  {
    var after, k := Grant(env, db, actor, now, req).value, db.nextAssignment;
    GrantStoresTheRequest(env, db, actor, now, req);
    GrantKeepsSound(env, db, actor, now, req);
    RunKeepsGrant(env, after, requests, k);
    RunKeepsSound(env, after, requests);
    var end := Run(env, after, requests);
    RowEffectiveExactlyWhen(end, k, later);
  }

  lemma RowEffectiveExactlyWhen(db: Db, k: nat, now: int)
    requires Integrity(db) && k in db.assignments
    ensures (exists h :: h in EffectiveRows(db, db.assignments[k].user, now) && h.a.pk == k) <==>
              && db.assignments[k].status == ACTIVE
              && (db.assignments[k].validFrom.Some? ==> db.assignments[k].validFrom.value <= now)
              && (db.assignments[k].validUntil.Some? ==> now < db.assignments[k].validUntil.value)
  {
    var a := db.assignments[k];
    EffectiveExactlyWhen(db, a.user, now, Held(a, db.roles[a.role]));
    if h :| h in EffectiveRows(db, a.user, now) && h.a.pk == k {
      EffectiveExactlyWhen(db, a.user, now, h);
    }
  }

  // ---- Transitions ------------------------------------------------------------------------------------

  function StatusAfter(t: Transition): Status {
    match t
    case Suspend => SUSPENDED
    case Reactivate => ACTIVE
    case Revoke => REVOKED
  }

  /** A performed transition changes that row's status, a revocation records who, when and why, and nothing else
      changes. */
  lemma TransitionChangesTheRow(env: Env, db: Db, actor: User, now: int, pk: nat, t: Transition, reason: string)
    requires Transitioned(env, db, actor, now, pk, t, reason).Ok?
    ensures var after := Transitioned(env, db, actor, now, pk, t, reason).value;
            && pk in db.assignments && after.assignments == db.assignments[pk := after.assignments[pk]] && after.roles == db.roles
            && after.assignments[pk].status == StatusAfter(t) && db.assignments[pk].status != StatusAfter(t)
            && (t == Revoke ==>
                  && after.assignments[pk].revokedBy == Some(actor.pk) && after.assignments[pk].revokedAt == Some(now)
                  && after.assignments[pk].reason == reason)
            && (t != Revoke ==> after.assignments[pk] == db.assignments[pk].(status := StatusAfter(t)))
  {
  }

  lemma InactiveRowIsNobodys(db: Db, k: nat)
    requires Integrity(db) && k in db.assignments && db.assignments[k].status != ACTIVE
    ensures forall user: nat, h :: h in ActiveRows(db, user) ==> h.a.pk != k
  {
  }

  /** After a performed revocation, and over every later run, the row is in nobody's rows. */
  lemma RevokedRowIsGoneForGood(env: Env, db: Db, actor: User, now: int, pk: nat, reason: string, requests: seq<Request>, user: nat)
    requires Sound(env, db) && Transitioned(env, db, actor, now, pk, Revoke, reason).Ok?
    ensures var end := Run(env, Transitioned(env, db, actor, now, pk, Revoke, reason).value, requests);
            && pk in end.assignments && end.assignments[pk].status == REVOKED
            && end.assignments[pk].revokedBy == Some(actor.pk) && end.assignments[pk].revokedAt == Some(now)
            && end.assignments[pk].reason == reason
            && forall h :: h in ActiveRows(end, user) ==> h.a.pk != pk
  {
    var after := Transitioned(env, db, actor, now, pk, Revoke, reason).value;
    TransitionChangesTheRow(env, db, actor, now, pk, Revoke, reason);
    MoveKeepsSound(env, db, pk, Revoke, actor, now, reason);
    RunKeepsSound(env, after, requests);
    var ws := Lifecycle.RunsAreWrites(env, after, requests);
    Lifecycle.RevokedForGood(env, after, ws, pk);
    InactiveRowIsNobodys(Run(env, after, requests), pk);
  }

  /** No request of the run reactivates the row with success. */
  ghost predicate NeverReactivated(env: Env, db: Db, requests: seq<Request>, pk: nat)
    decreases |requests|
  {
    requests == [] ||
    (&& !(requests[0].op.OpTransition? && requests[0].op.row == pk && requests[0].op.t == Reactivate && Perform(env, db, requests[0]).Ok?)
     && NeverReactivated(env, After(env, db, requests[0]), requests[1..], pk))
  }

  lemma OnlyReactivationWakes(env: Env, db: Db, r: Request, pk: nat)
    requires Integrity(db) && pk in db.assignments && db.assignments[pk].status != ACTIVE
    requires !(r.op.OpTransition? && r.op.row == pk && r.op.t == Reactivate && Perform(env, db, r).Ok?)
    ensures pk in After(env, db, r).assignments && After(env, db, r).assignments[pk].status != ACTIVE
  {
    if r.op.OpTransition? && Perform(env, db, r).Ok? {
      TransitionChangesTheRow(env, db, r.actor, r.now, r.op.row, r.op.t, r.op.reason);
    } else if r.op.OpGrant? && Perform(env, db, r).Ok? {
      GrantStoresTheRequest(env, db, r.actor, r.now, r.op.req);
    } else {
      assert After(env, db, r).assignments == db.assignments;
    }
  }

  /** A row out of force stays out until it is reactivated. */
  lemma {:induction false} SuspendedRowSleeps(env: Env, db: Db, requests: seq<Request>, pk: nat, user: nat)
    requires Sound(env, db) && pk in db.assignments && db.assignments[pk].status != ACTIVE
    requires NeverReactivated(env, db, requests, pk)
    ensures pk in Run(env, db, requests).assignments && Run(env, db, requests).assignments[pk].status != ACTIVE
    ensures forall h :: h in ActiveRows(Run(env, db, requests), user) ==> h.a.pk != pk
    decreases |requests|
  {
    if requests == [] {
      InactiveRowIsNobodys(db, pk);
    } else {
      OnlyReactivationWakes(env, db, requests[0], pk);
      OperationKeepsSound(env, db, requests[0]);
      SuspendedRowSleeps(env, After(env, db, requests[0]), requests[1..], pk, user);
    }
  }

  /** After a performed suspension, nobody has the row until a performed reactivation, which gives it back. */
  lemma SuspensionLastsUntilReactivation(env: Env, db: Db, actor: User, now: int, pk: nat, reason: string, requests: seq<Request>, user: nat)
    requires Sound(env, db) && Transitioned(env, db, actor, now, pk, Suspend, reason).Ok?
    requires NeverReactivated(env, Transitioned(env, db, actor, now, pk, Suspend, reason).value, requests, pk)
    ensures forall h :: h in ActiveRows(Run(env, Transitioned(env, db, actor, now, pk, Suspend, reason).value, requests), user) ==>
              h.a.pk != pk
  {
    TransitionChangesTheRow(env, db, actor, now, pk, Suspend, reason);
    MoveKeepsSound(env, db, pk, Suspend, actor, now, reason);
    SuspendedRowSleeps(env, Transitioned(env, db, actor, now, pk, Suspend, reason).value, requests, pk, user);
  }

  lemma ReactivationGivesTheRowBack(env: Env, db: Db, actor: User, now: int, pk: nat, reason: string)
    requires Sound(env, db) && Transitioned(env, db, actor, now, pk, Reactivate, reason).Ok?
    ensures var after := Transitioned(env, db, actor, now, pk, Reactivate, reason).value;
            && pk in after.assignments && after.assignments[pk].role in after.roles
            && Held(after.assignments[pk], after.roles[after.assignments[pk].role]) in ActiveRows(after, after.assignments[pk].user)
            && after.assignments[pk].user == db.assignments[pk].user
  {
    TransitionChangesTheRow(env, db, actor, now, pk, Reactivate, reason);
  }

  // ---- Roles ------------------------------------------------------------------------------------------

  /** Adding permissions changes that role's permissions and nothing else; so does removing them, and what was
      removed is gone. */
  lemma PermissionEditsChangeTheRole(env: Env, db: Db, actor: User, now: int, pk: nat, perms: set<Permission>)
    requires Integrity(db)
    ensures var added := AddPermissions(env, db, actor, now, pk, perms);
            added.Ok? ==>
              && added.value.assignments == db.assignments && added.value.roles == db.roles[pk := added.value.roles[pk]]
              && added.value.roles[pk] == db.roles[pk].(perms := added.value.roles[pk].perms)
              && forall p :: p in added.value.roles[pk].perms <==> p in db.roles[pk].perms || p in perms
    ensures var removed := RemovePermissions(env, db, actor, now, pk, perms);
            removed.Ok? ==>
              && removed.value.assignments == db.assignments && removed.value.roles == db.roles[pk := removed.value.roles[pk]]
              && removed.value.roles[pk] == db.roles[pk].(perms := removed.value.roles[pk].perms)
              && forall p :: p in removed.value.roles[pk].perms <==> p in db.roles[pk].perms && p !in perms
  {
  }

  /** After a performed removal, a user holds a removed permission only through another role. */
  lemma RemovedPermissionNeedsAnotherRole(
      env: Env, db: Db, actor: User, now: int, pk: nat, perms: set<Permission>, user: User, later: int, p: Permission, o: Obj)
    returns (k: nat)
    requires UniqueNames(env.levels) && Integrity(db) && RemovePermissions(env, db, actor, now, pk, perms).Ok?
    requires p in perms && !user.superuser
    requires HasPerm(env, user, EffectiveRows(RemovePermissions(env, db, actor, now, pk, perms).value, user.pk, later), p, Some(o))
    ensures k in db.assignments && db.assignments[k].user == user.pk && db.assignments[k].role != pk
    ensures db.assignments[k].role in db.roles && p in db.roles[db.assignments[k].role].perms
  {
    var after := RemovePermissions(env, db, actor, now, pk, perms).value;
    PermissionEditsChangeTheRole(env, db, actor, now, pk, perms);
    AllowedExactlyWhen(env, after, user, later, p, o);
    k :| Counts(env, after, k, user.pk, later) && p in after.roles[after.assignments[k].role].perms && ReachesObject(env, after.assignments[k], o);
  }

  /** A performed creation adds one role, with the fields and permissions asked for, and changes nothing else. */
  lemma CreationStoresTheRole(env: Env, db: Db, actor: User, now: int, fields: RoleFields, perms: set<Permission>)
    requires Integrity(db) && CreateRole(env, db, actor, now, fields, perms).Ok?
    ensures var after, k := CreateRole(env, db, actor, now, fields, perms).value, db.nextRole;
            && k !in db.roles && after.assignments == db.assignments && after.roles == db.roles[k := after.roles[k]]
            && after.roles[k].pk == k && after.roles[k].name == fields.name && after.roles[k].description == fields.description
            && after.roles[k].perms == perms
            && (match fields.owner
                case Some(n) => after.roles[k].ownerCt == Some(n.model) && after.roles[k].ownerId == Some(n.pk)
                case None => after.roles[k].ownerCt.None? && after.roles[k].ownerId.None?)
            && (fields.ownerLevel.Some? || fields.owner.None? ==> after.roles[k].ownerLevel == fields.ownerLevel)
  {
    ValidOwnerIsSound(env, Draft(db.nextRole, fields));
    var role := ValidateOwner(env, Draft(db.nextRole, fields)).value;
    if perms != {} {
      var saved := Created(db, role);
      assert AddPermissions(env, saved, actor, now, role.pk, perms) == Ok(Stored(saved, role.(perms := role.perms + perms)));
      assert saved.roles[role.pk := role.(perms := role.perms + perms)] == db.roles[role.pk := role.(perms := role.perms + perms)];
    }
  }

  /** A performed update gives the role the fields named, keeps the others and its permissions, and changes
      nothing else. */
  lemma UpdateChangesTheFieldsNamed(env: Env, db: Db, actor: User, now: int, pk: nat, c: RoleChanges)
    requires Integrity(db) && UpdateRole(env, db, actor, now, pk, c).Ok?
    ensures var after := UpdateRole(env, db, actor, now, pk, c).value;
            && pk in db.roles && after.assignments == db.assignments && after.roles == db.roles[pk := after.roles[pk]]
            && var prior, next := db.roles[pk], after.roles[pk];
               && next.pk == pk && next.perms == prior.perms
               && next.name == (if c.name.Some? then c.name.value else prior.name)
               && next.description == (if c.description.Some? then c.description.value else prior.description)
               && (c.owner.None? ==> next.ownerCt == prior.ownerCt && next.ownerId == prior.ownerId)
               && (c.owner.Some? ==>
                     match c.owner.value
                     case Some(n) => next.ownerCt == Some(n.model) && next.ownerId == Some(n.pk)
                     case None => next.ownerCt.None? && next.ownerId.None?)
               && (NextLevel(prior, c).Some? ==> next.ownerLevel == NextLevel(prior, c))
  {
    ValidOwnerIsSound(env, Edited(db.roles[pk], c));
  }

  /** A performed deletion takes the role away, and changes nothing else. */
  lemma DeletionRemovesTheRole(env: Env, db: Db, actor: User, now: int, pk: nat)
    requires DeleteRole(env, db, actor, now, pk).Ok?
    ensures var after := DeleteRole(env, db, actor, now, pk).value;
            && pk in db.roles && after.assignments == db.assignments && after.roles == map k | k in db.roles && k != pk :: db.roles[k]
  {
  }
}
