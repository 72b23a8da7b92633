/** No amplification: whatever a run of delegated operations does, it never creates authority
    that no one held. */
module Delegation {
  import opened Wrappers
  import opened HostModel
  import opened Hierarchy
  import opened Ancestry
  import opened Engine
  import opened Authority

  /** Where a permission is in force: everywhere, or on one node. */
  datatype Target = Everywhere | On(node: Obj)

  ghost predicate ReachesTarget(env: Env, a: Assignment, t: Target) {
    IsRootScope(a) || (t.On? && ScopeReaches(env, a, t.node))
  }

  /** The row gives `p` on `t`, its validity window ignored. */
  ghost predicate Gives(env: Env, h: Held, p: Permission, t: Target) {
    h.a.status == ACTIVE && IsValid(env, h) && p in h.role.perms && ReachesTarget(env, h.a, t)
  }

  ghost predicate Confers(env: Env, db: Db, p: Permission, t: Target) {
    exists k :: k in db.assignments && db.assignments[k].role in db.roles
                && Gives(env, Held(db.assignments[k], db.roles[db.assignments[k].role]), p, t)
  }

  /** No (permission, target) pair is conferred after that was not conferred before. */
  ghost predicate NoneAdded(env: Env, before: Db, after: Db) {
    forall p: Permission, t: Target :: Confers(env, after, p, t) ==> Confers(env, before, p, t)
  }

  /** Role owners are hierarchy nodes: `_validate_owner` stores no other. */
  ghost predicate OwnersAreNodes(env: Env, db: Db) {
    forall k :: k in db.roles && OwnerOf(env, db.roles[k]).Some? ==>
      IsNodeModel(env.levels, OwnerOf(env, db.roles[k]).value.model)
  }

  /** A system role carries no owner metadata. */
  ghost predicate OwnersShaped(db: Db) {
    forall k :: k in db.roles && db.roles[k].ownerId.None? ==>
      db.roles[k].ownerCt.None? && db.roles[k].ownerLevel.None?
  }

  ghost predicate Sound(env: Env, db: Db) {
    Integrity(db) && OwnersAreNodes(env, db) && OwnersShaped(db)
  }

  /** Validity follows the owner only where it is narrowed: down its own subtree, or from none. */
  ghost predicate Narrows(env: Env, prior: Role, next: Role) {
    || prior.ownerId.None?
    || (&& next.ownerId.Some? && OwnerOf(env, prior).Some? && OwnerOf(env, next).Some?
        && IsAncestorOrSelf(env, OwnerOf(env, prior).value, OwnerOf(env, next).value))
  }

  /** The permission that managing a role asks for, at its owner or at the root. */
  function Asked(role: Role): Permission {
    if role.ownerId.Some? then MANAGE_ROLES else MANAGE_GLOBAL_ROLES
  }

  /** An owner move that cannot confer anything: it narrows, or the role carries nothing beyond what the
      mover must hold at the next owner anyway. */
  ghost predicate Harmless(env: Env, prior: Role, next: Role) {
    Narrows(env, prior, next) || prior.perms <= {Asked(next)}
  }

  // ---- One guard, one conclusion ----------------------------------------------------------------

  /** What the rows give was conferred at the start. */
  ghost predicate RowsBacked(env: Env, start: Db, rows: set<Held>) {
    forall h, p: Permission, t: Target :: h in rows && p in h.role.perms && IsValid(env, h) && ReachesTarget(env, h.a, t) ==>
      Confers(env, start, p, t)
  }

  /** So it is of rows just read. */
  lemma TableRowsAreBacked(env: Env, db: Db, user: nat, now: int)
    ensures RowsBacked(env, db, EffectiveRows(db, user, now))
  {
    forall h, p: Permission, t: Target |
      h in EffectiveRows(db, user, now) && p in h.role.perms && IsValid(env, h) && ReachesTarget(env, h.a, t)
      ensures Confers(env, db, p, t)
    {
      var k :| k in db.assignments && db.assignments[k].role in db.roles
               && Held(db.assignments[k], db.roles[db.assignments[k].role]) == h;
      assert Gives(env, h, p, t);
    }
  }

  /** What an actor may delegate at a place is already conferred on everything below that place. */
  lemma DelegableIsConferred(env: Env, start: Db, rows: set<Held>, actor: User, p: Permission, node: Option<Obj>, t: Target)
    requires RowsBacked(env, start, rows) && !actor.superuser
    requires HoldsAt(env, actor, rows, p, node)
    requires node.Some? ==>
               IsNodeModel(env.levels, node.value.model) && t.On? && IsAncestorOrSelf(env, node.value, t.node)
    ensures Confers(env, start, p, t)
  {
    if node.None? {
      var h :| h in rows && IsValid(env, h) && IsRootScope(h.a) && p in h.role.perms;
    } else {
      var h :| h in rows && p in h.role.perms && Covers(env, h, AtNode(node.value));
      CoverageIsDownward(env, h.a, node.value, t.node);
    }
  }

  /** A row the actor was allowed to put in force gives nothing next. */
  lemma AssignableIsConferred(env: Env, start: Db, rows: set<Held>, actor: User, h: Held, p: Permission, t: Target)
    requires RowsBacked(env, start, rows) && env.grantable == SelfOnly && !actor.superuser
    requires CanAssignRole(env, actor, rows, h.role, h.a.level, ScopeOf(env, h.a))
    requires Gives(env, h, p, t)
    ensures Confers(env, start, p, t)
  {
    var node := ScopeOf(env, h.a);
    if !IsRootScope(h.a) {
      ReachesScope(env, h.a, t.node);
      assert IsNodeModel(env.levels, node.value.model);
    }
    DelegableIsConferred(env, start, rows, actor, p, node, t);
  }

  /** What the actor holds at a role's owner, or at the root, is conferred wherever the role's rows reach:
      the owner stands above the scope of every valid row of the role. */
  lemma HeldAtOwnerIsConferred(env: Env, start: Db, rows: set<Held>, actor: User, h: Held, p: Permission, t: Target)
    requires RowsBacked(env, start, rows) && !actor.superuser
    requires OwnerOf(env, h.role).Some? ==> IsNodeModel(env.levels, OwnerOf(env, h.role).value.model)
    requires HoldsAt(env, actor, rows, p, if h.role.ownerId.Some? then OwnerOf(env, h.role) else None)
    requires h.a.status == ACTIVE && IsValid(env, h) && ReachesTarget(env, h.a, t)
    ensures Confers(env, start, p, t)
  {
    if h.role.ownerId.None? {
      DelegableIsConferred(env, start, rows, actor, p, None, t);
    } else {
      assert !IsRootScope(h.a);
      ReachesScope(env, h.a, t.node);
      AncestryTransitive(env, OwnerOf(env, h.role).value, ScopeOf(env, h.a).value, t.node);
      DelegableIsConferred(env, start, rows, actor, p, OwnerOf(env, h.role), t);
    }
  }

  /** The rows of a role gain only what the actor holds at the role's owner. */
  lemma AddedIsConferred(env: Env, start: Db, rows: set<Held>, actor: User, h: Held, p: Permission, t: Target)
    requires RowsBacked(env, start, rows) && env.grantable == SelfOnly && !actor.superuser
    requires OwnerOf(env, h.role).Some? ==> IsNodeModel(env.levels, OwnerOf(env, h.role).value.model)
    requires CanGrantPermission(env, actor, rows, h.role, p)
    requires h.a.status == ACTIVE && IsValid(env, h) && ReachesTarget(env, h.a, t)
    ensures Confers(env, start, p, t)
  {
    HeldAtOwnerIsConferred(env, start, rows, actor, h, p, t);
  }

  /** Whoever may manage a role brings its managing permission wherever the role's rows reach. */
  lemma AskedIsConferred(env: Env, start: Db, rows: set<Held>, actor: User, h: Held, t: Target)
    requires RowsBacked(env, start, rows) && !actor.superuser
    requires OwnerOf(env, h.role).Some? ==> IsNodeModel(env.levels, OwnerOf(env, h.role).value.model)
    requires CanManageRole(env, actor, rows, h.role)
    requires h.a.status == ACTIVE && IsValid(env, h) && ReachesTarget(env, h.a, t)
    ensures Confers(env, start, Asked(h.role), t)
  {
    assert actor.(superuser := false) == actor;
    HeldAtOwnerIsConferred(env, start, rows, actor, h, Asked(h.role), t);
  }

  // ---- Sound tables -----------------------------------------------------------------------------

  lemma InsertKeepsSound(env: Env, db: Db, a: Assignment)
    requires Sound(env, db) && a.pk == db.nextAssignment && a.role in db.roles
    ensures Sound(env, Inserted(db, a))
  {
  }

  lemma MoveKeepsSound(env: Env, db: Db, pk: nat, t: Transition, actor: User, now: int, reason: string)
    requires Sound(env, db) && ConditionalUpdate(db, pk, t, actor, now, reason).Ok?
    ensures Sound(env, ConditionalUpdate(db, pk, t, actor, now, reason).value)
  {
  }

  /** The owner facts of a stored role. */
  ghost predicate OwnerSound(env: Env, role: Role) {
    && (OwnerOf(env, role).Some? ==> IsNodeModel(env.levels, OwnerOf(env, role).value.model))
    && (role.ownerId.None? ==> role.ownerCt.None? && role.ownerLevel.None?)
  }

  lemma StoreKeepsSound(env: Env, db: Db, role: Role)
    requires Sound(env, db) && role.pk in db.roles
    requires OwnerSound(env, role) || db.roles[role.pk] == role.(perms := db.roles[role.pk].perms)
    ensures Sound(env, Stored(db, role))
  {
    assert OwnerOf(env, db.roles[role.pk]).Some? ==> IsNodeModel(env.levels, OwnerOf(env, db.roles[role.pk]).value.model);
  }

  /** A new role, before its permissions are added. */
  function Created(db: Db, role: Role): Db { Stored(db, role).(nextRole := db.nextRole + 1) }

  lemma NewRoleKeepsSound(env: Env, db: Db, role: Role)
    requires Sound(env, db) && role.pk == db.nextRole && OwnerSound(env, role)
    ensures Sound(env, Created(db, role))
  {
  }

  lemma AdditionKeepsSound(env: Env, db: Db, actor: User, now: int, pk: nat, perms: set<Permission>)
    requires Sound(env, db) && AddPermissions(env, db, actor, now, pk, perms).Ok?
    ensures Sound(env, AddPermissions(env, db, actor, now, pk, perms).value)
  {
    StoreKeepsSound(env, db, db.roles[pk].(perms := db.roles[pk].perms + perms));
  }

  lemma DropKeepsSound(env: Env, db: Db, pk: nat)
    requires Sound(env, db) && forall k :: k in db.assignments ==> db.assignments[k].role != pk
    ensures Sound(env, db.(roles := db.roles - {pk}))
  {
  }

  lemma ValidOwnerIsSound(env: Env, role: Role)
    requires ValidateOwner(env, role).Ok?
    ensures var checked := ValidateOwner(env, role).value;
            checked == role.(ownerLevel := checked.ownerLevel) && OwnerSound(env, checked)
  {
    if role.ownerId.Some? {
      var matching := LevelsMatching(env, OwnerOf(env, role).value);
      var checked := ValidateOwner(env, role).value;
      var lvl :| lvl in matching && lvl.name == checked.ownerLevel.value;
      assert InLevel(env.host, lvl, OwnerOf(env, role).value);
    }
  }

  lemma GrantKeepsSound(env: Env, db: Db, actor: User, now: int, req: GrantRequest)
    requires Sound(env, db) && Grant(env, db, actor, now, req).Ok?
    ensures Sound(env, Grant(env, db, actor, now, req).value)
  {
    InsertKeepsSound(env, db, NewRow(db, req, GrantLevel(env, req.level, req.scope).value, actor));
  }

  lemma CreateKeepsSound(env: Env, db: Db, actor: User, now: int, fields: RoleFields, perms: set<Permission>)
    requires Sound(env, db) && CreateRole(env, db, actor, now, fields, perms).Ok?
    ensures Sound(env, CreateRole(env, db, actor, now, fields, perms).value)
  {
    ValidOwnerIsSound(env, Draft(db.nextRole, fields));
    var saved := Created(db, ValidateOwner(env, Draft(db.nextRole, fields)).value);
    NewRoleKeepsSound(env, db, ValidateOwner(env, Draft(db.nextRole, fields)).value);
    if perms != {} {
      AdditionKeepsSound(env, saved, actor, now, db.nextRole, perms);
    }
  }

  lemma UpdateKeepsSound(env: Env, db: Db, actor: User, now: int, pk: nat, c: RoleChanges)
    requires Sound(env, db) && UpdateRole(env, db, actor, now, pk, c).Ok?
    ensures Sound(env, UpdateRole(env, db, actor, now, pk, c).value)
  {
    ValidOwnerIsSound(env, Edited(db.roles[pk], c));
    StoreKeepsSound(env, db, ValidateOwner(env, Edited(db.roles[pk], c)).value);
  }

  // ---- One operation ----------------------------------------------------------------------------

  lemma GrantAddsNothing(env: Env, db: Db, actor: User, now: int, req: GrantRequest)
    requires Sound(env, db) && env.grantable == SelfOnly && !actor.superuser
    requires Grant(env, db, actor, now, req).Ok?
    ensures Sound(env, Grant(env, db, actor, now, req).value)
    ensures NoneAdded(env, db, Grant(env, db, actor, now, req).value)
  {
    GrantKeepsSound(env, db, actor, now, req);
    var level := GrantLevel(env, req.level, req.scope).value;
    var a := NewRow(db, req, level, actor);
    var after := Inserted(db, a);
    forall p: Permission, t: Target | Confers(env, after, p, t) ensures Confers(env, db, p, t) {
      var k :| k in after.assignments && after.assignments[k].role in after.roles
               && Gives(env, Held(after.assignments[k], after.roles[after.assignments[k].role]), p, t);
      if k == a.pk {
        var h := Held(a, db.roles[a.role]);
        assert req.scope.Some? ==> ScopeOf(env, a) == req.scope;
        assert req.scope.None? ==> ScopeOf(env, a) == None;
        TableRowsAreBacked(env, db, actor.pk, now);
        AssignableIsConferred(env, db, EffectiveRows(db, actor.pk, now), actor, h, p, t);
      }
    }
  }

  lemma TransitionAddsNothing(env: Env, db: Db, actor: User, now: int, pk: nat, t: Transition, reason: string)
    requires Sound(env, db) && env.grantable == SelfOnly && !actor.superuser
    requires Transitioned(env, db, actor, now, pk, t, reason).Ok?
    ensures Sound(env, Transitioned(env, db, actor, now, pk, t, reason).value)
    ensures NoneAdded(env, db, Transitioned(env, db, actor, now, pk, t, reason).value)
  {
    MoveKeepsSound(env, db, pk, t, actor, now, reason);
    var after := Transitioned(env, db, actor, now, pk, t, reason).value;
    forall p: Permission, target: Target | Confers(env, after, p, target) ensures Confers(env, db, p, target) {
      var k :| k in after.assignments && after.assignments[k].role in after.roles
               && Gives(env, Held(after.assignments[k], after.roles[after.assignments[k].role]), p, target);
      if k == pk {
        assert t == Reactivate;
        TableRowsAreBacked(env, db, actor.pk, now);
        AssignableIsConferred(env, db, EffectiveRows(db, actor.pk, now), actor, Held(after.assignments[k], db.roles[after.assignments[k].role]), p, target);
      }
    }
  }

  lemma AddPermissionsAddsNothing(env: Env, db: Db, actor: User, now: int, pk: nat, perms: set<Permission>)
    requires Sound(env, db) && env.grantable == SelfOnly && !actor.superuser
    requires AddPermissions(env, db, actor, now, pk, perms).Ok?
    ensures Sound(env, AddPermissions(env, db, actor, now, pk, perms).value)
    ensures NoneAdded(env, db, AddPermissions(env, db, actor, now, pk, perms).value)
  {
    var after := AddPermissions(env, db, actor, now, pk, perms).value;
    var role := db.roles[pk];
    forall p: Permission, t: Target | Confers(env, after, p, t) ensures Confers(env, db, p, t) {
      var k :| k in after.assignments && after.assignments[k].role in after.roles
               && Gives(env, Held(after.assignments[k], after.roles[after.assignments[k].role]), p, t);
      var a := db.assignments[k];
      if a.role == pk {
        SameOwnerSameValidity(env, a, role, after.roles[pk]);
        if p in role.perms {
          assert Gives(env, Held(a, role), p, t);
        } else {
          assert p in perms - role.perms;
          TableRowsAreBacked(env, db, actor.pk, now);
          AddedIsConferred(env, db, EffectiveRows(db, actor.pk, now), actor, Held(a, role), p, t);
        }
      }
    }
  }

  lemma SameOwnerSameValidity(env: Env, a: Assignment, prior: Role, next: Role)
    requires prior.ownerId == next.ownerId && prior.ownerCt == next.ownerCt
    ensures IsValid(env, Held(a, prior)) <==> IsValid(env, Held(a, next))
  {
  }

  lemma NarrowingOnlyInvalidates(env: Env, a: Assignment, prior: Role, next: Role)
    requires Narrows(env, prior, next) && IsValid(env, Held(a, next))
    ensures IsValid(env, Held(a, prior))
  {
    if prior.ownerId.Some? {
      AncestryTransitive(env, OwnerOf(env, prior).value, OwnerOf(env, next).value, ScopeOf(env, a).value);
    }
  }

  lemma ShrinkingRoleAddsNothing(env: Env, db: Db, role: Role)
    requires role.pk in db.roles && role.perms <= db.roles[role.pk].perms && Narrows(env, db.roles[role.pk], role)
    ensures NoneAdded(env, db, Stored(db, role))
  {
    var after := Stored(db, role);
    forall p: Permission, t: Target | Confers(env, after, p, t) ensures Confers(env, db, p, t) {
      var k :| k in after.assignments && after.assignments[k].role in after.roles
               && Gives(env, Held(after.assignments[k], after.roles[after.assignments[k].role]), p, t);
      var a := db.assignments[k];
      if a.role == role.pk {
        NarrowingOnlyInvalidates(env, a, db.roles[role.pk], role);
        assert Gives(env, Held(a, db.roles[role.pk]), p, t);
      }
    }
  }

  /** No row can use a role that has just been created. */
  lemma NewRoleAddsNothing(env: Env, db: Db, role: Role)
    requires Sound(env, db) && role.pk == db.nextRole
    ensures NoneAdded(env, db, Created(db, role))
  {
    var saved := Created(db, role);
    forall p: Permission, t: Target | Confers(env, saved, p, t) ensures Confers(env, db, p, t) {
      var k :| k in saved.assignments && saved.assignments[k].role in saved.roles
               && Gives(env, Held(saved.assignments[k], saved.roles[saved.assignments[k].role]), p, t);
      assert db.assignments[k].role != role.pk;
    }
  }

  lemma CreateRoleAddsNothing(env: Env, db: Db, actor: User, now: int, fields: RoleFields, perms: set<Permission>)
    requires Sound(env, db) && env.grantable == SelfOnly && !actor.superuser
    requires CreateRole(env, db, actor, now, fields, perms).Ok?
    ensures Sound(env, CreateRole(env, db, actor, now, fields, perms).value)
    ensures NoneAdded(env, db, CreateRole(env, db, actor, now, fields, perms).value)
  {
    ValidOwnerIsSound(env, Draft(db.nextRole, fields));
    var role := ValidateOwner(env, Draft(db.nextRole, fields)).value;
    NewRoleKeepsSound(env, db, role);
    NewRoleAddsNothing(env, db, role);
    if perms != {} {
      AddPermissionsAddsNothing(env, Created(db, role), actor, now, db.nextRole, perms);
    }
  }

  /** An owner move inside this theorem's reach. */
  ghost predicate MovesHarmlessly(env: Env, db: Db, r: Request) {
    r.op.OpUpdateRole? && r.op.role in db.roles ==>
      Harmless(env, db.roles[r.op.role], Edited(db.roles[r.op.role], r.op.changes))
  }

  lemma RemovePermissionsAddsNothing(env: Env, db: Db, actor: User, now: int, pk: nat, perms: set<Permission>)
    requires Sound(env, db) && RemovePermissions(env, db, actor, now, pk, perms).Ok?
    ensures Sound(env, RemovePermissions(env, db, actor, now, pk, perms).value)
    ensures NoneAdded(env, db, RemovePermissions(env, db, actor, now, pk, perms).value)
  {
  }

  lemma ManagedRoleAddsNothing(env: Env, db: Db, actor: User, now: int, role: Role)
    requires !actor.superuser
    requires role.pk in db.roles && role.perms == db.roles[role.pk].perms && role.perms <= {Asked(role)}
    requires OwnerOf(env, role).Some? ==> IsNodeModel(env.levels, OwnerOf(env, role).value.model)
    requires CanManageRole(env, actor, EffectiveRows(db, actor.pk, now), role)
    ensures NoneAdded(env, db, Stored(db, role))
  {
    var after := Stored(db, role);
    forall p: Permission, t: Target | Confers(env, after, p, t) ensures Confers(env, db, p, t) {
      var k :| k in after.assignments && after.assignments[k].role in after.roles
               && Gives(env, Held(after.assignments[k], after.roles[after.assignments[k].role]), p, t);
      if db.assignments[k].role == role.pk {
        TableRowsAreBacked(env, db, actor.pk, now);
        AskedIsConferred(env, db, EffectiveRows(db, actor.pk, now), actor, Held(db.assignments[k], role), t);
      }
    }
  }

  lemma UpdateRoleAddsNothing(env: Env, db: Db, actor: User, now: int, pk: nat, c: RoleChanges)
    requires Sound(env, db) && UpdateRole(env, db, actor, now, pk, c).Ok? && !actor.superuser
    requires Harmless(env, db.roles[pk], Edited(db.roles[pk], c))
    ensures Sound(env, UpdateRole(env, db, actor, now, pk, c).value)
    ensures NoneAdded(env, db, UpdateRole(env, db, actor, now, pk, c).value)
  {
    UpdateKeepsSound(env, db, actor, now, pk, c);
    ValidOwnerIsSound(env, Edited(db.roles[pk], c));
    var next := ValidateOwner(env, Edited(db.roles[pk], c)).value;
    if Narrows(env, db.roles[pk], next) {
      ShrinkingRoleAddsNothing(env, db, next);
    } else {
      ManagedRoleAddsNothing(env, db, actor, now, next);
    }
  }

  /** Every operation keeps the tables sound, whoever asks and under every policy. */
  lemma OperationKeepsSound(env: Env, db: Db, r: Request)
    requires Sound(env, db)
    ensures Sound(env, After(env, db, r))
  {
    if Perform(env, db, r).Ok? {
      match r.op {
        case OpGrant(req) => GrantKeepsSound(env, db, r.actor, r.now, req);
        case OpTransition(row, t, reason) => MoveKeepsSound(env, db, row, t, r.actor, r.now, reason);
        case OpCreateRole(fields, perms) => CreateKeepsSound(env, db, r.actor, r.now, fields, perms);
        case OpAddPermissions(role, perms) => AdditionKeepsSound(env, db, r.actor, r.now, role, perms);
        case OpRemovePermissions(role, perms) => StoreKeepsSound(env, db, db.roles[role].(perms := db.roles[role].perms - perms));
        case OpUpdateRole(role, changes) => UpdateKeepsSound(env, db, r.actor, r.now, role, changes);
        case OpDeleteRole(role) => DropKeepsSound(env, db, role);
      }
    }
  }

  /** So every state reached from empty tables is sound. */
  lemma {:induction false} RunKeepsSound(env: Env, db: Db, requests: seq<Request>)
    requires db == EMPTY_DB || Sound(env, db)
    ensures Sound(env, Run(env, db, requests))
    decreases |requests|
  {
    if requests != [] {
      OperationKeepsSound(env, db, requests[0]);
      RunKeepsSound(env, After(env, db, requests[0]), requests[1..]);
    }
  }

  /** No operation, whoever asks for it, adds a (permission, target) pair to what is conferred. */
  lemma OperationAddsNothing(env: Env, db: Db, r: Request)
    requires Sound(env, db) && env.grantable == SelfOnly && !r.actor.superuser
    requires MovesHarmlessly(env, db, r)
    ensures Sound(env, After(env, db, r)) && NoneAdded(env, db, After(env, db, r))
  {
    OperationKeepsSound(env, db, r);
    if Perform(env, db, r).Ok? {
      match r.op {
        case OpGrant(req) => GrantAddsNothing(env, db, r.actor, r.now, req);
        case OpTransition(row, t, reason) => TransitionAddsNothing(env, db, r.actor, r.now, row, t, reason);
        case OpCreateRole(fields, perms) => CreateRoleAddsNothing(env, db, r.actor, r.now, fields, perms);
        case OpAddPermissions(role, perms) => AddPermissionsAddsNothing(env, db, r.actor, r.now, role, perms);
        case OpRemovePermissions(role, perms) => RemovePermissionsAddsNothing(env, db, r.actor, r.now, role, perms);
        case OpUpdateRole(role, changes) => UpdateRoleAddsNothing(env, db, r.actor, r.now, role, changes);
        case OpDeleteRole(role) =>
          assert After(env, db, r).assignments == db.assignments;
      }
    }
  }

  /** No superuser acts, and every owner move along the run is harmless. */
  ghost predicate DelegatedRun(env: Env, db: Db, requests: seq<Request>)
    decreases |requests|
  {
    requests == [] ||
    (&& !requests[0].actor.superuser && MovesHarmlessly(env, db, requests[0])
     && DelegatedRun(env, After(env, db, requests[0]), requests[1..]))
  }

  /** Main result: over any run of grants, suspensions, reactivations, revocations, role creations,
      role deletions, permission edits and harmless role updates by any actors but superusers, nothing
      is ever conferred that was not conferred at the start. */
  lemma {:induction false} NoAmplification(env: Env, db: Db, requests: seq<Request>)
    requires Sound(env, db) && env.grantable == SelfOnly
    requires DelegatedRun(env, db, requests)
    ensures Sound(env, Run(env, db, requests)) && NoneAdded(env, db, Run(env, db, requests))
    decreases |requests|
  {
    if requests != [] {
      OperationAddsNothing(env, db, requests[0]);
      NoAmplification(env, After(env, db, requests[0]), requests[1..]);
    }
  }
}
