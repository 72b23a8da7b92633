/** Exactly when each managed operation is performed: what the request must look like, and which stored rows
    its actor must have. */
module Entitlement {
  import opened Wrappers
  import opened HostModel
  import opened Hierarchy
  import opened Ancestry
  import opened Engine
  import opened Authority
  import opened Delegation
  import opened Membership
  import opened Access
  import Lifecycle

  // ---- What an actor has ------------------------------------------------------------------------------

  /** A counting row of the actor, standing at or above the node, or everywhere when there is none, carries `p`. */
  ghost predicate HeldAbove(env: Env, db: Db, actor: User, now: int, p: Permission, node: Option<Obj>) {
    exists k :: Counts(env, db, k, actor.pk, now) && p in db.roles[db.assignments[k].role].perms
      && if node.Some? then AtOrAbove(env, db.assignments[k], node.value) else db.assignments[k].scopeId.None?
  }

  /** A counting row of the actor stands at or above the role's owner. */
  ghost predicate Sees(env: Env, db: Db, actor: User, now: int, owner: Option<Obj>) {
    owner.None? || exists k :: Counts(env, db, k, actor.pk, now) && AtOrAbove(env, db.assignments[k], owner.value)
  }

  /** What the policy lets the actor hand on at the node. */
  ghost predicate MayDelegate(env: Env, db: Db, actor: User, now: int, perms: set<Permission>, node: Option<Obj>) {
    match env.grantable
    case AnyPermission => true
    case Listed(listed) => perms <= listed
    case SelfOnly => forall p :: p in perms ==> HeldAbove(env, db, actor, now, p, node)
  }

  /** The permission to manage the roles of an owner, or those of none. */
  ghost predicate Manages(env: Env, db: Db, actor: User, now: int, owner: Option<Obj>) {
    HeldAbove(env, db, actor, now, if owner.Some? then MANAGE_ROLES else MANAGE_GLOBAL_ROLES, owner)
  }

  /** The row a stored reference still leads to. */
  function Target(env: Env, ct: Option<Model>, id: Option<string>): Option<Obj> {
    if ct.Some? && id.Some? && Obj(ct.value, id.value) in env.host.rows then Some(Obj(ct.value, id.value)) else None
  }

  function OwnerTarget(env: Env, role: Role): Option<Obj> { Target(env, role.ownerCt, role.ownerId) }

  function ScopeTarget(env: Env, a: Assignment): Option<Obj> { Target(env, a.scopeCt, a.scopeId) }

  /** The references the operations go by are nodes, or lead nowhere. */
  ghost predicate OnNodes(env: Env, db: Db) {
    && (forall k :: k in db.roles && OwnerTarget(env, db.roles[k]).Some? ==> OfNodeModel(env, OwnerTarget(env, db.roles[k]).value))
    && (forall k :: k in db.assignments && ScopeTarget(env, db.assignments[k]).Some? ==>
          OfNodeModel(env, ScopeTarget(env, db.assignments[k]).value))
    && (forall k :: k in db.roles && db.roles[k].ownerId.None? ==> db.roles[k].ownerCt.None?)
  }

  // ---- The guards, in those terms -----------------------------------------------------------------------

  lemma HoldsExactlyWhenHeldAbove(env: Env, db: Db, actor: User, now: int, p: Permission, node: Option<Obj>)
    requires UniqueNames(env.levels) && actor.active && (node.Some? ==> OfNodeModel(env, node.value))
    ensures HoldsAt(env, actor, EffectiveRows(db, actor.pk, now), p, node) <==> HeldAbove(env, db, actor, now, p, node)
  {
    if node.None? {
      if h :| h in EffectiveRows(db, actor.pk, now) && IsValid(env, h) && IsRootScope(h.a) && p in h.role.perms {
        CountsExactlyWhen(env, db, actor.pk, now, h);
      }
      if k :| Counts(env, db, k, actor.pk, now) && p in db.roles[db.assignments[k].role].perms && db.assignments[k].scopeId.None? {
        CountsExactlyWhen(env, db, actor.pk, now, Held(db.assignments[k], db.roles[db.assignments[k].role]));
      }
    } else {
      AllowedExactlyWhen(env, db, actor.(superuser := false), now, p, node.value);
    }
  }

  lemma ManagesAssignmentsExactlyWhen(env: Env, db: Db, actor: User, now: int, node: Option<Obj>)
    requires UniqueNames(env.levels) && (node.Some? ==> OfNodeModel(env, node.value))
    ensures CanManageAssignment(env, actor, EffectiveRows(db, actor.pk, now), node) <==>
            actor.active && (actor.superuser || HeldAbove(env, db, actor, now, MANAGE_ASSIGNMENTS, node))
  {
    if actor.active {
      HoldsExactlyWhenHeldAbove(env, db, actor, now, MANAGE_ASSIGNMENTS, node);
    }
  }

  /** A reference to nothing, or one that still leads somewhere. */
  predicate Resolves(env: Env, role: Role) { role.ownerId.Some? ==> OwnerTarget(env, role).Some? }

  lemma ManagesRoleExactlyWhen(env: Env, db: Db, actor: User, now: int, role: Role)
    requires UniqueNames(env.levels) && (role.ownerId.None? ==> role.ownerCt.None?)
    requires OwnerTarget(env, role).Some? ==> OfNodeModel(env, OwnerTarget(env, role).value)
    ensures CanManageRole(env, actor, EffectiveRows(db, actor.pk, now), role) <==>
            && actor.active && Resolves(env, role)
            && (actor.superuser || Manages(env, db, actor, now, OwnerTarget(env, role)))
  {
    assert OwnerOf(env, role) == OwnerTarget(env, role);
    if actor.active && !actor.superuser {
      assert actor.(superuser := false) == actor;
      HoldsExactlyWhenHeldAbove(
        env, db, actor, now, if role.ownerId.Some? then MANAGE_ROLES else MANAGE_GLOBAL_ROLES, OwnerTarget(env, role));
    }
  }

  lemma DelegatesExactlyWhen(env: Env, db: Db, actor: User, now: int, role: Role, perms: set<Permission>)
    requires UniqueNames(env.levels) && (role.ownerId.None? ==> role.ownerCt.None?)
    requires OwnerTarget(env, role).Some? ==> OfNodeModel(env, OwnerTarget(env, role).value)
    requires actor.active && Resolves(env, role)
    ensures (forall p :: p in perms ==> CanGrantPermission(env, actor, EffectiveRows(db, actor.pk, now), role, p)) <==>
            actor.superuser || MayDelegate(env, db, actor, now, perms, OwnerTarget(env, role))
  {
    assert OwnerOf(env, role) == OwnerTarget(env, role);
    forall p
      ensures HoldsAt(env, actor, EffectiveRows(db, actor.pk, now), p, OwnerTarget(env, role)) <==>
              HeldAbove(env, db, actor, now, p, OwnerTarget(env, role))
    {
      HoldsExactlyWhenHeldAbove(env, db, actor, now, p, OwnerTarget(env, role));
    }
  }

  lemma SeesExactlyWhen(env: Env, db: Db, actor: User, now: int, role: Role)
    requires UniqueNames(env.levels) && actor.active && !actor.superuser && Resolves(env, role)
    requires role.ownerId.None? ==> role.ownerCt.None?
    requires OwnerTarget(env, role).Some? ==> OfNodeModel(env, OwnerTarget(env, role).value)
    ensures RoleVisible(env, actor, EffectiveRows(db, actor.pk, now), role) <==> Sees(env, db, actor, now, OwnerTarget(env, role))
  {
    assert OwnerOf(env, role) == OwnerTarget(env, role);
    if role.ownerId.Some? {
      CoveredExactlyWhen(env, db, actor, now, OwnerTarget(env, role).value);
    }
  }

  /** Where a role may be put: a system role anywhere, a custom one on a row at or below its owner that plays
      the level. */
  ghost predicate MayBePut(env: Env, role: Role, level: Option<string>, scope: Option<Obj>) {
    role.ownerId.None? ||
    (&& OwnerTarget(env, role).Some? && scope.Some? && level.Some?
     && (exists i: nat :: i < |env.levels| && env.levels[i].name == level.value && Plays(env.host, env.levels[i], scope.value))
     && IsAncestorOrSelf(env, OwnerTarget(env, role).value, scope.value))
  }

  lemma AssignableExactlyWhen(env: Env, role: Role, level: Option<string>, scope: Option<Obj>)
    requires UniqueNames(env.levels)
    ensures RoleAssignable(env, role, level, scope) <==> MayBePut(env, role, level, scope)
  {
    assert OwnerOf(env, role) == OwnerTarget(env, role);
    if scope.Some? && level.Some? {
      LevelFound(env, level.value, scope.value);
    }
  }

  /** The level a name finds is played if and only if some level of that name is. */
  lemma LevelFound(env: Env, name: string, n: Obj)
    requires UniqueNames(env.levels)
    ensures (ByName(env.levels, name).Some? && InLevel(env.host, ByName(env.levels, name).value, n)) <==>
            exists i: nat :: i < |env.levels| && env.levels[i].name == name && Plays(env.host, env.levels[i], n)
  {
    if ByName(env.levels, name).Some? {
      var i: nat :| i < |env.levels| && env.levels[i] == ByName(env.levels, name).value;
      MembersPlay(env.host, env.levels[i], n);
    }
    if i: nat :| i < |env.levels| && env.levels[i].name == name && Plays(env.host, env.levels[i], n) {
      NameFindsLevel(env, name, i);
    }
  }

  lemma AssignsExactlyWhen(env: Env, db: Db, actor: User, now: int, role: Role, level: Option<string>, node: Option<Obj>)
    requires UniqueNames(env.levels) && (role.ownerId.None? ==> role.ownerCt.None?)
    requires OwnerTarget(env, role).Some? ==> OfNodeModel(env, OwnerTarget(env, role).value)
    requires node.Some? ==> OfNodeModel(env, node.value)
    ensures CanAssignRole(env, actor, EffectiveRows(db, actor.pk, now), role, level, node) <==>
            && actor.active && MayBePut(env, role, level, node)
            && (actor.superuser ||
                (Sees(env, db, actor, now, OwnerTarget(env, role)) && MayDelegate(env, db, actor, now, role.perms, node)))
  {
    AssignableExactlyWhen(env, role, level, node);
    if actor.active && !actor.superuser && MayBePut(env, role, level, node) {
      SeesExactlyWhen(env, db, actor, now, role);
      forall p
        ensures HoldsAt(env, actor, EffectiveRows(db, actor.pk, now), p, node) <==> HeldAbove(env, db, actor, now, p, node)
      {
        HoldsExactlyWhenHeldAbove(env, db, actor, now, p, node);
      }
    }
  }

  // ---- Grants -----------------------------------------------------------------------------------------

  /** The level and scope of a request make a scope. */
  ghost predicate ScopeFits(env: Env, level: Option<string>, scope: Option<Obj>) {
    match scope
    case Some(n) =>
      if level.None? then exists i: nat :: PlaysOnly(env, i, n)
      else exists i: nat :: i < |env.levels| && env.levels[i].name == level.value && Plays(env.host, env.levels[i], n)
    case None =>
      level.None? || exists i: nat :: i < |env.levels| && env.levels[i].name == level.value && env.levels[i].model.None?
  }

  /** The level the grant is stored with. */
  function StoredLevel(env: Env, level: Option<string>, scope: Option<Obj>): Option<string> {
    match GrantLevel(env, level, scope)
    case Ok(stored) => stored
    case Err(_) => None
  }

  lemma LevelOkExactlyWhenFits(env: Env, level: Option<string>, scope: Option<Obj>)
    requires UniqueNames(env.levels)
    ensures GrantLevel(env, level, scope).Ok? <==> ScopeFits(env, level, scope)
    ensures ScopeFits(env, level, scope) && scope.Some? ==>
              && OfNodeModel(env, scope.value) && StoredLevel(env, level, scope).Some?
              && exists i: nat :: i < |env.levels| && env.levels[i].name == StoredLevel(env, level, scope).value
                                  && Plays(env.host, env.levels[i], scope.value)
  {
    if scope.Some? {
      LevelInferredExactlyWhenOne(env, scope.value);
      if level.Some? {
        LevelGivenExactlyWhenPlayed(env, level.value, scope.value);
      }
    } else if level.Some? {
      if i: nat :| i < |env.levels| && env.levels[i].name == level.value && env.levels[i].model.None? {
        NameFindsLevel(env, level.value, i);
      }
      if ByName(env.levels, level.value).Some? {
        var i: nat :| i < |env.levels| && env.levels[i] == ByName(env.levels, level.value).value;
      }
    }
  }

  /** A row that still stands says the same of the same user. */
  ghost predicate AlreadyGranted(db: Db, req: GrantRequest, level: Option<string>) {
    exists k :: k in db.assignments && db.assignments[k].status != REVOKED
      && db.assignments[k].user == req.user && db.assignments[k].role == req.role && db.assignments[k].level == level
      && match req.scope
         case Some(n) => db.assignments[k].scopeCt == Some(n.model) && db.assignments[k].scopeId == Some(n.pk)
         case None => db.assignments[k].scopeCt.None? && db.assignments[k].scopeId.None?
  }

  lemma TakenExactlyWhenGranted(db: Db, req: GrantRequest, level: Option<string>, actor: User)
    requires Lifecycle.Sane(db) && (req.scope.Some? ==> level.Some?)
    ensures Taken(db, NewRow(db, req, level, actor)) <==> AlreadyGranted(db, req, level)
  {
    forall k | k in db.assignments
      ensures Clashes(db.assignments[k], NewRow(db, req, level, actor)) <==>
              Live(db.assignments[k]) && Lifecycle.SameGrant(db.assignments[k], NewRow(db, req, level, actor))
    {
      Lifecycle.ConstraintsCoverEveryShape(db.assignments[k], NewRow(db, req, level, actor));
    }
  }

  /** `grant` is performed if and only if the scope fits, the window is not empty, the role exists and may be put
      there, the grant does not stand already, and the actor is an active superuser or holds
      `manage_assignments` at or above the scope, sees the role's owner and may delegate its permissions. */
  lemma GrantedExactlyWhen(env: Env, db: Db, actor: User, now: int, req: GrantRequest)
    requires UniqueNames(env.levels) && OnNodes(env, db) && Lifecycle.Sane(db)
    ensures Grant(env, db, actor, now, req).Ok? <==>
            && ScopeFits(env, req.level, req.scope)
            && (req.validFrom.Some? && req.validUntil.Some? ==> req.validFrom.value < req.validUntil.value)
            && req.role in db.roles
            && var role, level := db.roles[req.role], StoredLevel(env, req.level, req.scope);
               && MayBePut(env, role, level, req.scope) && !AlreadyGranted(db, req, level)
               && actor.active
               && (actor.superuser ||
                   (&& HeldAbove(env, db, actor, now, MANAGE_ASSIGNMENTS, req.scope)
                    && Sees(env, db, actor, now, OwnerTarget(env, role))
                    && MayDelegate(env, db, actor, now, role.perms, req.scope)))
  {
    LevelOkExactlyWhenFits(env, req.level, req.scope);
    if ScopeFits(env, req.level, req.scope) && req.role in db.roles {
      var role, level := db.roles[req.role], StoredLevel(env, req.level, req.scope);
      AssignableExactlyWhen(env, role, level, req.scope);
      ManagesAssignmentsExactlyWhen(env, db, actor, now, req.scope);
      AssignsExactlyWhen(env, db, actor, now, role, level, req.scope);
      TakenExactlyWhenGranted(db, req, level, actor);
    }
  }

  // ---- Transitions ------------------------------------------------------------------------------------

  /** `suspend`, `reactivate` and `revoke` are performed if and only if the row is in a state they leave, the
      actor is an active superuser or holds `manage_assignments` at or above its scope, or everywhere when the
      scope is gone, and for a reactivation the actor could grant the row now. */
  lemma TransitionedExactlyWhen(env: Env, db: Db, actor: User, now: int, pk: nat, t: Transition, reason: string)
    requires UniqueNames(env.levels) && OnNodes(env, db)
    ensures Transitioned(env, db, actor, now, pk, t, reason).Ok? <==>
            && pk in db.assignments
            && var a := db.assignments[pk];
               && (match t
                   case Suspend => a.status == ACTIVE
                   case Reactivate => a.status == SUSPENDED
                   case Revoke => a.status != REVOKED)
               && actor.active
               && (actor.superuser || HeldAbove(env, db, actor, now, MANAGE_ASSIGNMENTS, ScopeTarget(env, a)))
               && (t == Reactivate ==>
                     && a.role in db.roles && MayBePut(env, db.roles[a.role], a.level, ScopeTarget(env, a))
                     && (actor.superuser ||
                         (&& Sees(env, db, actor, now, OwnerTarget(env, db.roles[a.role]))
                          && MayDelegate(env, db, actor, now, db.roles[a.role].perms, ScopeTarget(env, a)))))
  {
    if pk in db.assignments {
      var a := db.assignments[pk];
      assert ScopeOf(env, a) == ScopeTarget(env, a);
      ManagesAssignmentsExactlyWhen(env, db, actor, now, ScopeTarget(env, a));
      if a.role in db.roles {
        AssignsExactlyWhen(env, db, actor, now, db.roles[a.role], a.level, ScopeTarget(env, a));
      }
    }
  }

  // ---- Roles ------------------------------------------------------------------------------------------

  /** Another role of the same owner, or of none, has the name. */
  ghost predicate NameInUse(db: Db, pk: nat, name: string, owner: Option<Obj>) {
    exists k :: k in db.roles && k != pk && db.roles[k].name == name
      && match owner
         case None => db.roles[k].ownerId.None?
         case Some(n) => db.roles[k].ownerCt == Some(n.model) && db.roles[k].ownerId == Some(n.pk)
  }

  lemma CheckedOwner(env: Env, role: Role)
    requires role.ownerId.None? ==> role.ownerCt.None?
    requires role.ownerId.Some? ==> OwnerTarget(env, role).Some?
    ensures ValidateOwner(env, role).Ok? <==> OwnerFits(env, OwnerTarget(env, role), role.ownerLevel)
    ensures ValidateOwner(env, role).Ok? ==>
              && ValidateOwner(env, role).value == role.(ownerLevel := ValidateOwner(env, role).value.ownerLevel)
              && (OwnerTarget(env, role).Some? ==> OfNodeModel(env, OwnerTarget(env, role).value))
  {
    assert OwnerOf(env, role) == OwnerTarget(env, role);
    if role.ownerId.Some? {
      OwnerValidatedExactlyWhenFit(env, role);
    }
  }

  /** `grant_permissions` is performed if and only if the role exists, its owner too, and the actor is an active
      superuser or manages the owner's roles and may delegate what is new. */
  lemma PermissionsAddedExactlyWhen(env: Env, db: Db, actor: User, now: int, pk: nat, perms: set<Permission>)
    requires UniqueNames(env.levels) && OnNodes(env, db)
    ensures AddPermissions(env, db, actor, now, pk, perms).Ok? <==>
            && pk in db.roles && Resolves(env, db.roles[pk]) && actor.active
            && var owner := OwnerTarget(env, db.roles[pk]);
               (actor.superuser ||
                (Manages(env, db, actor, now, owner) && MayDelegate(env, db, actor, now, perms - db.roles[pk].perms, owner)))
  {
    if pk in db.roles {
      ManagesRoleExactlyWhen(env, db, actor, now, db.roles[pk]);
      if actor.active && Resolves(env, db.roles[pk]) {
        DelegatesExactlyWhen(env, db, actor, now, db.roles[pk], perms - db.roles[pk].perms);
      }
    }
  }

  /** `revoke_permissions`: as for additions, but nothing needs delegating. */
  lemma PermissionsRemovedExactlyWhen(env: Env, db: Db, actor: User, now: int, pk: nat, perms: set<Permission>)
    requires UniqueNames(env.levels) && OnNodes(env, db)
    ensures RemovePermissions(env, db, actor, now, pk, perms).Ok? <==>
            && pk in db.roles && Resolves(env, db.roles[pk]) && actor.active
            && (actor.superuser || Manages(env, db, actor, now, OwnerTarget(env, db.roles[pk])))
  {
    if pk in db.roles {
      ManagesRoleExactlyWhen(env, db, actor, now, db.roles[pk]);
    }
  }

  /** `RoleService.delete`: the same, for a role that no assignment uses. */
  lemma RoleDeletedExactlyWhen(env: Env, db: Db, actor: User, now: int, pk: nat)
    requires UniqueNames(env.levels) && OnNodes(env, db)
    ensures DeleteRole(env, db, actor, now, pk).Ok? <==>
            && pk in db.roles && Resolves(env, db.roles[pk]) && actor.active
            && (actor.superuser || Manages(env, db, actor, now, OwnerTarget(env, db.roles[pk])))
            && forall k :: k in db.assignments ==> db.assignments[k].role != pk
  {
    if pk in db.roles {
      ManagesRoleExactlyWhen(env, db, actor, now, db.roles[pk]);
    }
  }

  /** Where an update puts the role: the owner and level it names, the ones it has for what it leaves out, and no
      level when it clears the owner. */
  function NextOwner(env: Env, role: Role, c: RoleChanges): Option<Obj> {
    if c.owner.Some? then c.owner.value else OwnerTarget(env, role)
  }

  function NextLevel(role: Role, c: RoleChanges): Option<string> {
    if c.ownerLevel.Some? then c.ownerLevel.value else if c.owner == Some(None) then None else role.ownerLevel
  }

  lemma EditedOwner(env: Env, role: Role, c: RoleChanges)
    requires Resolves(env, role) && (role.ownerId.None? ==> role.ownerCt.None?)
    requires NextOwner(env, role, c).Some? ==> NextOwner(env, role, c).value in env.host.rows
    ensures var edited := Edited(role, c);
            && edited.pk == role.pk && edited.perms == role.perms
            && edited.name == (if c.name.Some? then c.name.value else role.name)
            && edited.description == (if c.description.Some? then c.description.value else role.description)
            && edited.ownerLevel == NextLevel(role, c) && OwnerTarget(env, edited) == NextOwner(env, role, c)
            && (edited.ownerId.None? <==> NextOwner(env, role, c).None?) && (edited.ownerId.None? ==> edited.ownerCt.None?)
  {
  }

  /** `RoleService.update` is performed if and only if the role and its owner exist, the next owner fits and has
      no role of that name, and the actor is an active superuser or manages the roles of the owner it
      leaves and of the one it goes to. */
  lemma RoleUpdatedExactlyWhen(env: Env, db: Db, actor: User, now: int, pk: nat, c: RoleChanges)
    requires UniqueNames(env.levels) && OnNodes(env, db) && Integrity(db)
    ensures UpdateRole(env, db, actor, now, pk, c).Ok? <==>
            && pk in db.roles && Resolves(env, db.roles[pk]) && actor.active
            && var role, owner := db.roles[pk], NextOwner(env, db.roles[pk], c);
               && OwnerFits(env, owner, NextLevel(role, c))
               && !NameInUse(db, pk, if c.name.Some? then c.name.value else role.name, owner)
               && (actor.superuser ||
                   (Manages(env, db, actor, now, OwnerTarget(env, role)) && Manages(env, db, actor, now, owner)))
  {
    if pk in db.roles && Resolves(env, db.roles[pk]) {
      var role, owner := db.roles[pk], NextOwner(env, db.roles[pk], c);
      ManagesRoleExactlyWhen(env, db, actor, now, role);
      NextOwnerChecked(env, role, c);
      if ValidateOwner(env, Edited(role, c)).Ok? {
        var next := ValidateOwner(env, Edited(role, c)).value;
        ManagesRoleExactlyWhen(env, db, actor, now, next);
        NameTakenExactlyWhenInUse(db, next, owner);
      }
    }
  }

  /** What validation makes of an edited role. */
  lemma NextOwnerChecked(env: Env, role: Role, c: RoleChanges)
    requires Resolves(env, role) && (role.ownerId.None? ==> role.ownerCt.None?)
    ensures ValidateOwner(env, Edited(role, c)).Ok? <==> OwnerFits(env, NextOwner(env, role, c), NextLevel(role, c))
    ensures ValidateOwner(env, Edited(role, c)).Ok? ==>
              var next, owner := ValidateOwner(env, Edited(role, c)).value, NextOwner(env, role, c);
              && next.pk == role.pk && next.name == (if c.name.Some? then c.name.value else role.name)
              && OwnerTarget(env, next) == owner && Resolves(env, next) && (next.ownerId.None? ==> next.ownerCt.None?)
              && (owner.None? <==> next.ownerId.None?) && (owner.Some? ==> OfNodeModel(env, owner.value))
              && (owner.Some? ==> next.ownerCt == Some(owner.value.model) && next.ownerId == Some(owner.value.pk))
  {
    if NextOwner(env, role, c).None? || NextOwner(env, role, c).value in env.host.rows {
      EditedOwner(env, role, c);
      CheckedOwner(env, Edited(role, c));
    }
  }

  lemma NameTakenExactlyWhenInUse(db: Db, role: Role, owner: Option<Obj>)
    requires owner.None? <==> role.ownerId.None?
    requires owner.Some? ==> role.ownerCt == Some(owner.value.model) && role.ownerId == Some(owner.value.pk)
    ensures NameTaken(db, role) <==> NameInUse(db, role.pk, role.name, owner)
  {
  }

  /** `RoleService.create` is performed if and only if the owner fits and has no role of that name, and the actor
      is an active superuser or manages the owner's roles and may delegate the permissions. */
  lemma RoleCreatedExactlyWhen(env: Env, db: Db, actor: User, now: int, fields: RoleFields, perms: set<Permission>)
    requires UniqueNames(env.levels) && OnNodes(env, db) && Integrity(db)
    ensures CreateRole(env, db, actor, now, fields, perms).Ok? <==>
            && OwnerFits(env, fields.owner, fields.ownerLevel)
            && !NameInUse(db, db.nextRole, fields.name, fields.owner)
            && actor.active
            && (actor.superuser ||
                (Manages(env, db, actor, now, fields.owner) && MayDelegate(env, db, actor, now, perms, fields.owner)))
  {
    var draft := Draft(db.nextRole, fields);
    if fields.owner.None? || fields.owner.value in env.host.rows {
      assert OwnerTarget(env, draft) == fields.owner;
      CheckedOwner(env, draft);
      if ValidateOwner(env, draft).Ok? {
        var role := ValidateOwner(env, draft).value;
        assert OwnerTarget(env, role) == fields.owner;
        ManagesRoleExactlyWhen(env, db, actor, now, role);
        NameTakenExactlyWhenInUse(db, role, fields.owner);
        if CanManageRole(env, actor, EffectiveRows(db, actor.pk, now), role) {
          CreatedPermissionsExactlyWhen(env, db, actor, now, role, perms);
        }
      }
    }
  }

  /** Granting its permissions to the role just created, before anybody holds it. */
  lemma CreatedPermissionsExactlyWhen(env: Env, db: Db, actor: User, now: int, role: Role, perms: set<Permission>)
    requires UniqueNames(env.levels) && Integrity(db) && role.pk == db.nextRole && role.perms == {}
    requires (role.ownerId.None? ==> role.ownerCt.None?) && Resolves(env, role)
    requires OwnerTarget(env, role).Some? ==> OfNodeModel(env, OwnerTarget(env, role).value)
    requires CanManageRole(env, actor, EffectiveRows(db, actor.pk, now), role)
    ensures AddPermissions(env, Created(db, role), actor, now, role.pk, perms).Ok? <==>
            actor.superuser || MayDelegate(env, db, actor, now, perms, OwnerTarget(env, role))
    ensures perms == {} ==> MayDelegate(env, db, actor, now, perms, OwnerTarget(env, role))
  {
    assert forall k :: k in db.assignments ==> db.assignments[k].role != role.pk;
    assert ActiveRows(Created(db, role), actor.pk) == ActiveRows(db, actor.pk);
    assert perms - role.perms == perms;
    DelegatesExactlyWhen(env, db, actor, now, role, perms);
  }

  // ---- Reachable states ---------------------------------------------------------------------------------

  lemma ScopeOfNewRow(env: Env, db: Db, req: GrantRequest, actor: User)
    requires UniqueNames(env.levels) && ScopeFits(env, req.level, req.scope)
    ensures var a := NewRow(db, req, StoredLevel(env, req.level, req.scope), actor);
            ScopeTarget(env, a) == req.scope && (req.scope.Some? ==> OfNodeModel(env, req.scope.value))
  {
    LevelOkExactlyWhenFits(env, req.level, req.scope);
  }

  /** What the operations go by stays on nodes. */
  lemma OperationKeepsOnNodes(env: Env, db: Db, r: Request)
    requires UniqueNames(env.levels) && OnNodes(env, db) && Sound(env, db)
    ensures OnNodes(env, After(env, db, r))
  {
    OperationKeepsSound(env, db, r);
    var after := After(env, db, r);
    forall k | k in after.roles ensures OwnerTarget(env, after.roles[k]) == OwnerOf(env, after.roles[k]) {
    }
    forall k | k in after.assignments && ScopeTarget(env, after.assignments[k]).Some?
      ensures OfNodeModel(env, ScopeTarget(env, after.assignments[k]).value)
    {
      ScopesStayOnNodes(env, db, r, k);
    }
  }

  lemma ScopesStayOnNodes(env: Env, db: Db, r: Request, k: nat)
    requires UniqueNames(env.levels) && OnNodes(env, db) && k in After(env, db, r).assignments
    requires ScopeTarget(env, After(env, db, r).assignments[k]).Some?
    ensures OfNodeModel(env, ScopeTarget(env, After(env, db, r).assignments[k]).value)
  {
    if r.op.OpGrant? && Perform(env, db, r).Ok? && k == db.nextAssignment {
      LevelOkExactlyWhenFits(env, r.op.req.level, r.op.req.scope);
      ScopeOfNewRow(env, db, r.op.req, r.actor);
    } else {
      ScopesStand(env, db, r, k);
    }
  }

  lemma ScopesStand(env: Env, db: Db, r: Request, k: nat)
    requires k in After(env, db, r).assignments && !(r.op.OpGrant? && Perform(env, db, r).Ok? && k == db.nextAssignment)
    ensures k in db.assignments
    ensures ScopeTarget(env, After(env, db, r).assignments[k]) == ScopeTarget(env, db.assignments[k])
  {
    if Perform(env, db, r).Ok? && !r.op.OpGrant? && !r.op.OpTransition? {
      assert After(env, db, r).assignments == db.assignments;
    }
  }

  /** So it is in every state reached from empty tables. */
  lemma {:induction false} RunKeepsOnNodes(env: Env, db: Db, requests: seq<Request>)
    requires UniqueNames(env.levels) && ((OnNodes(env, db) && Sound(env, db)) || db == EMPTY_DB)
    ensures OnNodes(env, Run(env, db, requests)) && Sound(env, Run(env, db, requests))
    decreases |requests|
  {
    if requests != [] {
      OperationKeepsSound(env, db, requests[0]);
      OperationKeepsOnNodes(env, db, requests[0]);
      RunKeepsOnNodes(env, After(env, db, requests[0]), requests[1..]);
    }
  }

  // ---- Nothing without authority --------------------------------------------------------------------------

  /** An actor who is not an active superuser and has no effective valid row changes nothing, whatever the
      request, the policy and the tables. */
  lemma PowerlessActorsChangeNothing(env: Env, db: Db, r: Request)
    requires !r.actor.active ||
             (!r.actor.superuser && forall h :: h in EffectiveRows(db, r.actor.pk, r.now) ==> !IsValid(env, h))
    ensures After(env, db, r) == db
  {
    match r.op {
      case OpGrant(_) =>
      case OpTransition(_, _, _) =>
      case _ =>
        forall role: Role ensures !CanManageRole(env, r.actor, EffectiveRows(db, r.actor.pk, r.now), role) {
        }
    }
  }
}
