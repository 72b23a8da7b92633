/** Who may change authority, and what each managed operation does to the stored rows. */
module Authority {
  import opened Wrappers
  import opened HostModel
  import opened Hierarchy
  import opened Ancestry
  import opened Engine

  const MANAGE_ROLES: Permission := "scoped_access.manage_roles"
  const MANAGE_GLOBAL_ROLES: Permission := "scoped_access.manage_global_roles"
  const MANAGE_ASSIGNMENTS: Permission := "scoped_access.manage_assignments"

  // ---- Guards -----------------------------------------------------------------------------------

  ghost predicate HoldsAtRoot(env: Env, rows: set<Held>, p: Permission) {
    exists h :: h in rows && IsValid(env, h) && IsRootScope(h.a) && p in h.role.perms
  }

  /** What the actor may delegate at a node, or at root when there is none. */
  ghost predicate HoldsAt(env: Env, actor: User, rows: set<Held>, p: Permission, node: Option<Obj>) {
    if node.None? then HoldsAtRoot(env, rows, p) else Holds(env, actor, rows, p, node)
  }

  predicate OwnerResolves(env: Env, role: Role) {
    role.ownerId.Some? ==> OwnerOf(env, role).Some?
  }

  ghost predicate CanManageAssignment(env: Env, actor: User, rows: set<Held>, node: Option<Obj>) {
    && actor.active
    && (actor.superuser || HoldsAt(env, actor, rows, MANAGE_ASSIGNMENTS, node))
  }

  ghost predicate CanManageRole(env: Env, actor: User, rows: set<Held>, role: Role) {
    && actor.active && OwnerResolves(env, role)
    && (actor.superuser ||
        if role.ownerId.Some? then HasPerm(env, actor, rows, MANAGE_ROLES, OwnerOf(env, role))
        else HoldsAtRoot(env, rows, MANAGE_GLOBAL_ROLES))
  }

  /** No actor adds to a role what it does not hold (scoped_access/engine.py:471-495). */
  ghost predicate CanGrantPermission(env: Env, actor: User, rows: set<Held>, role: Role, p: Permission) {
    && actor.active && OwnerResolves(env, role)
    && (actor.superuser ||
        match env.grantable
        case AnyPermission => true
        case Listed(perms) => p in perms
        case SelfOnly => HoldsAt(env, actor, rows, p, if role.ownerId.Some? then OwnerOf(env, role) else None))
  }

  /** A custom role is visible only where its owner is covered (scoped_access/engine.py:435-446). */
  ghost predicate RoleVisible(env: Env, actor: User, rows: set<Held>, role: Role) {
    && actor.active
    && (role.ownerId.None? ||
        (&& OwnerOf(env, role).Some?
         && (actor.superuser ||
             exists h :: h in rows && Covers(env, h, ResolveAnchor(env, OwnerOf(env, role).value)))))
  }

  /** No actor assigns a role that gives more than it holds at the target (scoped_access/engine.py:535-574). */
  ghost predicate CanAssignRole(env: Env, actor: User, rows: set<Held>, role: Role, level: Option<string>, node: Option<Obj>) {
    && actor.active && RoleAssignable(env, role, level, node)
    && (actor.superuser ||
        (&& RoleVisible(env, actor, rows, role)
         && match env.grantable
            case AnyPermission => true
            case Listed(perms) => role.perms <= perms
            case SelfOnly => forall p :: p in role.perms ==> HoldsAt(env, actor, rows, p, node)))
  }

  // ---- Assignments ------------------------------------------------------------------------------

  datatype Error =
    | ScopeError | WindowError | Missing | NotAssignable | NotManager | NotDelegable
    | Duplicate | BadTransition(persisted: Status) | OwnershipError | RoleInUse

  function LevelsMatching(env: Env, n: Obj): Levels {
    Keep(env, n, env.levels)
  }

  function Keep(env: Env, n: Obj, levels: Levels): (kept: Levels)
    ensures forall lvl :: lvl in kept <==> lvl in levels && InLevel(env.host, lvl, n)
  {
    if levels == [] then []
    else (if InLevel(env.host, levels[0], n) then [levels[0]] else []) + Keep(env, n, levels[1..])
  }

  /** The level a grant is stored with, inferred when the scope plays exactly one level. */
  function GrantLevel(env: Env, level: Option<string>, scope: Option<Obj>): (r: Result<Option<string>, Error>)
    ensures r.Ok? && scope.Some? ==>
              r.value.Some? && exists lvl :: lvl in env.levels && lvl.name == r.value.value && InLevel(env.host, lvl, scope.value)
    ensures scope.Some? && level.None? ==> (r.Ok? <==> |LevelsMatching(env, scope.value)| == 1)
    ensures scope.Some? && level.Some? ==>
              && (r.Ok? <==> exists lvl ::
                    && lvl in env.levels && lvl.name == level.value
                    && scope.value in env.host.rows && lvl.model == Some(scope.value.model)
                    && forall f :: f in lvl.discriminator ==>
                         (scope.value, f) in env.host.columns && env.host.columns[(scope.value, f)] == lvl.discriminator[f])
              && (r.Ok? ==> r.value == level)
    ensures scope.None? ==>
              (r.Ok? <==> level.None? || (ByName(env.levels, level.value).Some? && IsRoot(ByName(env.levels, level.value).value)))
    ensures r.Err? ==> r.error == ScopeError
    ensures r.Ok? && scope.None? ==>
              r.value == level &&
              (level.Some? ==> ByName(env.levels, level.value).Some? && IsRoot(ByName(env.levels, level.value).value))
  {
    match scope
    case Some(n) =>
      var matching := LevelsMatching(env, n);
      if level.None? then
        if |matching| == 1 then (assert matching[0] in matching; Ok(Some(matching[0].name))) else Err(ScopeError)
      else if exists lvl :: lvl in matching && lvl.name == level.value then Ok(level)
      else Err(ScopeError)
    case None =>
      if level.None? || (ByName(env.levels, level.value).Some? && IsRoot(ByName(env.levels, level.value).value))
      then Ok(level) else Err(ScopeError)
  }

  predicate Live(a: Assignment) { a.status != REVOKED }

  /** What the three partial unique constraints compare: a null column never equals anything. */
  predicate Clashes(a: Assignment, b: Assignment) {
    && Live(a) && Live(b) && a.user == b.user && a.role == b.role
    && (|| (a.level.Some? && a.scopeCt.Some? && a.scopeId.Some?
            && a.level == b.level && a.scopeCt == b.scopeCt && a.scopeId == b.scopeId)
        || (a.level.Some? && a.scopeId.None? && b.scopeId.None? && a.level == b.level)
        || (a.level.None? && a.scopeId.None? && b.level.None? && b.scopeId.None?))
  }

  datatype GrantRequest = GrantRequest(
    user: nat, role: nat, level: Option<string>, scope: Option<Obj>, validFrom: Option<int>, validUntil: Option<int>)

  function NewRow(db: Db, req: GrantRequest, level: Option<string>, actor: User): Assignment {
    Assignment(
      db.nextAssignment, req.user, req.role, level,
      (match req.scope case Some(n) => Some(n.model) case None => None),
      (match req.scope case Some(n) => Some(n.pk) case None => None),
      ACTIVE, req.validFrom, req.validUntil, actor.pk, None, None, "")
  }

  function Inserted(db: Db, a: Assignment): Db {
    db.(assignments := db.assignments[a.pk := a], nextAssignment := db.nextAssignment + 1)
  }

  predicate Taken(db: Db, a: Assignment) {
    exists k :: k in db.assignments && Clashes(db.assignments[k], a)
  }

  /** `ScopeAssignmentQuerySet.grant` */
  ghost function Grant(env: Env, db: Db, actor: User, now: int, req: GrantRequest): Result<Db, Error> {
    var level := GrantLevel(env, req.level, req.scope);
    var rows := EffectiveRows(db, actor.pk, now);
    if level.Err? then Err(level.error)
    else if req.validFrom.Some? && req.validUntil.Some? && req.validUntil.value <= req.validFrom.value then Err(WindowError)
    else if req.role !in db.roles then Err(Missing)
    else if !RoleAssignable(env, db.roles[req.role], level.value, req.scope) then Err(NotAssignable)
    else if !CanManageAssignment(env, actor, rows, req.scope) then Err(NotManager)
    else if !CanAssignRole(env, actor, rows, db.roles[req.role], level.value, req.scope) then Err(NotDelegable)
    else
      var a := NewRow(db, req, level.value, actor);
      if Taken(db, a) then Err(Duplicate) else Ok(Inserted(db, a))
  }

  datatype Transition = Suspend | Reactivate | Revoke

  predicate AllowedFrom(t: Transition, s: Status) {
    match t
    case Suspend => s == ACTIVE
    case Reactivate => s == SUSPENDED
    case Revoke => s == ACTIVE || s == SUSPENDED
  }

  function Moved(a: Assignment, t: Transition, actor: User, now: int, reason: string): Assignment {
    match t
    case Suspend => a.(status := SUSPENDED)
    case Reactivate => a.(status := ACTIVE)
    case Revoke => a.(status := REVOKED, revokedBy := Some(actor.pk), revokedAt := Some(now), reason := reason)
  }

  /** `_transition`: one conditional update against the persisted status. */
  function ConditionalUpdate(db: Db, pk: nat, t: Transition, actor: User, now: int, reason: string): Result<Db, Error> {
    if pk !in db.assignments then Err(Missing)
    else if !AllowedFrom(t, db.assignments[pk].status) then Err(BadTransition(db.assignments[pk].status))
    else Ok(db.(assignments := db.assignments[pk := Moved(db.assignments[pk], t, actor, now, reason)]))
  }

  /** `suspend`, `reactivate` and `revoke`. An orphaned scope is managed from the root. */
  ghost function Transitioned(env: Env, db: Db, actor: User, now: int, pk: nat, t: Transition, reason: string): Result<Db, Error> {
    if pk !in db.assignments then Err(Missing)
    else
      var a := db.assignments[pk];
      var rows := EffectiveRows(db, actor.pk, now);
      if !CanManageAssignment(env, actor, rows, ScopeOf(env, a)) then Err(NotManager)
      else if t == Reactivate && a.status != SUSPENDED then Err(BadTransition(a.status))
      else if t == Reactivate && a.role !in db.roles then Err(Missing)
      else if t == Reactivate && !CanAssignRole(env, actor, rows, db.roles[a.role], a.level, ScopeOf(env, a))
      then Err(NotDelegable)
      else ConditionalUpdate(db, pk, t, actor, now, reason)
  }

  // ---- Roles ------------------------------------------------------------------------------------

  /** `_validate_owner`: the role to store, its owner level completed. */
  function ValidateOwner(env: Env, role: Role): Result<Role, Error> {
    if role.ownerId.None? then
      if role.ownerCt.Some? || role.ownerLevel.Some? then Err(OwnershipError) else Ok(role)
    else if OwnerOf(env, role).None? then Err(OwnershipError)
    else
      var matching := LevelsMatching(env, OwnerOf(env, role).value);
      if role.ownerLevel.None? && |matching| != 1 then Err(OwnershipError)
      else
        var completed := if role.ownerLevel.None? then role.(ownerLevel := Some(matching[0].name)) else role;
        if (exists lvl :: lvl in matching && lvl.name == completed.ownerLevel.value)
           && completed.ownerLevel.value in env.roleOwnerLevels
        then Ok(completed) else Err(OwnershipError)
  }

  /** Role names are unique per owner, as the two partial constraints on role names state it. */
  predicate NameTaken(db: Db, role: Role) {
    exists k ::
      && k in db.roles && k != role.pk && db.roles[k].name == role.name
      && if role.ownerId.None? then db.roles[k].ownerId.None?
         else role.ownerCt.Some? && db.roles[k].ownerId == role.ownerId && db.roles[k].ownerCt == role.ownerCt
  }

  function Stored(db: Db, role: Role): Db { db.(roles := db.roles[role.pk := role]) }

  /** `grant_permissions` */
  ghost function AddPermissions(env: Env, db: Db, actor: User, now: int, pk: nat, perms: set<Permission>): Result<Db, Error> {
    if pk !in db.roles then Err(Missing)
    else
      var role := db.roles[pk];
      var rows := EffectiveRows(db, actor.pk, now);
      if !CanManageRole(env, actor, rows, role) then Err(NotManager)
      else if exists p :: p in perms - role.perms && !CanGrantPermission(env, actor, rows, role, p) then Err(NotDelegable)
      else Ok(Stored(db, role.(perms := role.perms + perms)))
  }

  /** `revoke_permissions` */
  ghost function RemovePermissions(env: Env, db: Db, actor: User, now: int, pk: nat, perms: set<Permission>): Result<Db, Error> {
    if pk !in db.roles then Err(Missing)
    else if !CanManageRole(env, actor, EffectiveRows(db, actor.pk, now), db.roles[pk]) then Err(NotManager)
    else Ok(Stored(db, db.roles[pk].(perms := db.roles[pk].perms - perms)))
  }

  datatype RoleFields = RoleFields(name: string, description: string, owner: Option<Obj>, ownerLevel: Option<string>)

  function Draft(pk: nat, fields: RoleFields): Role {
    Role(
      pk, fields.name, fields.description, fields.ownerLevel,
      (match fields.owner case Some(n) => Some(n.model) case None => None),
      (match fields.owner case Some(n) => Some(n.pk) case None => None), {})
  }

  /** `RoleService.create` */
  ghost function CreateRole(env: Env, db: Db, actor: User, now: int, fields: RoleFields, perms: set<Permission>): Result<Db, Error> {
    var checked := ValidateOwner(env, Draft(db.nextRole, fields));
    if checked.Err? then Err(checked.error)
    else if !CanManageRole(env, actor, EffectiveRows(db, actor.pk, now), checked.value) then Err(NotManager)
    else if NameTaken(db, checked.value) then Err(Duplicate)
    else
      var saved := Stored(db, checked.value).(nextRole := db.nextRole + 1);
      if perms == {} then Ok(saved) else AddPermissions(env, saved, actor, now, db.nextRole, perms)
  }

  /** The fields an update names; the others keep their value. */
  datatype RoleChanges = RoleChanges(
    name: Option<string>, description: Option<string>,
    owner: Option<Option<Obj>>, ownerLevel: Option<Option<string>>)

  /** The assignments `RoleService.update` makes before validating: clearing the owner clears its level. */
  function Edited(role: Role, c: RoleChanges): Role {
    var named := role.(
      name := if c.name.Some? then c.name.value else role.name,
      description := if c.description.Some? then c.description.value else role.description,
      ownerLevel := if c.ownerLevel.Some? then c.ownerLevel.value
                    else if c.owner == Some(None) then None else role.ownerLevel);
    match c.owner
    case None => named
    case Some(None) => named.(ownerCt := None, ownerId := None)
    case Some(Some(n)) => named.(ownerCt := Some(n.model), ownerId := Some(n.pk))
  }

  /** `RoleService.update` */
  ghost function UpdateRole(env: Env, db: Db, actor: User, now: int, pk: nat, c: RoleChanges): Result<Db, Error> {
    if pk !in db.roles then Err(Missing)
    else
      var rows := EffectiveRows(db, actor.pk, now);
      if !CanManageRole(env, actor, rows, db.roles[pk]) then Err(NotManager)
      else
        var checked := ValidateOwner(env, Edited(db.roles[pk], c));
        if checked.Err? then Err(checked.error)
        else if !CanManageRole(env, actor, rows, checked.value) then Err(NotManager)
        else if NameTaken(db, checked.value) then Err(Duplicate)
        else Ok(Stored(db, checked.value))
  }

  /** `RoleService.delete`: rows that use the role protect it. */
  ghost function DeleteRole(env: Env, db: Db, actor: User, now: int, pk: nat): Result<Db, Error> {
    if pk !in db.roles then Err(Missing)
    else if !CanManageRole(env, actor, EffectiveRows(db, actor.pk, now), db.roles[pk]) then Err(NotManager)
    else if exists k :: k in db.assignments && db.assignments[k].role == pk then Err(RoleInUse)
    else Ok(db.(roles := db.roles - {pk}))
  }

  // ---- Runs -------------------------------------------------------------------------------------

  datatype Op =
    | OpGrant(req: GrantRequest)
    | OpTransition(row: nat, t: Transition, reason: string)
    | OpCreateRole(fields: RoleFields, perms: set<Permission>)
    | OpAddPermissions(role: nat, perms: set<Permission>)
    | OpRemovePermissions(role: nat, perms: set<Permission>)
    | OpUpdateRole(role: nat, changes: RoleChanges)
    | OpDeleteRole(role: nat)

  /** An operation, by an actor, at an instant. */
  datatype Request = Request(actor: User, now: int, op: Op)

  ghost function Perform(env: Env, db: Db, r: Request): Result<Db, Error> {
    match r.op
    case OpGrant(req) => Grant(env, db, r.actor, r.now, req)
    case OpTransition(row, t, reason) => Transitioned(env, db, r.actor, r.now, row, t, reason)
    case OpCreateRole(fields, perms) => CreateRole(env, db, r.actor, r.now, fields, perms)
    case OpAddPermissions(role, perms) => AddPermissions(env, db, r.actor, r.now, role, perms)
    case OpRemovePermissions(role, perms) => RemovePermissions(env, db, r.actor, r.now, role, perms)
    case OpUpdateRole(role, changes) => UpdateRole(env, db, r.actor, r.now, role, changes)
    case OpDeleteRole(role) => DeleteRole(env, db, r.actor, r.now, role)
  }

  /** A refused operation rolls its transaction back. */
  ghost function After(env: Env, db: Db, r: Request): Db {
    match Perform(env, db, r)
    case Ok(next) => next
    case Err(_) => db
  }

  ghost function Run(env: Env, db: Db, requests: seq<Request>): Db
    decreases |requests|
  {
    if requests == [] then db else Run(env, After(env, db, requests[0]), requests[1..])
  }

  const EMPTY_DB := Db(map[], map[], 0, 0)
}
