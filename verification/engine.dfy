/** The decision engine: which assignments count, what they cover, and what they allow.
    Predicates here say what the engine decides; module Decisions computes it. */
module Engine {
  import opened Wrappers
  import opened HostModel
  import opened Hierarchy
  import opened Ancestry

  type Permission = string

  datatype Status = ACTIVE | SUSPENDED | REVOKED

  datatype User = User(pk: nat, active: bool, superuser: bool)

  datatype Role = Role(
    pk: nat,
    name: string,
    description: string,
    ownerLevel: Option<string>,
    ownerCt: Option<Model>,
    ownerId: Option<string>,
    perms: set<Permission>)

  datatype Assignment = Assignment(
    pk: nat,
    user: nat,
    role: nat,
    level: Option<string>,
    scopeCt: Option<Model>,
    scopeId: Option<string>,
    status: Status,
    validFrom: Option<int>,
    validUntil: Option<int>,
    grantedBy: nat,
    revokedBy: Option<nat>,
    revokedAt: Option<int>,
    reason: string)

  /** An assignment row with its role joined, as every authorization query fetches it. */
  datatype Held = Held(a: Assignment, role: Role)

  // ---- Scope resolution ---------------------------------------------------------------------

  datatype Anchor = AtNode(node: Obj) | Global | Denied | Unregistered

  function ResolveAnchor(env: Env, o: Obj): Anchor {
    if IsNodeModel(env.levels, o.model) then AtNode(o)
    else if o.model in env.globals then Global
    else if o.model !in env.anchors then (if env.strict then Unregistered else Global)
    else match Follow(env.host, o, env.anchors[o.model])
      case Some(n) => AtNode(n)
      case None => Denied
  }

  predicate IsRootScope(a: Assignment) { a.scopeId.None? }

  predicate SameNode(a: Assignment, n: Obj) {
    a.scopeId == Some(n.pk) && a.scopeCt == Some(n.model)
  }

  /** A stored (content type, id) pair resolves only to a row that exists. */
  function Resolve(env: Env, ct: Option<Model>, id: Option<string>): Option<Obj> {
    if ct.Some? && id.Some? && Obj(ct.value, id.value) in env.host.rows
    then Some(Obj(ct.value, id.value)) else None
  }

  function ScopeOf(env: Env, a: Assignment): Option<Obj> { Resolve(env, a.scopeCt, a.scopeId) }

  function OwnerOf(env: Env, role: Role): Option<Obj> { Resolve(env, role.ownerCt, role.ownerId) }

  /** `_assignment_scope_is_valid`: the complete persisted level/scope shape. */
  predicate ScopeIsValid(env: Env, a: Assignment) {
    if IsRootScope(a) then
      && a.scopeCt.None?
      && (a.level.Some? ==>
            var lvl := ByName(env.levels, a.level.value);
            lvl.Some? && IsRoot(lvl.value))
    else
      var scope := ScopeOf(env, a);
      && scope.Some? && a.level.Some?
      && var lvl := ByName(env.levels, a.level.value);
         lvl.Some? && InLevel(env.host, lvl.value, scope.value)
  }

  /** A custom role is assignable only inside its owner's subtree, never at root. */
  ghost predicate RoleAssignable(env: Env, role: Role, level: Option<string>, node: Option<Obj>) {
    role.ownerId.None? ||
    (&& OwnerOf(env, role).Some? && node.Some? && level.Some?
     && (var lvl := ByName(env.levels, level.value);
         lvl.Some? && InLevel(env.host, lvl.value, node.value))
     && IsAncestorOrSelf(env, OwnerOf(env, role).value, node.value))
  }

  /** `_assignment_is_valid`, evaluated against the stored rows. */
  ghost predicate IsValid(env: Env, h: Held) {
    && ScopeIsValid(env, h.a)
    && (h.role.ownerId.Some? ==>
          OwnerOf(env, h.role).Some? && RoleAssignable(env, h.role, h.a.level, ScopeOf(env, h.a)))
  }

  /** The node an assignment names is the one it is compared with. */
  ghost predicate ScopeReaches(env: Env, a: Assignment, n: Obj) {
    IsRootScope(a) || exists anc: Obj :: IsAncestorOrSelf(env, anc, n) && SameNode(a, anc)
  }

  /** `covers`, on a resolved anchor: inclusive downward, never upward. */
  ghost predicate Covers(env: Env, h: Held, anchor: Anchor) {
    && IsValid(env, h)
    && match anchor
       case Unregistered => false
       case Global => true
       case Denied => IsRootScope(h.a)
       case AtNode(n) => ScopeReaches(env, h.a, n)
  }

  // ---- Permission decision ------------------------------------------------------------------

  predicate InWindow(a: Assignment, now: int) {
    && (a.validFrom.None? || a.validFrom.value <= now)
    && (a.validUntil.None? || now < a.validUntil.value)
  }

  /** A question about no object is a question about no scope. */
  function AnchorOf(env: Env, obj: Option<Obj>): Anchor {
    if obj.None? then Global else ResolveAnchor(env, obj.value)
  }

  /** The permission decision, over the assignments effective for the user. */
  ghost predicate HasPerm(env: Env, user: User, rows: set<Held>, p: Permission, obj: Option<Obj>) {
    && user.active
    && (user.superuser || exists h :: h in rows && p in h.role.perms && Covers(env, h, AnchorOf(env, obj)))
  }

  /** `user_permissions`: superusers hold here only what their assignments give them. */
  ghost predicate Holds(env: Env, user: User, rows: set<Held>, p: Permission, obj: Option<Obj>) {
    HasPerm(env, user.(superuser := false), rows, p, obj)
  }

  /** `user_covers`: scope-only admission. */
  ghost predicate UserCovers(env: Env, user: User, rows: set<Held>, o: Obj) {
    var anchor := ResolveAnchor(env, o);
    && user.active
    && (user.superuser || anchor.Global? || exists h :: h in rows && Covers(env, h, anchor))
  }

  // ---- Stored authority ---------------------------------------------------------------------

  /** The two authority tables, with their key sequences. */
  datatype Db = Db(
    roles: map<nat, Role>,
    assignments: map<nat, Assignment>,
    nextRole: nat,
    nextAssignment: nat)

  /** Keys agree with rows, foreign keys resolve, and fresh keys stay ahead. */
  ghost predicate Integrity(db: Db) {
    && (forall k :: k in db.roles ==> db.roles[k].pk == k < db.nextRole)
    && (forall k :: k in db.assignments ==>
          db.assignments[k].pk == k < db.nextAssignment && db.assignments[k].role in db.roles)
  }

  /** A user's ACTIVE rows, whatever their validity window: what the request store keeps. */
  function ActiveRows(db: Db, user: nat): set<Held> {
    set k | k in db.assignments && db.assignments[k].user == user && db.assignments[k].status == ACTIVE
            && db.assignments[k].role in db.roles
          :: Held(db.assignments[k], db.roles[db.assignments[k].role])
  }

  function InForce(rows: set<Held>, now: int): set<Held> {
    set h | h in rows && InWindow(h.a, now)
  }

  /** `effective_assignments`: ACTIVE, inside the window, evaluated at the read. */
  function EffectiveRows(db: Db, user: nat, now: int): set<Held> {
    InForce(ActiveRows(db, user), now)
  }

  // ---- Laws ---------------------------------------------------------------------------------

  lemma ReachesScope(env: Env, a: Assignment, n: Obj)
    requires !IsRootScope(a) && ScopeIsValid(env, a)
    ensures ScopeReaches(env, a, n) <==> IsAncestorOrSelf(env, ScopeOf(env, a).value, n)
  {
  }

  /** Coverage is inclusive downward: what covers a node covers everything below it. */
  lemma CoverageIsDownward(env: Env, a: Assignment, top: Obj, n: Obj)
    requires ScopeReaches(env, a, top) && IsAncestorOrSelf(env, top, n)
    ensures ScopeReaches(env, a, n)
  {
    if !IsRootScope(a) {
      var anc: Obj :| IsAncestorOrSelf(env, anc, top) && SameNode(a, anc);
      AncestryTransitive(env, anc, top, n);
    }
  }

  /** Coverage is never upward: an assignment strictly below a node does not cover it. */
  lemma CoverageIsNeverUpward(env: Env, a: Assignment, n: Obj)
    requires !IsRootScope(a) && ScopeIsValid(env, a) && Grounded(env, n)
    requires IsAncestorOrSelf(env, n, ScopeOf(env, a).value) && ScopeOf(env, a) != Some(n)
    ensures !ScopeReaches(env, a, n)
  {
    ReachesScope(env, a, n);
    if ScopeReaches(env, a, n) {
      AncestryAntisymmetric(env, n, ScopeOf(env, a).value);
      assert false;
    }
  }

  /** Tenant containment: whatever a custom role allows on an object, the object sits under the
      role's current owner. A role moved since the grant is judged by its new owner. */
  lemma TenantContainment(env: Env, h: Held, anchor: Anchor)
    requires h.role.ownerId.Some? && Covers(env, h, anchor) && !anchor.Global?
    ensures anchor.AtNode? && OwnerOf(env, h.role).Some?
    ensures IsAncestorOrSelf(env, OwnerOf(env, h.role).value, anchor.node)
  {
    assert !IsRootScope(h.a);
    ReachesScope(env, h.a, anchor.node);
    AncestryTransitive(env, OwnerOf(env, h.role).value, ScopeOf(env, h.a).value, anchor.node);
  }

  /** So in every stored state, whatever owner moves led to it: a permission a user has on an object comes
      from one of the user's ACTIVE rows whose role is a system role, or has its present owner at or above
      the node the object is anchored to. */
  lemma PermissionsStayInTheTenant(env: Env, db: Db, user: User, now: int, p: Permission, o: Obj) returns (k: nat)
    requires Integrity(db) && !user.superuser && !ResolveAnchor(env, o).Global?
    requires HasPerm(env, user, EffectiveRows(db, user.pk, now), p, Some(o))
    ensures k in db.assignments && db.assignments[k].user == user.pk && db.assignments[k].status == ACTIVE
    ensures InWindow(db.assignments[k], now)
    ensures var role := db.roles[db.assignments[k].role];
            && p in role.perms
            && (role.ownerId.None? ||
                (&& ResolveAnchor(env, o).AtNode? && OwnerOf(env, role).Some?
                 && IsAncestorOrSelf(env, OwnerOf(env, role).value, ResolveAnchor(env, o).node)))
  {
    var h :| h in EffectiveRows(db, user.pk, now) && p in h.role.perms && Covers(env, h, ResolveAnchor(env, o));
    k :| k in db.assignments && db.assignments[k].role in db.roles
         && Held(db.assignments[k], db.roles[db.assignments[k].role]) == h;
    if h.role.ownerId.Some? {
      TenantContainment(env, h, ResolveAnchor(env, o));
    }
  }
}
