/** Why a run of module Interleaving asks that no owner narrows between the two reads of an actor: the rows
    read before and the permissions read after make up a right that nobody ever had. */
module TornRead {
  import opened Wrappers
  import opened HostModel
  import opened Hierarchy
  import opened Ancestry
  import opened Engine
  import opened Authority
  import opened Delegation
  import opened OwnerMoves
  import opened Interleaving

  /** A manager of the role everywhere, who narrows it; a manager of the role at its next owner, who adds a
      permission held there; and a user with a row of the role at its present owner. */
  function Scene(prior: Role, next: Role, p: Permission): Db {
    Db(map[prior.pk := prior,
           prior.pk + 1 := Role(prior.pk + 1, next.name + "'", "", None, None, None, {MANAGE_ROLES}),
           prior.pk + 2 := Role(prior.pk + 2, next.name + "''", "", None, None, None, {p, MANAGE_ROLES})],
       map[0 := RowAt(0, 0, prior.pk + 1, None, None, None),
           1 := RowAt(1, 1, prior.pk, prior.ownerLevel, prior.ownerCt, prior.ownerId),
           2 := RowAt(2, 2, prior.pk + 2, next.ownerLevel, next.ownerCt, next.ownerId)],
       prior.pk + 3, 3)
  }

  function Local(): User { User(2, true, false) }

  lemma SceneIsWhole(prior: Role, next: Role, p: Permission)
    ensures Integrity(Scene(prior, next, p))
  {
  }

  lemma SceneIsSound(env: Env, prior: Role, next: Role, p: Permission)
    requires ValidateOwner(env, prior) == Ok(prior)
    ensures Sound(env, Scene(prior, next, p))
  {
    SceneIsWhole(prior, next, p);
    ValidOwnerIsSound(env, prior);
    forall k | k in Scene(prior, next, p).roles ensures OwnerSound(env, Scene(prior, next, p).roles[k]) {
    }
  }

  /** A row in force gives its user what its role carries on whatever it reaches. */
  lemma RowGives(env: Env, db: Db, k: nat, user: User, p: Permission, node: Obj)
    requires k in db.assignments && db.assignments[k].role in db.roles
    requires var a := db.assignments[k];
             && a.user == user.pk && a.status == ACTIVE && a.validFrom.None? && a.validUntil.None?
             && IsValid(env, Held(a, db.roles[a.role])) && ScopeReaches(env, a, node) && p in db.roles[a.role].perms
    requires user.active && IsNodeModel(env.levels, node.model)
    ensures HasPerm(env, user, EffectiveRows(db, user.pk, 0), p, Some(node))
  {
    var h := Held(db.assignments[k], db.roles[db.assignments[k].role]);
    assert h in ActiveRows(db, user.pk);
    assert h in EffectiveRows(db, user.pk, 0);
    assert Covers(env, h, AtNode(node));
  }

  lemma MoverManagesAll(env: Env, prior: Role, next: Role, p: Permission, role: Role)
    requires role.ownerId.Some? && ValidateOwner(env, role) == Ok(role)
    ensures CanManageRole(env, Mover(), EffectiveRows(Scene(prior, next, p), 0, 0), role)
  {
    ValidOwnerIsSound(env, role);
    RowGives(env, Scene(prior, next, p), 0, Mover(), MANAGE_ROLES, OwnerOf(env, role).value);
  }

  /** The first manager narrows the role. */
  lemma MoveIsPerformed(env: Env, prior: Role, c: RoleChanges, next: Role, p: Permission)
    requires IsMove(env, prior, c) && next.ownerId.Some? && ValidateOwner(env, next) == Ok(next)
    requires ValidateOwner(env, Edited(prior, c)) == Ok(next) && next.pk == prior.pk
    ensures After(env, Scene(prior, next, p), Request(Mover(), 0, OpUpdateRole(prior.pk, c))) == Stored(Scene(prior, next, p), next)
  {
    MoverManagesAll(env, prior, next, p, prior);
    MoverManagesAll(env, prior, next, p, next);
    NameStaysFree(prior, next, p);
    UpdateSucceeds(env, Scene(prior, next, p), Mover(), 0, prior, c, next);
  }

  lemma NameStaysFree(prior: Role, next: Role, p: Permission)
    requires next.pk == prior.pk
    ensures !NameTaken(Scene(prior, next, p), next)
  {
    assert |next.name| < |next.name + "'"| < |next.name + "''"|;
  }

  /** The second adds the permission. */
  lemma AdditionIsPerformed(env: Env, prior: Role, next: Role, p: Permission)
    requires UniqueNames(env.levels) && next.ownerId.Some? && env.grantable == SelfOnly
    requires ValidateOwner(env, next) == Ok(next) && next.pk == prior.pk
    ensures var moved := Stored(Scene(prior, next, p), next);
            After(env, moved, Request(Local(), 0, OpAddPermissions(prior.pk, {p})))
              == Stored(moved, next.(perms := next.perms + {p}))
  {
    var moved, owner := Stored(Scene(prior, next, p), next), OwnerOf(env, next).value;
    var a := moved.assignments[2];
    OwnerScopeIsValid(env, next, a);
    ValidOwnerIsSound(env, next);
    SelfIsAncestor(env, owner);
    ReachesScope(env, a, owner);
    assert IsValid(env, Held(a, moved.roles[a.role]));
    RowGives(env, moved, 2, Local(), p, owner);
    RowGives(env, moved, 2, Local(), MANAGE_ROLES, owner);
    assert Local().(superuser := false) == Local();
    AdditionSucceeds(env, moved, Local(), 0, next, {p});
  }

  lemma AdditionSucceeds(env: Env, db: Db, actor: User, now: int, role: Role, perms: set<Permission>)
    requires role.pk in db.roles && db.roles[role.pk] == role
    requires CanManageRole(env, actor, EffectiveRows(db, actor.pk, now), role)
    requires forall p :: p in perms ==> CanGrantPermission(env, actor, EffectiveRows(db, actor.pk, now), role, p)
    ensures After(env, db, Request(actor, now, OpAddPermissions(role.pk, perms))) == Stored(db, role.(perms := role.perms + perms))
  {
  }

  /** At the present owner nothing gave the permission. */
  lemma SceneDoesNotConfer(env: Env, prior: Role, next: Role, p: Permission)
    requires prior.ownerId.Some? && ValidateOwner(env, prior) == Ok(prior) && ValidateOwner(env, next) == Ok(next)
    requires UniqueNames(env.levels) && !Narrows(env, next, prior) && p !in prior.perms && p != MANAGE_ROLES
    ensures OwnerOf(env, prior).Some? && !Confers(env, Scene(prior, next, p), p, On(OwnerOf(env, prior).value))
  {
    var db, owner := Scene(prior, next, p), OwnerOf(env, prior).value;
    OwnerScopeIsValid(env, next, db.assignments[2]);
    ReachesScope(env, db.assignments[2], owner);
  }

  function SceneRequests(prior: Role, c: RoleChanges, p: Permission): seq<Request> {
    [Request(Mover(), 0, OpUpdateRole(prior.pk, c)), Request(Local(), 0, OpAddPermissions(prior.pk, {p}))]
  }

  lemma TwoOperations(env: Env, db: Db, first: Request, second: Request)
    ensures Run(env, db, [first, second]) == After(env, After(env, db, first), second)
    ensures DelegatedRun(env, db, [first, second]) <==>
              && !first.actor.superuser && MovesHarmlessly(env, db, first)
              && !second.actor.superuser && MovesHarmlessly(env, After(env, db, first), second)
  {
    var rest, none: seq<Request> := [second], [];
    assert [first, second][1..] == rest && rest[1..] == none;
    assert DelegatedRun(env, After(env, After(env, db, first), second), none);
    assert DelegatedRun(env, After(env, db, first), rest) <==>
             !second.actor.superuser && MovesHarmlessly(env, After(env, db, first), second);
    assert Run(env, After(env, db, first), rest) == Run(env, After(env, After(env, db, first), second), none);
  }

  lemma ScenePlays(env: Env, prior: Role, c: RoleChanges, next: Role, p: Permission)
    requires UniqueNames(env.levels) && env.grantable == SelfOnly && next.ownerId.Some? && next.pk == prior.pk
    requires IsMove(env, prior, c) && ValidateOwner(env, Edited(prior, c)) == Ok(next) && ValidateOwner(env, next) == Ok(next)
    requires Harmless(env, prior, Edited(prior, c))
    ensures DelegatedRun(env, Scene(prior, next, p), SceneRequests(prior, c, p))
    ensures Run(env, Scene(prior, next, p), SceneRequests(prior, c, p))
              == Stored(Stored(Scene(prior, next, p), next), next.(perms := next.perms + {p}))
  {
    MoveIsPerformed(env, prior, c, next, p);
    AdditionIsPerformed(env, prior, next, p);
    TwoOperations(env, Scene(prior, next, p), SceneRequests(prior, c, p)[0], SceneRequests(prior, c, p)[1]);
  }

  /** For every harmless owner move that does not also widen, in a sound state, two permitted operations and a
      read torn around them: the move and then the addition of a permission, between the reading of a user's
      rows and of their permissions, show the user a permission on a node where it never was conferred. */
  lemma NarrowedRoleTearsRead(env: Env, prior: Role, c: RoleChanges, p: Permission) returns (db: Db, requests: seq<Request>)
    requires UniqueNames(env.levels) && env.grantable == SelfOnly
    requires IsMove(env, prior, c) && Harmless(env, prior, Edited(prior, c)) && !Narrows(env, Edited(prior, c), prior)
    requires p !in prior.perms && p != MANAGE_ROLES
    ensures Sound(env, db) && DelegatedRun(env, db, requests) && |requests| == 2
    ensures !RowsBacked(env, db, Refreshed(Run(env, db, requests), EffectiveRows(db, 1, 0)))
  {
    var next := MovedRole(env, prior, c);
    ValidOwnerIsSound(env, Edited(prior, c));
    db, requests := Scene(prior, next, p), SceneRequests(prior, c, p);
    SceneIsSound(env, prior, next, p);
    ScenePlays(env, prior, c, next, p);
    TornRow(env, prior, next, p, Run(env, db, requests));
  }

  lemma TornRow(env: Env, prior: Role, next: Role, p: Permission, end: Db)
    requires UniqueNames(env.levels) && prior.ownerId.Some? && !Narrows(env, next, prior)
    requires ValidateOwner(env, prior) == Ok(prior) && ValidateOwner(env, next) == Ok(next)
    requires p !in prior.perms && p != MANAGE_ROLES
    requires prior.pk in end.roles && p in end.roles[prior.pk].perms
    ensures !RowsBacked(env, Scene(prior, next, p), Refreshed(end, EffectiveRows(Scene(prior, next, p), 1, 0)))
  {
    var db := Scene(prior, next, p);
    var h := Held(db.assignments[1], prior);
    assert h in ActiveRows(db, 1);
    assert h in EffectiveRows(db, 1, 0);
    var torn := h.(role := prior.(perms := end.roles[prior.pk].perms));
    assert torn in Refreshed(end, EffectiveRows(db, 1, 0));
    OwnerScopeIsValid(env, prior, h.a);
    SameOwnerSameValidity(env, h.a, prior, torn.role);
    SceneDoesNotConfer(env, prior, next, p);
    var owner := OwnerOf(env, prior).value;
    SelfIsAncestor(env, owner);
    ReachesScope(env, h.a, owner);
    assert ReachesTarget(env, torn.a, On(owner));
  }
}
