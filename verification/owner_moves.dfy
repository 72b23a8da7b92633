/** Which owner moves are harmless, exactly: why the others stay outside the no-amplification run. */
module OwnerMoves {
  import opened Wrappers
  import opened HostModel
  import opened Hierarchy
  import opened Ancestry
  import opened Engine
  import opened Authority
  import opened Delegation

  // ---- Stored roles are validated roles -----------------------------------------------------------

  /** Validating a stored role changes nothing. */
  ghost predicate OwnersValidated(env: Env, db: Db) {
    forall k :: k in db.roles ==> ValidateOwner(env, db.roles[k]) == Ok(db.roles[k])
  }

  lemma ValidationIsIdempotent(env: Env, role: Role, perms: set<Permission>)
    requires ValidateOwner(env, role).Ok?
    ensures var checked := ValidateOwner(env, role).value.(perms := perms);
            ValidateOwner(env, checked) == Ok(checked)
  {
    if role.ownerId.Some? {
      assert LevelsMatching(env, OwnerOf(env, role).value)
               == LevelsMatching(env, OwnerOf(env, ValidateOwner(env, role).value.(perms := perms)).value);
    }
  }

  lemma AdditionStaysValidated(env: Env, db: Db, actor: User, now: int, pk: nat, perms: set<Permission>)
    requires OwnersValidated(env, db) && AddPermissions(env, db, actor, now, pk, perms).Ok?
    ensures OwnersValidated(env, AddPermissions(env, db, actor, now, pk, perms).value)
  {
    ValidationIsIdempotent(env, db.roles[pk], db.roles[pk].perms + perms);
  }

  lemma CreationStaysValidated(env: Env, db: Db, actor: User, now: int, fields: RoleFields, perms: set<Permission>)
    requires OwnersValidated(env, db) && CreateRole(env, db, actor, now, fields, perms).Ok?
    ensures OwnersValidated(env, CreateRole(env, db, actor, now, fields, perms).value)
  {
    var role := ValidateOwner(env, Draft(db.nextRole, fields)).value;
    ValidationIsIdempotent(env, Draft(db.nextRole, fields), role.perms);
    assert OwnersValidated(env, Created(db, role));
    if perms != {} {
      AdditionStaysValidated(env, Created(db, role), actor, now, db.nextRole, perms);
    }
  }

  /** Every operation, by whomever, leaves every stored owner validated at its level. */
  lemma OperationKeepsOwnersValidated(env: Env, db: Db, r: Request)
    requires OwnersValidated(env, db)
    ensures OwnersValidated(env, After(env, db, r))
  {
    if Perform(env, db, r).Ok? {
      match r.op {
        case OpAddPermissions(role, perms) => AdditionStaysValidated(env, db, r.actor, r.now, role, perms);
        case OpRemovePermissions(role, perms) => ValidationIsIdempotent(env, db.roles[role], db.roles[role].perms - perms);
        case OpUpdateRole(role, c) => ValidationIsIdempotent(env, Edited(db.roles[role], c), Edited(db.roles[role], c).perms);
        case OpCreateRole(fields, perms) => CreationStaysValidated(env, db, r.actor, r.now, fields, perms);
        case OpDeleteRole(_) =>
        case _ => assert After(env, db, r).roles == db.roles;
      }
    }
  }

  lemma {:induction false} RunKeepsOwnersValidated(env: Env, db: Db, requests: seq<Request>)
    requires db == EMPTY_DB || OwnersValidated(env, db)
    ensures OwnersValidated(env, Run(env, db, requests))
    decreases |requests|
  {
    if requests != [] {
      OperationKeepsOwnersValidated(env, db, requests[0]);
      RunKeepsOwnersValidated(env, After(env, db, requests[0]), requests[1..]);
    }
  }

  // ---- Moves --------------------------------------------------------------------------------------

  /** An edit of a stored custom role that passes owner validation. */
  ghost predicate IsMove(env: Env, prior: Role, c: RoleChanges) {
    && prior.ownerId.Some? && ValidateOwner(env, prior) == Ok(prior)
    && ValidateOwner(env, Edited(prior, c)).Ok?
  }

  /** No state and no delegated actor make the move confer anything new. */
  ghost predicate NeverAmplifies(env: Env, prior: Role, c: RoleChanges) {
    forall db: Db, actor: User, now: int ::
      Sound(env, db) && !actor.superuser && prior.pk in db.roles && db.roles[prior.pk] == prior ==>
        NoneAdded(env, db, After(env, db, Request(actor, now, OpUpdateRole(prior.pk, c))))
  }

  // ---- A state in which a move that is not harmless amplifies -------------------------------------

  function Mover(): User { User(0, true, false) }

  /** A system role with one permission. */
  function ManagerRole(pk: nat, name: string, p: Permission): Role {
    Role(pk, name, "", None, None, None, {p})
  }

  function RowAt(pk: nat, user: nat, role: nat, level: Option<string>, ct: Option<Model>, id: Option<string>): Assignment {
    Assignment(pk, user, role, level, ct, id, ACTIVE, None, None, 0, None, None, "")
  }

  /** A dormant row of the moved role: at its next owner, or at root when the role becomes a system role. */
  function DormantRow(next: Role): Assignment {
    RowAt(1, 1, next.pk, next.ownerLevel, next.ownerCt, next.ownerId)
  }

  /** The mover manages the role where it is and where it goes, and holds nothing else: the permission
      asked for at the next owner from the root, and the one asked for now at the present owner. */
  function Stage(prior: Role, next: Role, name: string): Db {
    Db(map[prior.pk := prior,
           prior.pk + 1 := ManagerRole(prior.pk + 1, name, Asked(next)),
           prior.pk + 2 := ManagerRole(prior.pk + 2, name + "'", MANAGE_ROLES)],
       map[0 := RowAt(0, 0, prior.pk + 1, None, None, None),
           1 := DormantRow(next),
           2 := RowAt(2, 0, prior.pk + 2, prior.ownerLevel, prior.ownerCt, prior.ownerId)],
       prior.pk + 3, 3)
  }

  /** Where the moved role comes into force. */
  function Woken(env: Env, next: Role): Target {
    if OwnerOf(env, next).Some? then On(OwnerOf(env, next).value) else Everywhere
  }

  /** A row at a validated owner is a valid row of any role that may be assigned there. */
  lemma OwnerScopeIsValid(env: Env, role: Role, a: Assignment)
    requires UniqueNames(env.levels) && ValidateOwner(env, role) == Ok(role)
    requires a.level == role.ownerLevel && a.scopeCt == role.ownerCt && a.scopeId == role.ownerId
    ensures IsValid(env, Held(a, role))
    ensures ScopeIsValid(env, a) && ScopeOf(env, a) == OwnerOf(env, role)
  {
    if role.ownerId.Some? {
      var owner := OwnerOf(env, role).value;
      var lvl :| lvl in LevelsMatching(env, owner) && lvl.name == role.ownerLevel.value;
      var i: nat :| i < |env.levels| && env.levels[i] == lvl;
      RankIsPosition(env.levels, lvl.name, i);
      assert ByName(env.levels, lvl.name) == Some(lvl);
      SelfIsAncestor(env, owner);
    }
  }

  lemma MoverManagesPrior(env: Env, prior: Role, next: Role, name: string)
    requires UniqueNames(env.levels) && prior.ownerId.Some? && ValidateOwner(env, prior) == Ok(prior)
    ensures CanManageRole(env, Mover(), EffectiveRows(Stage(prior, next, name), 0, 0), prior)
  {
    var db := Stage(prior, next, name);
    var h := Held(db.assignments[2], db.roles[prior.pk + 2]);
    assert h in ActiveRows(db, 0);
    assert h in EffectiveRows(db, 0, 0);
    OwnerScopeIsValid(env, prior, h.a);
    ValidOwnerIsSound(env, prior);
    var owner := OwnerOf(env, prior).value;
    SelfIsAncestor(env, owner);
    ReachesScope(env, h.a, owner);
    assert Covers(env, h, AtNode(owner));
  }

  lemma MoverManagesNext(env: Env, prior: Role, next: Role, name: string)
    requires ValidateOwner(env, next).Ok?
    ensures CanManageRole(env, Mover(), EffectiveRows(Stage(prior, next, name), 0, 0), next)
  {
    var db := Stage(prior, next, name);
    var h := Held(db.assignments[0], db.roles[prior.pk + 1]);
    assert h in ActiveRows(db, 0);
    assert h in EffectiveRows(db, 0, 0);
    ValidOwnerIsSound(env, next);
    assert IsValid(env, h) && IsRootScope(h.a);
    if next.ownerId.Some? {
      assert Covers(env, h, AtNode(OwnerOf(env, next).value));
    }
  }

  lemma StageIsWhole(prior: Role, next: Role, name: string)
    requires next.pk == prior.pk
    ensures Integrity(Stage(prior, next, name))
  {
  }

  lemma StageIsSound(env: Env, prior: Role, next: Role, name: string)
    requires ValidateOwner(env, prior) == Ok(prior) && next.pk == prior.pk
    ensures Sound(env, Stage(prior, next, name))
  {
    StageIsWhole(prior, next, name);
    ValidOwnerIsSound(env, prior);
    forall k | k in Stage(prior, next, name).roles ensures OwnerSound(env, Stage(prior, next, name).roles[k]) {
    }
  }

  lemma NameIsFree(prior: Role, next: Role, name: string)
    requires next.pk == prior.pk && name != next.name && name + "'" != next.name
    ensures !NameTaken(Stage(prior, next, name), next)
  {
  }

  /** An update that passes its checks is performed. */
  lemma UpdateSucceeds(env: Env, db: Db, actor: User, now: int, prior: Role, c: RoleChanges, next: Role)
    requires prior.pk in db.roles && db.roles[prior.pk] == prior
    requires CanManageRole(env, actor, EffectiveRows(db, actor.pk, now), prior)
    requires ValidateOwner(env, Edited(prior, c)) == Ok(next)
    requires CanManageRole(env, actor, EffectiveRows(db, actor.pk, now), next) && !NameTaken(db, next)
    ensures After(env, db, Request(actor, now, OpUpdateRole(prior.pk, c))) == Stored(db, next)
  {
  }

  lemma MoveSucceeds(env: Env, prior: Role, c: RoleChanges, next: Role, name: string)
    requires UniqueNames(env.levels) && IsMove(env, prior, c) && ValidateOwner(env, Edited(prior, c)) == Ok(next)
    requires name != next.name && name + "'" != next.name
    ensures After(env, Stage(prior, next, name), Request(Mover(), 0, OpUpdateRole(prior.pk, c)))
              == Stored(Stage(prior, next, name), next)
  {
    ValidOwnerIsSound(env, Edited(prior, c));
    ValidationIsIdempotent(env, Edited(prior, c), next.perms);
    MoverManagesPrior(env, prior, next, name);
    MoverManagesNext(env, prior, next, name);
    NameIsFree(prior, next, name);
    UpdateSucceeds(env, Stage(prior, next, name), Mover(), 0, prior, c, next);
  }

  /** A row at the next owner is invalid under a prior owner not above it. */
  lemma DormantRowSleeps(env: Env, prior: Role, next: Role)
    requires prior.ownerId.Some? && !Narrows(env, prior, next)
    requires ValidateOwner(env, prior) == Ok(prior) && ValidateOwner(env, next) == Ok(next)
    ensures !IsValid(env, Held(DormantRow(next), prior))
  {
    assert ScopeOf(env, DormantRow(next)) == OwnerOf(env, next);
  }

  lemma StageConfersNothingElse(env: Env, prior: Role, next: Role, name: string, p: Permission)
    requires prior.ownerId.Some? && !IsValid(env, Held(DormantRow(next), prior)) && next.pk == prior.pk
    requires p != Asked(next) && (next.ownerId.Some? <==> OwnerOf(env, next).Some?)
    ensures !Confers(env, Stage(prior, next, name), p, Woken(env, next))
  {
  }

  lemma WokenRowGives(env: Env, prior: Role, next: Role, name: string, p: Permission)
    requires UniqueNames(env.levels) && next.pk == prior.pk && p in next.perms && ValidateOwner(env, next) == Ok(next)
    ensures Confers(env, Stored(Stage(prior, next, name), next), p, Woken(env, next))
  {
    var a := DormantRow(next);
    var after := Stored(Stage(prior, next, name), next);
    OwnerScopeIsValid(env, next, a);
    if next.ownerId.Some? {
      SelfIsAncestor(env, OwnerOf(env, next).value);
      ReachesScope(env, a, OwnerOf(env, next).value);
    }
    assert after.assignments[1] == a && after.roles[a.role] == next;
    assert Gives(env, Held(a, next), p, Woken(env, next));
  }

  /** What validation leaves of an edited role. */
  lemma MovedRole(env: Env, prior: Role, c: RoleChanges) returns (next: Role)
    requires IsMove(env, prior, c)
    ensures ValidateOwner(env, Edited(prior, c)) == Ok(next) && ValidateOwner(env, next) == Ok(next)
    ensures next.pk == prior.pk && next.perms == prior.perms && Asked(next) == Asked(Edited(prior, c))
    ensures next.ownerId.Some? <==> OwnerOf(env, next).Some?
    ensures Narrows(env, prior, next) <==> Narrows(env, prior, Edited(prior, c))
  {
    next := ValidateOwner(env, Edited(prior, c)).value;
    ValidOwnerIsSound(env, Edited(prior, c));
    ValidationIsIdempotent(env, Edited(prior, c), next.perms);
  }

  lemma StagedMoveAdds(env: Env, prior: Role, next: Role, name: string, p: Permission)
    requires UniqueNames(env.levels) && prior.ownerId.Some? && !Narrows(env, prior, next)
    requires ValidateOwner(env, prior) == Ok(prior) && ValidateOwner(env, next) == Ok(next)
    requires next.pk == prior.pk && p in next.perms && p != Asked(next)
    requires next.ownerId.Some? <==> OwnerOf(env, next).Some?
    ensures !NoneAdded(env, Stage(prior, next, name), Stored(Stage(prior, next, name), next))
  {
    DormantRowSleeps(env, prior, next);
    StageConfersNothingElse(env, prior, next, name, p);
    WokenRowGives(env, prior, next, name, p);
  }

  lemma OneStateIsEnough(env: Env, prior: Role, c: RoleChanges, db: Db, actor: User, now: int, after: Db)
    requires Sound(env, db) && !actor.superuser && prior.pk in db.roles && db.roles[prior.pk] == prior
    requires After(env, db, Request(actor, now, OpUpdateRole(prior.pk, c))) == after && !NoneAdded(env, db, after)
    ensures !NeverAmplifies(env, prior, c)
  {
  }

  /** Every other move amplifies in some sound state, through the checks the code makes. */
  lemma OtherMovesAmplify(env: Env, prior: Role, c: RoleChanges)
    requires UniqueNames(env.levels) && IsMove(env, prior, c) && !Harmless(env, prior, Edited(prior, c))
    ensures !NeverAmplifies(env, prior, c)
  {
    var next := MovedRole(env, prior, c);
    var p :| p in prior.perms && p != Asked(next);
    var name := next.name + "'";
    assert |next.name| < |name| < |name + "'"|;
    StageIsSound(env, prior, next, name);
    MoveSucceeds(env, prior, c, next, name);
    StagedMoveAdds(env, prior, next, name, p);
    OneStateIsEnough(env, prior, c, Stage(prior, next, name), Mover(), 0, Stored(Stage(prior, next, name), next));
  }

  lemma HarmlessMoveAddsNothing(env: Env, prior: Role, c: RoleChanges, db: Db, actor: User, now: int)
    requires Sound(env, db) && !actor.superuser && prior.pk in db.roles && db.roles[prior.pk] == prior
    requires Harmless(env, prior, Edited(prior, c))
    ensures NoneAdded(env, db, After(env, db, Request(actor, now, OpUpdateRole(prior.pk, c))))
  {
    if UpdateRole(env, db, actor, now, prior.pk, c).Ok? {
      UpdateRoleAddsNothing(env, db, actor, now, prior.pk, c);
    }
  }

  /** The exact condition on an owner move, under every policy: it can never amplify if and only if the next
      owner lies in the prior owner's subtree, or the role carries at most the one permission that
      managing it at the next owner asks for. */
  lemma NeverAmplifiesExactlyWhenHarmless(env: Env, prior: Role, c: RoleChanges)
    requires UniqueNames(env.levels) && IsMove(env, prior, c)
    ensures NeverAmplifies(env, prior, c) <==>
              Narrows(env, prior, Edited(prior, c)) || prior.perms <= {Asked(Edited(prior, c))}
  {
    if Harmless(env, prior, Edited(prior, c)) {
      forall db: Db, actor: User, now: int |
        Sound(env, db) && !actor.superuser && prior.pk in db.roles && db.roles[prior.pk] == prior
        ensures NoneAdded(env, db, After(env, db, Request(actor, now, OpUpdateRole(prior.pk, c))))
      {
        HarmlessMoveAddsNothing(env, prior, c, db, actor, now);
      }
    } else {
      OtherMovesAmplify(env, prior, c);
    }
  }
}
