/** The authority tables and the in-memory instances that the managed operations update in place.
    A receiver is a step that may fail; a failure rolls the transaction back. */
module Store {
  import opened Wrappers
  import opened HostModel
  import opened Ancestry
  import opened Engine
  import opened Authority
  import opened Delegation
  import Decisions
  import Guards

  datatype Failure = Refused(error: Error) | ReceiverFailed

  /** What an operation leaves behind: the next state when it is performed and its receiver agrees,
      the prior state and a reason otherwise. */
  ghost predicate Settles(outcome: Option<Failure>, prior: Db, performed: Result<Db, Error>, receiverFails: bool, db: Db) {
    match performed
    case Err(e) => outcome == Some(Refused(e)) && db == prior
    case Ok(next) => if receiverFails then outcome == Some(ReceiverFailed) && db == prior else outcome.None? && db == next
  }

  class Tables {
    var db: Db

    constructor (initial: Db)
      ensures db == initial
    {
      db := initial;
    }

    /** `ScopeAssignment.objects.grant` */
    method Grant(env: Env, actor: User, now: int, req: GrantRequest, receiverFails: bool) returns (outcome: Option<Failure>)
      requires Forest(env)
      modifies this
      ensures Settles(outcome, old(db), Authority.Grant(env, old(db), actor, now, req), receiverFails, db)
      ensures outcome.Some? ==> db == old(db)
      ensures receiverFails ==> outcome.Some?
      ensures outcome.None? ==>
                && old(db).nextAssignment in db.assignments
                && var a := db.assignments[old(db).nextAssignment];
                   && a.user == req.user && a.role == req.role && a.grantedBy == actor.pk && a.status == ACTIVE
                   && a.validFrom == req.validFrom && a.validUntil == req.validUntil
                   && match req.scope
                      case Some(n) => a.scopeCt == Some(n.model) && a.scopeId == Some(n.pk)
                      case None => a.scopeCt.None? && a.scopeId.None?
    {
      var saved := db;
      var level := GrantLevel(env, req.level, req.scope);
      if level.Err? {
        return Some(Refused(level.error));
      }
      if req.validFrom.Some? && req.validUntil.Some? && req.validUntil.value <= req.validFrom.value {
        return Some(Refused(WindowError));
      }
      if req.role !in db.roles {
        return Some(Refused(Missing));
      }
      var role, rows := db.roles[req.role], EffectiveRows(db, actor.pk, now);
      var assignable := Decisions.RoleIsAssignable(env, role, level.value, req.scope);
      if !assignable {
        return Some(Refused(NotAssignable));
      }
      var manager := Guards.MayManageAssignment(env, actor, rows, req.scope);
      if !manager {
        return Some(Refused(NotManager));
      }
      var delegable := Guards.MayAssignRole(env, actor, rows, role, level.value, req.scope);
      if !delegable {
        return Some(Refused(NotDelegable));
      }
      var a := NewRow(db, req, level.value, actor);
      if Taken(db, a) {
        return Some(Refused(Duplicate));
      }
      db := db.(assignments := db.assignments[a.pk := a], nextAssignment := db.nextAssignment + 1);
      if receiverFails {
        db := saved;
        return Some(ReceiverFailed);
      }
      return None;
    }

    /** `AbstractRole.grant_permissions` */
    method GrantPermissions(env: Env, actor: User, now: int, pk: nat, perms: set<Permission>, receiverFails: bool)
      returns (outcome: Option<Failure>)
      requires Forest(env)
      modifies this
      ensures Settles(outcome, old(db), AddPermissions(env, old(db), actor, now, pk, perms),
                      receiverFails && pk in old(db).roles && perms - old(db).roles[pk].perms != {}, db)
      ensures outcome.Some? ==> db == old(db)
    {
      if pk !in db.roles {
        return Some(Refused(Missing));
      }
      var saved, role, rows := db, db.roles[pk], EffectiveRows(db, actor.pk, now);
      var manager := Guards.MayManageRole(env, actor, rows, role);
      if !manager {
        return Some(Refused(NotManager));
      }
      var added := perms - role.perms;
      var forbidden := Guards.Forbidden(env, actor, rows, role, added);
      if forbidden != {} {
        var p :| p in forbidden;
        assert p in perms - role.perms && !CanGrantPermission(env, actor, rows, role, p);
        return Some(Refused(NotDelegable));
      }
      assert forall p :: p in perms - role.perms ==> p !in forbidden;
      db := db.(roles := db.roles[role.pk := role.(perms := role.perms + perms)]);
      // the signal is sent only when something was added
      if added != {} && receiverFails {
        db := saved;
        return Some(ReceiverFailed);
      }
      return None;
    }

    /** `AbstractRole.revoke_permissions` */
    method RevokePermissions(env: Env, actor: User, now: int, pk: nat, perms: set<Permission>, receiverFails: bool)
      returns (outcome: Option<Failure>)
      requires Forest(env)
      modifies this
      ensures Settles(outcome, old(db), RemovePermissions(env, old(db), actor, now, pk, perms),
                      receiverFails && pk in old(db).roles && perms * old(db).roles[pk].perms != {}, db)
      ensures outcome.Some? ==> db == old(db)
    {
      if pk !in db.roles {
        return Some(Refused(Missing));
      }
      var saved, role := db, db.roles[pk];
      var manager := Guards.MayManageRole(env, actor, EffectiveRows(db, actor.pk, now), role);
      if !manager {
        return Some(Refused(NotManager));
      }
      var removed := perms * role.perms;
      db := db.(roles := db.roles[role.pk := role.(perms := role.perms - perms)]);
      if removed != {} && receiverFails {
        db := saved;
        return Some(ReceiverFailed);
      }
      return None;
    }

    /** `RoleService.create`: a refusal of its permissions undoes the role as well. */
    method CreateRole(env: Env, actor: User, now: int, fields: RoleFields, perms: set<Permission>, receiverFails: bool)
      returns (outcome: Option<Failure>)
      requires Forest(env)
      modifies this
      ensures Settles(outcome, old(db), Authority.CreateRole(env, old(db), actor, now, fields, perms),
                      receiverFails && perms != {}, db)
      ensures outcome.Some? ==> db == old(db)
    {
      var saved := db;
      var checked := ValidateOwner(env, Draft(db.nextRole, fields));
      if checked.Err? {
        return Some(Refused(checked.error));
      }
      var manager := Guards.MayManageRole(env, actor, EffectiveRows(db, actor.pk, now), checked.value);
      if !manager {
        return Some(Refused(NotManager));
      }
      if NameTaken(db, checked.value) {
        return Some(Refused(Duplicate));
      }
      ghost var pk := db.nextRole;
      db := db.(roles := db.roles[checked.value.pk := checked.value], nextRole := db.nextRole + 1);
      if perms != {} {
        outcome := GrantPermissions(env, actor, now, checked.value.pk, perms, receiverFails);
        if outcome.Some? {
          db := saved;
        }
        return;
      }
      return None;
    }

    /** `RoleService.delete` */
    method DeleteRole(env: Env, actor: User, now: int, pk: nat) returns (outcome: Option<Failure>)
      requires Forest(env)
      modifies this
      ensures Settles(outcome, old(db), Authority.DeleteRole(env, old(db), actor, now, pk), false, db)
      ensures outcome.Some? ==> db == old(db)
    {
      if pk !in db.roles {
        return Some(Refused(Missing));
      }
      var manager := Guards.MayManageRole(env, actor, EffectiveRows(db, actor.pk, now), db.roles[pk]);
      if !manager {
        return Some(Refused(NotManager));
      }
      if exists k :: k in db.assignments && db.assignments[k].role == pk {
        return Some(Refused(RoleInUse));
      }
      db := db.(roles := db.roles - {pk});
      return None;
    }
  }

  /** The fields a transition may change on the instance. */
  datatype Snapshot = Snapshot(status: Status, revokedBy: Option<nat>, revokedAt: Option<int>, reason: string)

  /** An assignment instance in memory: its key, and its copy of the row. */
  class AssignmentInstance {
    const pk: nat
    var row: Assignment

    constructor (pk: nat, copy: Assignment)
      ensures this.pk == pk && row == copy
    {
      this.pk := pk;
      row := copy;
    }

    ghost predicate InStep(db: Db)
      reads this
    {
      pk in db.assignments && row == db.assignments[pk]
    }

    function Taken(): Snapshot
      reads this
    {
      Snapshot(row.status, row.revokedBy, row.revokedAt, row.reason)
    }

    method Restore(s: Snapshot)
      modifies this
      ensures row == old(row).(status := s.status, revokedBy := s.revokedBy, revokedAt := s.revokedAt, reason := s.reason)
    {
      row := row.(status := s.status, revokedBy := s.revokedBy, revokedAt := s.revokedAt, reason := s.reason);
    }

    /** `_authorize_transition`: reload, then ask about the stored scope, whatever the caller's copy said. */
    method Authorize(env: Env, tables: Tables, actor: User, now: int) returns (refused: Option<Error>)
      requires Forest(env)
      modifies this
      ensures pk in tables.db.assignments ==> InStep(tables.db)
      ensures pk !in tables.db.assignments ==> row == old(row)
      ensures refused.None? <==>
                pk in tables.db.assignments &&
                CanManageAssignment(env, actor, EffectiveRows(tables.db, actor.pk, now), ScopeOf(env, tables.db.assignments[pk]))
      ensures refused.Some? ==> refused.value == if pk in tables.db.assignments then NotManager else Missing
    {
      if pk !in tables.db.assignments {
        return Some(Missing);
      }
      row := tables.db.assignments[pk];
      var allowed := Guards.MayManageAssignment(env, actor, EffectiveRows(tables.db, actor.pk, now), ScopeOf(env, row));
      return if allowed then None else Some(NotManager);
    }

    /** `_transition`, against whatever is stored by now: on refusal the copy learns the stored status only. */
    method ApplyTransition(tables: Tables, actor: User, now: int, t: Transition, reason: string) returns (refused: Option<Error>)
      modifies this, tables
      ensures match ConditionalUpdate(old(tables.db), pk, t, actor, now, reason)
              case Ok(next) => refused.None? && tables.db == next && row == Moved(old(row), t, actor, now, reason)
              case Err(e) =>
                && refused == Some(e) && tables.db == old(tables.db)
                && row == match e
                          case BadTransition(persisted) => old(row).(status := persisted)
                          case _ => old(row)
    {
      var db := tables.db;
      if pk !in db.assignments {
        return Some(Missing);
      }
      var stored := db.assignments[pk];
      if !AllowedFrom(t, stored.status) {
        row := row.(status := stored.status);
        return Some(BadTransition(stored.status));
      }
      tables.db := db.(assignments := db.assignments[pk := Moved(stored, t, actor, now, reason)]);
      row := Moved(row, t, actor, now, reason);
      return None;
    }

    /** `suspend`, `reactivate`, `revoke`. Performed, refused or rolled back, the copy ends equal to the
        stored row. */
    method Transit(env: Env, tables: Tables, actor: User, now: int, t: Transition, reason: string, receiverFails: bool)
      returns (outcome: Option<Failure>)
      requires Forest(env)
      modifies this, tables
      ensures Settles(outcome, old(tables.db), Transitioned(env, old(tables.db), actor, now, pk, t, reason), receiverFails, tables.db)
      ensures pk in old(tables.db).assignments ==> InStep(tables.db)
      ensures outcome.Some? ==> tables.db == old(tables.db)
      ensures receiverFails ==> outcome.Some?
      ensures outcome.None? ==>
                match t
                case Suspend => row.status == SUSPENDED
                case Reactivate => row.status == ACTIVE
                case Revoke => row.status == REVOKED && row.revokedBy == Some(actor.pk) && row.revokedAt == Some(now) && row.reason == reason
    {
      var saved := tables.db;
      var refused := Authorize(env, tables, actor, now);
      if refused.Some? {
        return Some(Refused(refused.value));
      }
      if t == Reactivate {
        if row.status != SUSPENDED {
          return Some(Refused(BadTransition(row.status)));
        }
        if row.role !in tables.db.roles {
          return Some(Refused(Missing));
        }
        var delegable := Guards.MayAssignRole(
          env, actor, EffectiveRows(tables.db, actor.pk, now), tables.db.roles[row.role], row.level, ScopeOf(env, row));
        if !delegable {
          return Some(Refused(NotDelegable));
        }
      }
      var snapshot := Taken();
      refused := ApplyTransition(tables, actor, now, t, reason);
      if refused.Some? {
        return Some(Refused(refused.value));
      }
      if receiverFails {
        Restore(snapshot);
        tables.db := saved;
        return Some(ReceiverFailed);
      }
      return None;
    }
  }

  /** Assigning the original values back undoes an edit, whatever owner level validation filled in. */
  lemma FieldsComeBack(env: Env, prior: Role, c: RoleChanges, edited: Role)
    requires OwnerResolves(env, prior) && (prior.ownerId.None? ==> prior.ownerCt.None?)
    requires edited == Edited(prior, c).(ownerLevel := edited.ownerLevel)
    ensures Edited(edited, RoleChanges(Some(prior.name), Some(prior.description), Some(OwnerOf(env, prior)), Some(prior.ownerLevel))) == prior
  {
  }

  /** A role instance in memory. */
  class RoleInstance {
    const pk: nat
    var role: Role

    constructor (pk: nat, copy: Role)
      ensures this.pk == pk && role == copy
    {
      this.pk := pk;
      role := copy;
    }

    /** Assigning the generic owner sets its content type and id together. */
    method SetOwner(owner: Option<Obj>)
      modifies this
      ensures role == old(role).(
                ownerCt := match owner { case Some(n) => Some(n.model) case None => None },
                ownerId := match owner { case Some(n) => Some(n.pk) case None => None })
    {
      match owner {
        case Some(n) => role := role.(ownerCt := Some(n.model), ownerId := Some(n.pk));
        case None => role := role.(ownerCt := None, ownerId := None);
      }
    }

    /** The loop of assignments in `RoleService.update`. */
    method Assign(c: RoleChanges)
      modifies this
      ensures role == Edited(old(role), c)
    {
      if c.name.Some? {
        role := role.(name := c.name.value);
      }
      if c.description.Some? {
        role := role.(description := c.description.value);
      }
      if c.owner.Some? {
        SetOwner(c.owner.value);
      }
      if c.ownerLevel.Some? {
        role := role.(ownerLevel := c.ownerLevel.value);
      } else if c.owner == Some(None) {
        role := role.(ownerLevel := None);
      }
    }

    /** The original values, assigned back field by field. */
    method Restore(name: string, description: string, owner: Option<Obj>, ownerLevel: Option<string>)
      modifies this
      ensures role == Edited(old(role), RoleChanges(Some(name), Some(description), Some(owner), Some(ownerLevel)))
    {
      role := role.(name := name, description := description, ownerLevel := ownerLevel);
      SetOwner(owner);
    }

    /** What `update` asks of the edited fields: a valid owner, manage rights there too, a free name. */
    method Validate(env: Env, db: Db, actor: User, rows: set<Held>) returns (failure: Option<Error>)
      requires Forest(env)
      modifies this
      ensures var checked := ValidateOwner(env, old(role));
              && (checked.Err? ==> role == old(role) && failure == Some(checked.error))
              && (checked.Ok? ==>
                    && role == checked.value
                    && failure == if !CanManageRole(env, actor, rows, role) then Some(NotManager)
                                  else if NameTaken(db, role) then Some(Duplicate) else None)
    {
      var checked := ValidateOwner(env, role);
      if checked.Err? {
        return Some(checked.error);
      }
      role := checked.value;
      var manager := Guards.MayManageRole(env, actor, rows, role);
      if !manager {
        return Some(NotManager);
      }
      return if NameTaken(db, role) then Some(Duplicate) else None;
    }

    /** `RoleService.update`: whatever fails after the edit, the instance's fields are again those stored. */
    method Update(env: Env, tables: Tables, actor: User, now: int, c: RoleChanges) returns (outcome: Option<Failure>)
      requires Forest(env) && Sound(env, tables.db)
      modifies this, tables
      ensures Settles(outcome, old(tables.db), UpdateRole(env, old(tables.db), actor, now, pk, c), false, tables.db)
      ensures pk in old(tables.db).roles ==> pk in tables.db.roles && role == tables.db.roles[pk]
      ensures outcome.Some? ==> tables.db == old(tables.db)
    {
      if pk !in tables.db.roles {
        return Some(Refused(Missing));
      }
      role := tables.db.roles[pk];
      var rows := EffectiveRows(tables.db, actor.pk, now);
      var manager := Guards.MayManageRole(env, actor, rows, role);
      if !manager {
        return Some(Refused(NotManager));
      }
      var name, description, owner, ownerLevel := role.name, role.description, OwnerOf(env, role), role.ownerLevel;
      Assign(c);
      var failure := Validate(env, tables.db, actor, rows);
      if failure.Some? {
        FieldsComeBack(env, tables.db.roles[pk], c, role);
        Restore(name, description, owner, ownerLevel);
        return Some(Refused(failure.value));
      }
      tables.db := tables.db.(roles := tables.db.roles[pk := role]);
      return None;
    }
  }
}
