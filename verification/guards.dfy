/** The authorization guards as the engine computes them. */
module Guards {
  import opened Wrappers
  import opened HostModel
  import opened Hierarchy
  import opened Ancestry
  import opened Engine
  import opened Authority
  import Decisions

  /** What the user's valid root assignments give: the loop shared by every root-level guard. */
  method RootPermissions(env: Env, rows: set<Held>) returns (held: set<Permission>)
    requires Forest(env)
    ensures forall p :: p in held <==> HoldsAtRoot(env, rows, p)
  {
    held := {};
    var todo := rows;
    while todo != {}
      invariant todo <= rows
      invariant forall p :: p in held <==> HoldsAtRoot(env, rows - todo, p)
      decreases todo
    {
      var h :| h in todo;
      ghost var seen := rows - todo;
      todo := todo - {h};
      assert rows - todo == seen + {h};
      var valid := Decisions.AssignmentIsValid(env, h);
      if valid && IsRootScope(h.a) {
        held := held + h.role.perms;
      }
    }
    assert rows - todo == rows;
  }

  method PermissionsAt(env: Env, actor: User, rows: set<Held>, node: Option<Obj>) returns (held: set<Permission>)
    requires Forest(env)
    ensures forall p :: p in held <==> HoldsAt(env, actor, rows, p, node)
  {
    if node.None? {
      held := RootPermissions(env, rows);
    } else {
      held := Decisions.UserPermissions(env, actor, rows, node);
    }
  }

  method MayManageAssignment(env: Env, actor: User, rows: set<Held>, node: Option<Obj>) returns (b: bool)
    requires Forest(env)
    ensures b == CanManageAssignment(env, actor, rows, node)
    ensures b ==> actor.active
    ensures b && !actor.superuser ==> exists h ::
              && h in rows && IsValid(env, h) && MANAGE_ASSIGNMENTS in h.role.perms
              && (|| IsRootScope(h.a)
                  || (node.Some? && (IsNodeModel(env.levels, node.value.model) ==> ScopeReaches(env, h.a, node.value))))
  {
    if !actor.active {
      return false;
    }
    if actor.superuser {
      return true;
    }
    var held := PermissionsAt(env, actor, rows, node);
    b := MANAGE_ASSIGNMENTS in held;
    if b && node.Some? {
      ghost var h :| h in rows && MANAGE_ASSIGNMENTS in h.role.perms && Covers(env, h, ResolveAnchor(env, node.value));
      assert IsValid(env, h);
    }
  }

  method MayManageRole(env: Env, actor: User, rows: set<Held>, role: Role) returns (b: bool)
    requires Forest(env)
    ensures b == CanManageRole(env, actor, rows, role)
  {
    if !actor.active || !OwnerResolves(env, role) {
      return false;
    }
    if actor.superuser {
      return true;
    }
    if role.ownerId.Some? {
      b := Decisions.HasPermission(env, actor, rows, MANAGE_ROLES, OwnerOf(env, role));
    } else {
      var held := RootPermissions(env, rows);
      b := MANAGE_GLOBAL_ROLES in held;
    }
  }

  /** The added permissions the actor may not delegate: `forbidden` in `grant_permissions`. */
  method Forbidden(env: Env, actor: User, rows: set<Held>, role: Role, added: set<Permission>) returns (f: set<Permission>)
    requires Forest(env)
    ensures forall p :: p in f <==> p in added && !CanGrantPermission(env, actor, rows, role, p)
  {
    if !actor.active || !OwnerResolves(env, role) {
      return added;
    }
    if actor.superuser {
      return {};
    }
    match env.grantable {
      case AnyPermission => f := {};
      case Listed(perms) => f := added - perms;
      case SelfOnly =>
        var held := PermissionsAt(env, actor, rows, if role.ownerId.Some? then OwnerOf(env, role) else None);
        f := added - held;
    }
  }

  method SeesRole(env: Env, actor: User, rows: set<Held>, role: Role) returns (b: bool)
    requires Forest(env)
    ensures b == RoleVisible(env, actor, rows, role)
  {
    if !actor.active {
      return false;
    }
    if role.ownerId.None? {
      return true;
    }
    var owner := OwnerOf(env, role);
    if owner.None? || actor.superuser {
      return owner.Some?;
    }
    var anchor := ResolveAnchor(env, owner.value);
    var todo := rows;
    while todo != {}
      invariant todo <= rows
      invariant forall h :: h in rows - todo ==> !Covers(env, h, anchor)
      decreases todo
    {
      var h :| h in todo;
      todo := todo - {h};
      var valid := Decisions.AssignmentIsValid(env, h);
      if valid && !anchor.Unregistered? {
        if IsRootScope(h.a) || anchor.Global? {
          return true;
        }
        if anchor.AtNode? {
          var above := Decisions.ScopeIsAbove(env, h.a, anchor.node);
          if above {
            return true;
          }
        }
      }
    }
    return false;
  }

  method MayAssignRole(env: Env, actor: User, rows: set<Held>, role: Role, level: Option<string>, node: Option<Obj>)
    returns (b: bool)
    requires Forest(env)
    ensures b == CanAssignRole(env, actor, rows, role, level, node)
  {
    if !actor.active {
      return false;
    }
    var assignable := Decisions.RoleIsAssignable(env, role, level, node);
    if !assignable {
      return false;
    }
    if actor.superuser {
      return true;
    }
    var visible := SeesRole(env, actor, rows, role);
    if !visible {
      return false;
    }
    match env.grantable {
      case AnyPermission => b := true;
      case Listed(perms) => b := role.perms <= perms;
      case SelfOnly =>
        var held := PermissionsAt(env, actor, rows, node);
        b := role.perms <= held;
    }
  }
}
