/** The engine's loops, each proved to compute what module Engine says it decides. */
module Decisions {
  import opened Wrappers
  import opened HostModel
  import opened Hierarchy
  import opened Ancestry
  import opened Engine

  method RoleIsAssignable(env: Env, role: Role, level: Option<string>, node: Option<Obj>) returns (b: bool)
    requires Forest(env)
    ensures b == RoleAssignable(env, role, level, node)
  {
    if role.ownerId.None? {
      return true;
    }
    var owner := OwnerOf(env, role);
    if owner.None? || node.None? || level.None? {
      return false;
    }
    var lvl := ByName(env.levels, level.value);
    if lvl.None? || !InLevel(env.host, lvl.value, node.value) {
      return false;
    }
    var chain := IterAncestors(env, node.value);
    b := owner.value in chain;
  }

  method AssignmentIsValid(env: Env, h: Held) returns (valid: bool)
    requires Forest(env)
    ensures valid == IsValid(env, h)
  {
    valid := ScopeIsValid(env, h.a);
    if valid && h.role.ownerId.Some? {
      if OwnerOf(env, h.role).None? {
        valid := false;
      } else {
        valid := RoleIsAssignable(env, h.role, h.a.level, ScopeOf(env, h.a));
      }
    }
  }

  /** Whether the assignment's node is the given one or one of its ancestors. */
  method ScopeIsAbove(env: Env, a: Assignment, node: Obj) returns (b: bool)
    requires Forest(env)
    ensures b <==> exists anc: Obj :: IsAncestorOrSelf(env, anc, node) && SameNode(a, anc)
  {
    var chain := IterAncestors(env, node);
    for i := 0 to |chain|
      invariant forall j: nat :: j < i ==> !SameNode(a, chain[j])
    {
      if SameNode(a, chain[i]) {
        assert chain[i] in chain;
        return true;
      }
    }
    return false;
  }

  /** `user_permissions` */
  method UserPermissions(env: Env, user: User, rows: set<Held>, obj: Option<Obj>) returns (perms: set<Permission>)
    requires Forest(env)
    ensures forall p :: p in perms <==> Holds(env, user, rows, p, obj)
  {
    perms := {};
    if !user.active {
      return;
    }
    var anchor := AnchorOf(env, obj);
    if anchor.Unregistered? {
      return;
    }
    var todo := rows;
    while todo != {}
      invariant todo <= rows
      invariant forall p :: p in perms <==>
        exists h :: h in rows - todo && p in h.role.perms && Covers(env, h, anchor)
      decreases todo
    {
      var h :| h in todo;
      ghost var seen := rows - todo;
      todo := todo - {h};
      assert rows - todo == seen + {h};
      var valid := AssignmentIsValid(env, h);
      if valid {
        var covered: bool;
        match anchor {
          case Global => covered := true;
          case Denied => covered := IsRootScope(h.a);
          case AtNode(n) =>
            covered := IsRootScope(h.a);
            if !covered {
              covered := ScopeIsAbove(env, h.a, n);
            }
        }
        if covered {
          perms := perms + h.role.perms;
        }
      }
    }
    assert rows - todo == rows;
  }

  /** `has_perm` */
  method HasPermission(env: Env, user: User, rows: set<Held>, p: Permission, obj: Option<Obj>) returns (b: bool)
    requires Forest(env)
    ensures b == HasPerm(env, user, rows, p, obj)
  {
    if !user.active {
      return false;
    }
    if user.superuser {
      return true;
    }
    var perms := UserPermissions(env, user, rows, obj);
    assert user.(superuser := false) == user;
    b := p in perms;
  }

  /** `user_covers` */
  method UserCoversObject(env: Env, user: User, rows: set<Held>, o: Obj) returns (b: bool)
    requires Forest(env)
    ensures b == UserCovers(env, user, rows, o)
  {
    if !user.active {
      return false;
    }
    if user.superuser {
      return true;
    }
    var anchor := ResolveAnchor(env, o);
    if anchor.Global? {
      return true;
    }
    if anchor.Unregistered? {
      return false;
    }
    var todo := rows;
    while todo != {}
      invariant todo <= rows
      invariant forall h :: h in rows - todo ==> !Covers(env, h, anchor)
      decreases todo
    {
      var h :| h in todo;
      todo := todo - {h};
      var valid := AssignmentIsValid(env, h);
      if valid {
        if IsRootScope(h.a) {
          return true;
        }
        if anchor.AtNode? {
          var above := ScopeIsAbove(env, h.a, anchor.node);
          if above {
            return true;
          }
        }
      }
    }
    return false;
  }
}
