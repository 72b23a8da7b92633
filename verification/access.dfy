/** The decision read off the stored rows: who is allowed what on which object, in terms of table columns,
    configured levels, anchors and ancestors alone. */
module Access {
  import opened Wrappers
  import opened HostModel
  import opened Hierarchy
  import opened Ancestry
  import opened Engine
  import opened Membership

  // ---- Rows -----------------------------------------------------------------------------------------

  /** The stored level and scope of a row fit the configuration: nothing, or a root level, without a scope;
      otherwise a level of that name that the scope plays. */
  ghost predicate Fits(env: Env, a: Assignment) {
    if a.scopeId.None? then
      && a.scopeCt.None?
      && (a.level.Some? ==> exists i: nat :: i < |env.levels| && env.levels[i].name == a.level.value && env.levels[i].model.None?)
    else
      && a.scopeCt.Some? && a.level.Some?
      && exists i: nat :: i < |env.levels| && env.levels[i].name == a.level.value
           && Plays(env.host, env.levels[i], Obj(a.scopeCt.value, a.scopeId.value))
  }

  /** A system role fits everywhere; a custom one at or below its owner, which still exists. */
  ghost predicate WithinOwner(env: Env, role: Role, a: Assignment) {
    role.ownerId.None? ||
    (&& role.ownerCt.Some? && Obj(role.ownerCt.value, role.ownerId.value) in env.host.rows
     && a.scopeCt.Some? && a.scopeId.Some?
     && IsAncestorOrSelf(env, Obj(role.ownerCt.value, role.ownerId.value), Obj(a.scopeCt.value, a.scopeId.value)))
  }

  lemma NameFindsLevel(env: Env, name: string, i: nat)
    requires UniqueNames(env.levels) && i < |env.levels| && env.levels[i].name == name
    ensures ByName(env.levels, name) == Some(env.levels[i])
  {
    RankIsPosition(env.levels, name, i);
  }

  lemma ShapeValidExactlyWhenFits(env: Env, a: Assignment)
    requires UniqueNames(env.levels)
    ensures ScopeIsValid(env, a) <==> Fits(env, a)
  {
    if a.level.Some? && ByName(env.levels, a.level.value).Some? {
      var lvl := ByName(env.levels, a.level.value).value;
      var i: nat :| i < |env.levels| && env.levels[i] == lvl;
      if a.scopeCt.Some? && a.scopeId.Some? {
        MembersPlay(env.host, lvl, Obj(a.scopeCt.value, a.scopeId.value));
      }
    }
    if i: nat :| a.level.Some? && i < |env.levels| && env.levels[i].name == a.level.value {
      NameFindsLevel(env, a.level.value, i);
      forall j: nat | j < |env.levels| && env.levels[j].name == a.level.value ensures j == i {
      }
    }
  }

  /** A row is judged valid if and only if its columns fit the configuration and its role's owner. */
  lemma ValidExactlyWhenFits(env: Env, h: Held)
    requires UniqueNames(env.levels)
    ensures IsValid(env, h) <==> Fits(env, h.a) && WithinOwner(env, h.role, h.a)
  {
    ShapeValidExactlyWhenFits(env, h.a);
  }

  /** The rows an authorization read at `now` uses: the user's, ACTIVE, from `valid_from` on and before
      `valid_until`, each with its role. */
  lemma EffectiveExactlyWhen(db: Db, user: nat, now: int, h: Held)
    ensures h in EffectiveRows(db, user, now) <==>
            exists k :: k in db.assignments && db.assignments[k] == h.a && h.a.role in db.roles && db.roles[h.a.role] == h.role
              && h.a.user == user && h.a.status == ACTIVE
              && (h.a.validFrom.Some? ==> h.a.validFrom.value <= now)
              && (h.a.validUntil.Some? ==> now < h.a.validUntil.value)
  {
  }

  // ---- Objects --------------------------------------------------------------------------------------

  /** The row's scope is the node or above it; a row without a scope is above everything. */
  ghost predicate AtOrAbove(env: Env, a: Assignment, n: Obj) {
    a.scopeId.None? || (a.scopeCt.Some? && IsAncestorOrSelf(env, Obj(a.scopeCt.value, a.scopeId.value), n))
  }

  ghost predicate OfNodeModel(env: Env, o: Obj) {
    exists i: nat :: i < |env.levels| && env.levels[i].model == Some(o.model)
  }

  /** An object nobody has to stand above: registered global, or unregistered where that is allowed. */
  ghost predicate OpenToAll(env: Env, o: Obj) {
    !OfNodeModel(env, o) && (o.model in env.globals || (o.model !in env.anchors && !env.strict))
  }

  /** A node answers for itself, a resource for the node its anchor leads to; without one only rootless rows
      reach it, and an unregistered resource is out of reach. */
  ghost predicate ReachesObject(env: Env, a: Assignment, o: Obj) {
    if OfNodeModel(env, o) then AtOrAbove(env, a, o)
    else if OpenToAll(env, o) then true
    else
      && o.model in env.anchors
      && match Follow(env.host, o, env.anchors[o.model])
         case Some(n) => AtOrAbove(env, a, n)
         case None => a.scopeId.None?
  }

  lemma ReachesNode(env: Env, h: Held, n: Obj)
    requires IsValid(env, h)
    ensures ScopeReaches(env, h.a, n) <==> AtOrAbove(env, h.a, n)
  {
    if h.a.scopeId.Some? {
      ReachesScope(env, h.a, n);
    }
  }

  lemma CoversExactlyWhenReaches(env: Env, h: Held, o: Obj)
    ensures Covers(env, h, ResolveAnchor(env, o)) <==> IsValid(env, h) && ReachesObject(env, h.a, o)
  {
    assert IsNodeModel(env.levels, o.model) <==> OfNodeModel(env, o);
    if IsValid(env, h) && ResolveAnchor(env, o).AtNode? {
      ReachesNode(env, h, ResolveAnchor(env, o).node);
    }
  }

  // ---- The decision ---------------------------------------------------------------------------------

  /** Row `k` counts for the user at `now`. */
  ghost predicate Counts(env: Env, db: Db, k: nat, user: nat, now: int) {
    && k in db.assignments && db.assignments[k].role in db.roles
    && var a := db.assignments[k];
       && a.user == user && a.status == ACTIVE
       && (a.validFrom.Some? ==> a.validFrom.value <= now) && (a.validUntil.Some? ==> now < a.validUntil.value)
       && Fits(env, a) && WithinOwner(env, db.roles[a.role], a)
  }

  lemma CountsExactlyWhen(env: Env, db: Db, user: nat, now: int, h: Held)
    requires UniqueNames(env.levels)
    ensures h in EffectiveRows(db, user, now) && IsValid(env, h) <==>
            exists k :: Counts(env, db, k, user, now) && h == Held(db.assignments[k], db.roles[db.assignments[k].role])
  {
    EffectiveExactlyWhen(db, user, now, h);
    ValidExactlyWhenFits(env, h);
    if h in EffectiveRows(db, user, now) && IsValid(env, h) {
      var k :| k in db.assignments && db.assignments[k] == h.a && h.a.role in db.roles && db.roles[h.a.role] == h.role;
      assert Counts(env, db, k, user, now);
    }
  }

  /** `has_perm`: an inactive user has nothing and an active superuser everything; any other user has what the
      role of one of their counting rows carries, on what that row reaches. */
  lemma AllowedExactlyWhen(env: Env, db: Db, user: User, now: int, p: Permission, o: Obj)
    requires UniqueNames(env.levels)
    ensures HasPerm(env, user, EffectiveRows(db, user.pk, now), p, Some(o)) <==>
            && user.active
            && (user.superuser || exists k ::
                  Counts(env, db, k, user.pk, now) && p in db.roles[db.assignments[k].role].perms && ReachesObject(env, db.assignments[k], o))
  {
    var rows := EffectiveRows(db, user.pk, now);
    if h :| h in rows && p in h.role.perms && Covers(env, h, ResolveAnchor(env, o)) {
      CoversExactlyWhenReaches(env, h, o);
      CountsExactlyWhen(env, db, user.pk, now, h);
    }
    if k :| Counts(env, db, k, user.pk, now) && p in db.roles[db.assignments[k].role].perms && ReachesObject(env, db.assignments[k], o) {
      var h := Held(db.assignments[k], db.roles[db.assignments[k].role]);
      CountsExactlyWhen(env, db, user.pk, now, h);
      CoversExactlyWhenReaches(env, h, o);
    }
  }

  /** Without an object, any counting row will do. */
  lemma AllowedSomewhereExactlyWhen(env: Env, db: Db, user: User, now: int, p: Permission)
    requires UniqueNames(env.levels)
    ensures HasPerm(env, user, EffectiveRows(db, user.pk, now), p, None) <==>
            && user.active
            && (user.superuser || exists k :: Counts(env, db, k, user.pk, now) && p in db.roles[db.assignments[k].role].perms)
  {
    if h :| h in EffectiveRows(db, user.pk, now) && p in h.role.perms && Covers(env, h, Global) {
      CountsExactlyWhen(env, db, user.pk, now, h);
    }
    if k :| Counts(env, db, k, user.pk, now) && p in db.roles[db.assignments[k].role].perms {
      var h := Held(db.assignments[k], db.roles[db.assignments[k].role]);
      CountsExactlyWhen(env, db, user.pk, now, h);
      assert Covers(env, h, Global);
    }
  }

  /** `user_covers`: what is open to all is covered for every active user. */
  lemma CoveredExactlyWhen(env: Env, db: Db, user: User, now: int, o: Obj)
    requires UniqueNames(env.levels)
    ensures UserCovers(env, user, EffectiveRows(db, user.pk, now), o) <==>
            && user.active
            && (user.superuser || OpenToAll(env, o)
                || exists k :: Counts(env, db, k, user.pk, now) && ReachesObject(env, db.assignments[k], o))
  {
    assert IsNodeModel(env.levels, o.model) <==> OfNodeModel(env, o);
    if h :| h in EffectiveRows(db, user.pk, now) && Covers(env, h, ResolveAnchor(env, o)) {
      CoversExactlyWhenReaches(env, h, o);
      CountsExactlyWhen(env, db, user.pk, now, h);
    }
    if k :| Counts(env, db, k, user.pk, now) && ReachesObject(env, db.assignments[k], o) {
      var h := Held(db.assignments[k], db.roles[db.assignments[k].role]);
      CountsExactlyWhen(env, db, user.pk, now, h);
      CoversExactlyWhenReaches(env, h, o);
    }
  }

  /** A node's parent is where the accessor leads that the first level of its model to declare one declares. */
  lemma {:induction false} ParentIsByFirstAccessor(levels: Levels, m: Model, i: nat)
    requires i < |levels| && levels[i].model == Some(m) && levels[i].parent.Some?
    requires forall j: nat :: j < i ==> levels[j].model != Some(m) || levels[j].parent.None?
    ensures ParentAccessor(levels, m) == levels[i].parent
  {
    if i > 0 {
      assert levels[0].model != Some(m) || levels[0].parent.None?;
      forall j: nat | j < i - 1 ensures levels[1..][j].model != Some(m) || levels[1..][j].parent.None? {
        assert levels[1..][j] == levels[j + 1];
      }
      ParentIsByFirstAccessor(levels[1..], m, i - 1);
    }
  }

  lemma {:induction false} NoAccessorNoParent(levels: Levels, m: Model)
    ensures ParentAccessor(levels, m).None? <==>
            forall j: nat :: j < |levels| ==> levels[j].model != Some(m) || levels[j].parent.None?
  {
    if levels != [] {
      NoAccessorNoParent(levels[1..], m);
      if forall j: nat :: j < |levels| ==> levels[j].model != Some(m) || levels[j].parent.None? {
        forall j: nat | j < |levels| - 1 ensures levels[1..][j].model != Some(m) || levels[1..][j].parent.None? {
          assert levels[1..][j] == levels[j + 1];
        }
        assert levels[0].model != Some(m) || levels[0].parent.None?;
      }
      if ParentAccessor(levels, m).None? {
        forall j: nat | j < |levels| ensures levels[j].model != Some(m) || levels[j].parent.None? {
          assert j > 0 ==> levels[1..][j - 1] == levels[j];
        }
      }
    }
  }
}
