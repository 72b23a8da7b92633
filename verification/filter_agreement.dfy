/** One question, two answers: the collection filter against the per-object decision. */
module FilterAgreement {
  import opened Wrappers
  import opened HostModel
  import opened Hierarchy
  import opened Ancestry
  import opened Engine
  import opened Filters

  /** What the object-level side decides: with a permission `has_perm`, without one `user_covers`. */
  ghost predicate Decides(env: Env, user: User, rows: set<Held>, perm: Option<Permission>, o: Obj) {
    match perm
    case Some(p) => HasPerm(env, user, rows, p, Some(o))
    case None => UserCovers(env, user, rows, o)
  }

  /** Every level node above `n` sits at a height that is the rank difference to some level of
      `n`'s own model: the height the filter climbs. */
  ghost predicate HeightsMatchRanks(env: Env, n: Obj) {
    forall d: nat, m: Obj, i: nat ::
      AncestorAt(env, n, d) == Some(m) && i < |env.levels| && InLevel(env.host, env.levels[i], m) ==>
        i + d < |env.levels| && env.levels[i + d].model == Some(n.model)
  }

  /** The same for a node looked up in the level at rank `t`. */
  ghost predicate HeightsMatchRank(env: Env, t: nat, n: Obj) {
    forall d: nat, m: Obj, i: nat ::
      AncestorAt(env, n, d) == Some(m) && i < |env.levels| && InLevel(env.host, env.levels[i], m) ==> i + d == t
  }

  // ---- Soundness: climbs made of parent steps -------------------------------------------------------

  /** Equal keys identify the assignment's node: the climb lands on its level's model. */
  lemma ClimbIsAncestry(env: Env, a: Assignment, t: nat, n: Obj)
    requires Typed(env.host) && ClimbsAreWalks(env) && ScopeIsValid(env, a) && !IsRootScope(a)
    requires ClimbFinds(env, a, t, n) && env.levels[t].model == Some(n.model)
    ensures ScopeReaches(env, a, n)
  {
    ValidRank(env, a);
    var rank := Rank(env.levels, a.level.value).value;
    ClimbFindsAncestor(env, n, t, rank);
    var found := Follow(env.host, n, UpPath(env.levels, t, rank).value).value;
    assert ScopeOf(env, a) == Some(found);
    assert SameNode(a, found);
  }

  /** A node that the query of `accessible_nodes` keeps is one the user is allowed on, whatever levels the
      parents skip. */
  lemma AccessibleIsAllowed(env: Env, user: User, rows: set<Held>, t: nat, perm: Option<Permission>, n: Obj)
    requires Typed(env.host) && ClimbsAreWalks(env)
    requires t < |env.levels| && InLevel(env.host, env.levels[t], n)
    requires LevelKeeps(env, user, rows, t, perm, n)
    ensures Decides(env, user, rows, perm, n)
  {
    assert ResolveAnchor(env, n) == AtNode(n);
    if !user.superuser {
      var h :| h in rows && IsValid(env, h) && Carries(h, perm) && (IsRootScope(h.a) || ClimbFinds(env, h.a, t, n));
      if !IsRootScope(h.a) {
        ClimbIsAncestry(env, h.a, t, n);
      }
      assert Covers(env, h, AtNode(n));
    }
  }

  /** The query of `scope_filter_q` never keeps an object the decision would refuse. */
  lemma FilterIsSound(env: Env, user: User, rows: set<Held>, perm: Option<Permission>, o: Obj)
    requires Typed(env.host) && ClimbsAreWalks(env)
    requires FilterKeeps(env, user, rows, o.model, perm, o)
    ensures Decides(env, user, rows, perm, o)
  {
    if IsNodeModel(env.levels, o.model) {
      var t: nat :| t < |env.levels| && InLevel(env.host, env.levels[t], o) && LevelKeeps(env, user, rows, t, perm, o);
      AccessibleIsAllowed(env, user, rows, t, perm, o);
    } else if !user.superuser && ResolveAnchor(env, o).Global? {
      if perm.Some? {
        var h :| h in rows && IsValid(env, h) && Carries(h, perm);
        assert Covers(env, h, Global);
      }
    } else if !user.superuser {
      var h :| h in rows && IsValid(env, h) && Carries(h, perm) && Selects(env, h, o.model, o);
      if !IsRootScope(h.a) {
        var n := Follow(env.host, o, env.anchors[o.model]).value;
        var t: nat :| IsTarget(env, o.model, t) && ClimbFinds(env, h.a, t, n);
        TargetIsAnchorsLevel(env, o, t);
        ClimbIsAncestry(env, h.a, t, n);
      }
      assert Covers(env, h, ResolveAnchor(env, o));
    }
  }

  /** A target level has the model of the node the anchor ends on. */
  lemma TargetIsAnchorsLevel(env: Env, o: Obj, t: nat)
    requires Typed(env.host) && !IsNodeModel(env.levels, o.model) && ResolveAnchor(env, o).AtNode?
    requires IsTarget(env, o.model, t)
    ensures env.levels[t].model == Some(ResolveAnchor(env, o).node.model)
  {
    FollowLands(env.host, o, env.anchors[o.model]);
  }

  // ---- Rank arithmetic against heights ----------------------------------------------------------------

  /** The assignment's scope sits exactly as far above `n` as rank `t` is below the assignment's rank. */
  ghost predicate ReachesByRank(env: Env, a: Assignment, t: nat, n: Obj) {
    && a.level.Some? && ScopeOf(env, a).Some?
    && var rank := Rank(env.levels, a.level.value);
       rank.Some? && rank.value <= t && AncestorAt(env, n, t - rank.value) == ScopeOf(env, a)
  }

  /** Over aligned accessors, comparing the key at the end of the climb finds the assignment's scope at the
      rank distance and nothing else: a row of another model with an equal key is ruled out. */
  lemma ClimbFindsScope(env: Env, a: Assignment, t: nat, n: Obj)
    requires WellFormed(env)
    requires ScopeIsValid(env, a) && !IsRootScope(a)
    requires t < |env.levels| && env.levels[t].model == Some(n.model)
    ensures ClimbFinds(env, a, t, n) <==> ReachesByRank(env, a, t, n)
  {
    ValidRank(env, a);
    var rank := Rank(env.levels, a.level.value).value;
    if rank <= t {
      ClimbIsWalk(env, n, t, rank);
    }
  }

  // ---- Completeness: heights that match ranks -------------------------------------------------------

  lemma AncestryIsRankReach(env: Env, a: Assignment, n: Obj) returns (d: nat)
    requires Accepted(env.levels)
    requires !IsRootScope(a) && ScopeIsValid(env, a) && ScopeReaches(env, a, n)
    ensures a.level.Some? && Rank(env.levels, a.level.value).Some? && ScopeOf(env, a).Some?
    ensures AncestorAt(env, n, d) == ScopeOf(env, a)
    ensures ReachesByRank(env, a, Rank(env.levels, a.level.value).value + d, n)
    ensures var i := Rank(env.levels, a.level.value).value; InLevel(env.host, env.levels[i], ScopeOf(env, a).value)
  {
    ValidRank(env, a);
    ReachesScope(env, a, n);
    d :| AncestorAt(env, n, d) == ScopeOf(env, a);
  }

  /** Where heights match ranks, the filter climbs to every covering scope. */
  lemma CoveringScopeIsFound(env: Env, a: Assignment, n: Obj) returns (t: nat)
    requires WellFormed(env) && HeightsMatchRanks(env, n)
    requires !IsRootScope(a) && ScopeIsValid(env, a) && ScopeReaches(env, a, n)
    ensures t < |env.levels| && env.levels[t].model == Some(n.model) && ClimbFinds(env, a, t, n)
  {
    var d := AncestryIsRankReach(env, a, n);
    var i := Rank(env.levels, a.level.value).value;
    assert InLevel(env.host, env.levels[i], ScopeOf(env, a).value);
    t := i + d;
    ClimbFindsScope(env, a, t, n);
  }

  lemma CoveredIsSelected(env: Env, h: Held, o: Obj)
    requires Configured(env) && !IsNodeModel(env.levels, o.model)
    requires o.model in env.anchors && o.model !in env.globals
    requires Covers(env, h, ResolveAnchor(env, o))
    requires ResolveAnchor(env, o).AtNode? ==> HeightsMatchRanks(env, ResolveAnchor(env, o).node)
    ensures Selects(env, h, o.model, o)
  {
    if !IsRootScope(h.a) {
      var t := CoveringScopeIsFound(env, h.a, ResolveAnchor(env, o).node);
      FollowLands(env.host, o, env.anchors[o.model]);
      assert IsTarget(env, o.model, t);
    }
  }

  /** Where heights match ranks, the filter keeps exactly the objects the decision allows: registered,
      global and unregistered models alike, null anchors and superusers included. */
  lemma FilterIsDecision(env: Env, user: User, rows: set<Held>, perm: Option<Permission>, o: Obj)
    requires Configured(env) && !IsNodeModel(env.levels, o.model)
    requires ResolveAnchor(env, o).AtNode? ==> HeightsMatchRanks(env, ResolveAnchor(env, o).node)
    ensures FilterKeeps(env, user, rows, o.model, perm, o) <==> Decides(env, user, rows, perm, o)
  {
    if FilterKeeps(env, user, rows, o.model, perm, o) {
      AlignedClimbsAreWalks(env);
      FilterIsSound(env, user, rows, perm, o);
    }
    var anchor := ResolveAnchor(env, o);
    if Decides(env, user, rows, perm, o) && !user.superuser && (perm.Some? || !anchor.Global?) {
      var h :| h in rows && Carries(h, perm) && Covers(env, h, anchor);
      if o.model in env.anchors && o.model !in env.globals {
        CoveredIsSelected(env, h, o);
      }
    }
  }

  lemma CoveredIsReached(env: Env, h: Held, t: nat, n: Obj)
    requires WellFormed(env) && HeightsMatchRank(env, t, n)
    requires t < |env.levels| && env.levels[t].model == Some(n.model)
    requires Covers(env, h, AtNode(n))
    ensures IsValid(env, h) && (IsRootScope(h.a) || ClimbFinds(env, h.a, t, n))
  {
    if !IsRootScope(h.a) {
      var d := AncestryIsRankReach(env, h.a, n);
      assert InLevel(env.host, env.levels[Rank(env.levels, h.a.level.value).value], ScopeOf(env, h.a).value);
      ClimbFindsScope(env, h.a, t, n);
    }
  }

  /** `accessible_nodes` is exactly the allowed nodes of the level, where heights match its rank. */
  lemma AccessibleIsDecision(env: Env, user: User, rows: set<Held>, t: nat, perm: Option<Permission>, n: Obj)
    requires WellFormed(env)
    requires t < |env.levels| && InLevel(env.host, env.levels[t], n) && HeightsMatchRank(env, t, n)
    ensures LevelKeeps(env, user, rows, t, perm, n) <==> Decides(env, user, rows, perm, n)
  {
    if LevelKeeps(env, user, rows, t, perm, n) {
      AlignedClimbsAreWalks(env);
      AccessibleIsAllowed(env, user, rows, t, perm, n);
    }
    assert ResolveAnchor(env, n) == AtNode(n);
    if Decides(env, user, rows, perm, n) && !user.superuser {
      var h :| h in rows && Carries(h, perm) && Covers(env, h, AtNode(n));
      CoveredIsReached(env, h, t, n);
    }
  }

  // ---- Exactness ------------------------------------------------------------------------------------

  /** An active user with a single system-role assignment on a level node. */
  function LoneUser(): User { User(0, true, false) }

  function LoneGrant(env: Env, i: nat, m: Obj, p: Permission): Held
    requires i < |env.levels|
  {
    Held(
      Assignment(0, 0, 0, Some(env.levels[i].name), Some(m.model), Some(m.pk), ACTIVE, None, None, 0, None, None, ""),
      Role(0, "viewer", "", None, None, None, {p}))
  }

  lemma LoneGrantIsValid(env: Env, i: nat, m: Obj, p: Permission)
    requires Accepted(env.levels) && i < |env.levels| && InLevel(env.host, env.levels[i], m)
    ensures IsValid(env, LoneGrant(env, i, m, p))
    ensures ScopeOf(env, LoneGrant(env, i, m, p).a) == Some(m)
    ensures Rank(env.levels, env.levels[i].name) == Some(i)
  {
  }

  lemma LoneGrantCovers(env: Env, i: nat, m: Obj, d: nat, n: Obj, p: Permission)
    requires Accepted(env.levels) && i < |env.levels| && InLevel(env.host, env.levels[i], m)
    requires AncestorAt(env, n, d) == Some(m)
    ensures Covers(env, LoneGrant(env, i, m, p), AtNode(n))
  {
    LoneGrantIsValid(env, i, m, p);
    assert IsAncestorOrSelf(env, m, n);
    assert SameNode(LoneGrant(env, i, m, p).a, m);
  }

  lemma LoneGrantDecides(env: Env, o: Obj, i: nat, m: Obj, d: nat, p: Permission)
    requires Accepted(env.levels) && i < |env.levels| && InLevel(env.host, env.levels[i], m)
    requires ResolveAnchor(env, o).AtNode? && AncestorAt(env, ResolveAnchor(env, o).node, d) == Some(m)
    ensures Decides(env, LoneUser(), {LoneGrant(env, i, m, p)}, Some(p), o)
  {
    LoneGrantCovers(env, i, m, d, ResolveAnchor(env, o).node, p);
    assert LoneGrant(env, i, m, p) in {LoneGrant(env, i, m, p)};
  }

  /** If the filter keeps the object for a lone grant on `m`, the filter climbs to `m`. */
  lemma LoneGrantSelects(env: Env, o: Obj, i: nat, m: Obj, p: Permission) returns (t: nat)
    requires Configured(env) && !IsNodeModel(env.levels, o.model) && ResolveAnchor(env, o).AtNode?
    requires i < |env.levels| && InLevel(env.host, env.levels[i], m)
    requires FilterKeeps(env, LoneUser(), {LoneGrant(env, i, m, p)}, o.model, Some(p), o)
    ensures t < |env.levels| && env.levels[t].model == Some(ResolveAnchor(env, o).node.model)
    ensures IsTarget(env, o.model, t) && i <= t && AncestorAt(env, ResolveAnchor(env, o).node, t - i) == Some(m)
  {
    var h := LoneGrant(env, i, m, p);
    LoneGrantIsValid(env, i, m, p);
    assert Selects(env, h, o.model, o);
    var n := ResolveAnchor(env, o).node;
    t :| IsTarget(env, o.model, t) && ClimbFinds(env, h.a, t, n);
    TargetIsAnchorsLevel(env, o, t);
    ClimbFindsScope(env, h.a, t, n);
  }

  /** Found by the climb and by the walk, `m` is at the height the ranks say. */
  lemma HeightIsRankDistance(env: Env, n: Obj, m: Obj, d: nat, i: nat, t: nat)
    requires Forest(env) && i <= t
    requires AncestorAt(env, n, d) == Some(m) && AncestorAt(env, n, t - i) == Some(m)
    ensures i + d == t
  {
    HeightIsUnique(env, n, d, t - i, m);
  }

  /** So it leaves the object out where no target rank is at that height. */
  lemma LoneGrantMisses(env: Env, o: Obj, i: nat, m: Obj, d: nat, p: Permission)
    requires Configured(env) && !IsNodeModel(env.levels, o.model) && ResolveAnchor(env, o).AtNode?
    requires i < |env.levels| && InLevel(env.host, env.levels[i], m)
    requires AncestorAt(env, ResolveAnchor(env, o).node, d) == Some(m)
    requires forall t: nat :: IsTarget(env, o.model, t) ==> t != i + d
    ensures !FilterKeeps(env, LoneUser(), {LoneGrant(env, i, m, p)}, o.model, Some(p), o)
  {
    if FilterKeeps(env, LoneUser(), {LoneGrant(env, i, m, p)}, o.model, Some(p), o) {
      var t := LoneGrantSelects(env, o, i, m, p);
      HeightIsRankDistance(env, ResolveAnchor(env, o).node, m, d, i, t);
      assert false;
    }
  }

  /** If filter and decision agree on an anchored object for every user, its heights match the ranks. */
  lemma AgreementForcesHeights(env: Env, o: Obj, p: Permission)
    requires Configured(env) && !IsNodeModel(env.levels, o.model) && ResolveAnchor(env, o).AtNode?
    requires forall user: User, rows: set<Held> ::
               FilterKeeps(env, user, rows, o.model, Some(p), o) <==> Decides(env, user, rows, Some(p), o)
    ensures HeightsMatchRanks(env, ResolveAnchor(env, o).node)
  {
    var n := ResolveAnchor(env, o).node;
    forall d: nat, m: Obj, i: nat |
      AncestorAt(env, n, d) == Some(m) && i < |env.levels| && InLevel(env.host, env.levels[i], m)
      ensures i + d < |env.levels| && env.levels[i + d].model == Some(n.model)
    {
      LoneGrantDecides(env, o, i, m, d, p);
      var t := LoneGrantSelects(env, o, i, m, p);
      HeightIsRankDistance(env, n, m, d, i, t);
    }
  }

  /** The exact condition, for every configuration and object: filter and decision agree for all users
      if and only if every level node above the anchor is as many steps up as the ranks say. */
  lemma FilterAgreesExactlyWhenHeightsMatch(env: Env, o: Obj, p: Permission)
    requires Configured(env) && !IsNodeModel(env.levels, o.model) && ResolveAnchor(env, o).AtNode?
    ensures (forall user: User, rows: set<Held> ::
               FilterKeeps(env, user, rows, o.model, Some(p), o) <==> Decides(env, user, rows, Some(p), o))
            <==> HeightsMatchRanks(env, ResolveAnchor(env, o).node)
  {
    if HeightsMatchRanks(env, ResolveAnchor(env, o).node) {
      forall user: User, rows: set<Held>
        ensures FilterKeeps(env, user, rows, o.model, Some(p), o) <==> Decides(env, user, rows, Some(p), o)
      {
        FilterIsDecision(env, user, rows, Some(p), o);
      }
    }
    if forall user: User, rows: set<Held> ::
         FilterKeeps(env, user, rows, o.model, Some(p), o) <==> Decides(env, user, rows, Some(p), o) {
      AgreementForcesHeights(env, o, p);
    }
  }

  lemma LoneGrantClimbs(env: Env, t: nat, n: Obj, i: nat, m: Obj, p: Permission)
    requires Configured(env) && t < |env.levels| && env.levels[t].model == Some(n.model)
    requires i < |env.levels| && InLevel(env.host, env.levels[i], m)
    requires LevelKeeps(env, LoneUser(), {LoneGrant(env, i, m, p)}, t, Some(p), n)
    ensures i <= t && AncestorAt(env, n, t - i) == Some(m)
  {
    var h := LoneGrant(env, i, m, p);
    LoneGrantIsValid(env, i, m, p);
    assert !LoneUser().superuser && !IsRootScope(h.a);
    ClimbFindsScope(env, h.a, t, n);
  }

  lemma AgreementForcesHeight(env: Env, t: nat, n: Obj, p: Permission)
    requires Configured(env) && t < |env.levels| && InLevel(env.host, env.levels[t], n)
    requires forall user: User, rows: set<Held> ::
               LevelKeeps(env, user, rows, t, Some(p), n) <==> Decides(env, user, rows, Some(p), n)
    ensures HeightsMatchRank(env, t, n)
  {
    assert ResolveAnchor(env, n) == AtNode(n);
    forall d: nat, m: Obj, i: nat |
      AncestorAt(env, n, d) == Some(m) && i < |env.levels| && InLevel(env.host, env.levels[i], m)
      ensures i + d == t
    {
      LoneGrantDecides(env, n, i, m, d, p);
      LoneGrantClimbs(env, t, n, i, m, p);
      HeightIsRankDistance(env, n, m, d, i, t);
    }
  }

  /** The exact condition for `accessible_nodes`: it lists the allowed nodes of a level for all users if
      and only if each of their level ancestors is as many steps up as the ranks say. */
  lemma AccessibleAgreesExactlyWhenHeightsMatch(env: Env, t: nat, n: Obj, p: Permission)
    requires Configured(env) && t < |env.levels| && InLevel(env.host, env.levels[t], n)
    ensures (forall user: User, rows: set<Held> ::
               LevelKeeps(env, user, rows, t, Some(p), n) <==> Decides(env, user, rows, Some(p), n))
            <==> HeightsMatchRank(env, t, n)
  {
    if HeightsMatchRank(env, t, n) {
      forall user: User, rows: set<Held>
        ensures LevelKeeps(env, user, rows, t, Some(p), n) <==> Decides(env, user, rows, Some(p), n)
      {
        AccessibleIsDecision(env, user, rows, t, Some(p), n);
      }
    }
    if forall user: User, rows: set<Held> ::
         LevelKeeps(env, user, rows, t, Some(p), n) <==> Decides(env, user, rows, Some(p), n) {
      AgreementForcesHeight(env, t, n, p);
    }
  }

  // ---- The documented world -------------------------------------------------------------------------

  /** Every node plays one level, and its parent is a node of the previous modeled level. */
  ghost predicate Layered(env: Env) {
    && (forall n: Obj, i: nat, j: nat ::
          i < |env.levels| && j < |env.levels| && InLevel(env.host, env.levels[i], n) && InLevel(env.host, env.levels[j], n)
          ==> i == j)
    && (forall n: Obj, i: nat ::
          i < |env.levels| && InLevel(env.host, env.levels[i], n) && ParentOf(env, n).Some? ==>
            i > 0 && InLevel(env.host, env.levels[i - 1], ParentOf(env, n).value))
  }

  lemma {:induction false} LayeredHeights(env: Env, n: Obj, t: nat, d: nat)
    requires Layered(env) && t < |env.levels| && InLevel(env.host, env.levels[t], n)
    ensures AncestorAt(env, n, d).Some? ==>
              d <= t && InLevel(env.host, env.levels[t - d], AncestorAt(env, n, d).value)
  {
    if d > 0 {
      LayeredHeights(env, n, t, d - 1);
    }
  }

  /** In a layered world the two sides agree outright: on resources anchored to level nodes, and on the
      nodes themselves, for which the filter is the union over the levels of the model. */
  lemma LayeredWorldAgrees(env: Env, user: User, rows: set<Held>, perm: Option<Permission>, o: Obj)
    requires Configured(env) && Layered(env)
    requires ResolveAnchor(env, o).AtNode? ==>
               exists t: nat :: t < |env.levels| && InLevel(env.host, env.levels[t], ResolveAnchor(env, o).node)
    ensures FilterKeeps(env, user, rows, o.model, perm, o) <==> Decides(env, user, rows, perm, o)
  {
    if ResolveAnchor(env, o).AtNode? {
      var n := ResolveAnchor(env, o).node;
      var t: nat :| t < |env.levels| && InLevel(env.host, env.levels[t], n);
      forall d: nat, m: Obj, i: nat |
        AncestorAt(env, n, d) == Some(m) && i < |env.levels| && InLevel(env.host, env.levels[i], m)
        ensures i + d == t
      {
        LayeredHeights(env, n, t, d);
      }
      assert HeightsMatchRank(env, t, n);
      if IsNodeModel(env.levels, o.model) {
        AccessibleIsDecision(env, user, rows, t, perm, n);
      } else {
        assert HeightsMatchRanks(env, n);
        FilterIsDecision(env, user, rows, perm, o);
      }
    } else {
      FilterIsDecision(env, user, rows, perm, o);
    }
  }
}
