/** Collection filtering: the relational side of the engine, built by rank arithmetic. */
module Filters {
  import opened Wrappers
  import opened HostModel
  import opened Hierarchy
  import opened Ancestry
  import opened Engine
  import Decisions

  /** Query expressions. `PathPk([], pk)` compares the row's own key; `PkIn` is membership in
      the keys of a level's filtered rows. */
  datatype Q =
    | Nothing
    | Everything
    | PathPk(path: Hops, pk: string)
    | Or(left: Q, right: Q)
    | And(left: Q, right: Q)
    | PkIn(level: Level, inner: Q)

  /** What the database answers: joins follow non-null relations, keys compare as values. */
  predicate Matches(h: Host, q: Q, o: Obj) {
    match q
    case Nothing => false
    case Everything => true
    case PathPk(path, pk) => Follow(h, o, path).Some? && Follow(h, o, path).value.pk == pk
    case Or(left, right) => Matches(h, left, o) || Matches(h, right, o)
    case And(left, right) => Matches(h, left, o) && Matches(h, right, o)
    case PkIn(level, inner) =>
      exists n :: n in h.rows && InLevel(h, level, n) && n.pk == o.pk && Matches(h, inner, n)
  }

  /** Every registered anchor is a valid relation path. */
  ghost predicate AnchorsLand(env: Env) {
    forall m :: m in env.anchors ==> Walk(env.host, m, env.anchors[m]).Some?
  }

  /** What the query builders need: defined climbs, anchors that are relation paths, walks that end. */
  ghost predicate Queryable(env: Env) {
    Accepted(env.levels) && Forest(env) && AnchorsLand(env)
  }

  ghost predicate Configured(env: Env) {
    WellFormed(env) && Forest(env) && AnchorsLand(env)
  }

  predicate Carries(h: Held, perm: Option<Permission>) {
    perm.None? || perm.value in h.role.perms
  }

  // ---- What the filters select ----------------------------------------------------------------

  /** The comparison the filters build for a node of the level at rank `t`: the key at the end of the joined
      accessors, from rank `t` up to the assignment's rank, is the key the assignment stores. */
  predicate ClimbFinds(env: Env, a: Assignment, t: nat, n: Obj) {
    && t < |env.levels| && a.level.Some? && a.scopeId.Some?
    && var rank := Rank(env.levels, a.level.value);
       && rank.Some? && rank.value <= t
       && UpPath(env.levels, t, rank.value).Some?
       && Matches(env.host, PathPk(UpPath(env.levels, t, rank.value).value, a.scopeId.value), n)
  }

  /** `accessible_nodes` keeps the node `n` of the level at rank `t`. */
  ghost predicate LevelKeeps(env: Env, user: User, rows: set<Held>, t: nat, perm: Option<Permission>, n: Obj) {
    && user.active
    && (user.superuser || exists h ::
          h in rows && IsValid(env, h) && Carries(h, perm) && (IsRootScope(h.a) || ClimbFinds(env, h.a, t, n)))
  }

  predicate IsTarget(env: Env, model: Model, t: nat)
    requires model in env.anchors
  {
    t < |env.levels| && env.levels[t].model.Some? && env.levels[t].model == Walk(env.host, model, env.anchors[model])
  }

  /** One assignment's contribution to the filter of an anchored model. */
  ghost predicate Selects(env: Env, h: Held, model: Model, o: Obj)
    requires model in env.anchors
  {
    IsRootScope(h.a) ||
    var n := Follow(env.host, o, env.anchors[model]);
    n.Some? && exists t: nat :: IsTarget(env, model, t) && ClimbFinds(env, h.a, t, n.value)
  }

  /** `scope_filter_q` keeps the object `o` of `model`. */
  ghost predicate FilterKeeps(env: Env, user: User, rows: set<Held>, model: Model, perm: Option<Permission>, o: Obj) {
    && user.active
    && if IsNodeModel(env.levels, model) then SomeLevelKeeps(env, user, rows, |env.levels|, perm, o)
       else if user.superuser then true
       else if model in env.anchors && model !in env.globals then
         exists h :: h in rows && IsValid(env, h) && Carries(h, perm) && Selects(env, h, model, o)
       else
         && (model in env.globals || !env.strict)
         && (perm.Some? ==> exists h :: h in rows && IsValid(env, h) && Carries(h, perm))
  }

  // ---- The query builders -----------------------------------------------------------------------

  /** The rank of a valid node assignment is that of its scope's level. */
  lemma ValidRank(env: Env, a: Assignment)
    requires Accepted(env.levels)
    requires ScopeIsValid(env, a) && !IsRootScope(a)
    ensures a.level.Some? && ScopeOf(env, a).Some? && Rank(env.levels, a.level.value).Some?
    ensures var rank := Rank(env.levels, a.level.value).value;
            FirstModeled(env.levels) <= rank && InLevel(env.host, env.levels[rank], ScopeOf(env, a).value)
  {
  }

  /** One node assignment's comparison; a deeper one contributes nothing. */
  method NodeAlternative(env: Env, h: Held, target: nat) returns (q: Q)
    requires Accepted(env.levels) && target < |env.levels|
    requires IsValid(env, h) && !IsRootScope(h.a)
    ensures forall n: Obj :: Matches(env.host, q, n) <==> ClimbFinds(env, h.a, target, n)
  {
    ValidRank(env, h.a);
    var rank := Rank(env.levels, h.a.level.value).value;
    if rank > target {
      return Nothing;
    }
    UpPathTotal(env.levels, target, rank);
    var up := ClimbPath(env.levels, target, rank);
    return PathPk(up, h.a.scopeId.value);
  }

  /** `accessible_nodes`: the filter to put on the level's rows; None is the error on a name that
      is no modeled level. */
  method AccessibleNodes(env: Env, user: User, rows: set<Held>, levelName: string, perm: Option<Permission>)
    returns (r: Option<Q>)
    requires Accepted(env.levels) && Forest(env)
    ensures r.Some? <==> Rank(env.levels, levelName).Some? && !IsRoot(env.levels[Rank(env.levels, levelName).value])
    ensures r.Some? ==>
              var t := Rank(env.levels, levelName).value;
              forall n: Obj :: InLevel(env.host, env.levels[t], n) ==>
                (Matches(env.host, r.value, n) <==> LevelKeeps(env, user, rows, t, perm, n))
  {
    var rank := Rank(env.levels, levelName);
    if rank.None? || IsRoot(env.levels[rank.value]) {
      return None;
    }
    var target := rank.value;
    if !user.active {
      return Some(Nothing);
    }
    if user.superuser {
      return Some(Everything);
    }
    var q := Nothing;
    var todo := rows;
    while todo != {}
      invariant todo <= rows
      invariant forall n: Obj :: InLevel(env.host, env.levels[target], n) ==>
        (Matches(env.host, q, n) <==> LevelKeeps(env, user, rows - todo, target, perm, n))
      decreases todo
    {
      var h :| h in todo;
      ghost var seen := rows - todo;
      todo := todo - {h};
      assert rows - todo == seen + {h};
      var valid := Decisions.AssignmentIsValid(env, h);
      if valid && Carries(h, perm) {
        if IsRootScope(h.a) {
          assert h in rows;
          return Some(Everything);
        }
        var alternative := NodeAlternative(env, h, target);
        q := Or(q, alternative);
      }
    }
    assert rows - todo == rows;
    return Some(q);
  }

  /** Some level of the object's model below rank `i` keeps it. */
  ghost predicate SomeLevelKeeps(env: Env, user: User, rows: set<Held>, i: nat, perm: Option<Permission>, o: Obj) {
    exists t: nat :: t < i && t < |env.levels| && InLevel(env.host, env.levels[t], o) && LevelKeeps(env, user, rows, t, perm, o)
  }

  /** Within one model, membership among a level's keys is membership in the level. */
  lemma KeysIdentifyRows(h: Host, lvl: Level, inner: Q, o: Obj)
    requires lvl.model == Some(o.model)
    ensures Matches(h, PkIn(lvl, inner), o) <==> InLevel(h, lvl, o) && Matches(h, inner, o)
  {
  }

  /** `_hierarchy_node_filter_q`: the union over every level of the model. */
  method NodeFilter(env: Env, user: User, rows: set<Held>, model: Model, perm: Option<Permission>) returns (q: Q)
    requires Accepted(env.levels) && Forest(env)
    requires IsNodeModel(env.levels, model) && user.active
    ensures forall o: Obj :: o.model == model ==>
              (Matches(env.host, q, o) <==> FilterKeeps(env, user, rows, model, perm, o))
  {
    q := Nothing;
    for i := 0 to |env.levels|
      invariant forall o: Obj :: o.model == model ==>
        (Matches(env.host, q, o) <==> SomeLevelKeeps(env, user, rows, i, perm, o))
    {
      if env.levels[i].model == Some(model) {
        RankIsPosition(env.levels, env.levels[i].name, i);
        var nodes := AccessibleNodes(env, user, rows, env.levels[i].name, perm);
        q := Or(q, PkIn(env.levels[i], nodes.value));
        forall o: Obj | o.model == model
          ensures Matches(env.host, q, o) <==> SomeLevelKeeps(env, user, rows, i + 1, perm, o)
        {
          KeysIdentifyRows(env.host, env.levels[i], nodes.value, o);
          OneMoreLevel(env, user, rows, i, perm, o);
        }
      } else {
        forall o: Obj | o.model == model
          ensures Matches(env.host, q, o) <==> SomeLevelKeeps(env, user, rows, i + 1, perm, o)
        {
          OneMoreLevel(env, user, rows, i, perm, o);
        }
      }
    }
  }

  lemma OneMoreLevel(env: Env, user: User, rows: set<Held>, i: nat, perm: Option<Permission>, o: Obj)
    requires i < |env.levels|
    ensures SomeLevelKeeps(env, user, rows, i + 1, perm, o) <==>
            SomeLevelKeeps(env, user, rows, i, perm, o)
            || (InLevel(env.host, env.levels[i], o) && LevelKeeps(env, user, rows, i, perm, o))
  {
  }

  /** Following anchor and climb as one path is climbing from the anchor node. */
  lemma AnchoredClimb(env: Env, h: Held, model: Model, t: nat, o: Obj)
    requires Accepted(env.levels) && model in env.anchors && IsTarget(env, model, t)
    requires IsValid(env, h) && !IsRootScope(h.a)
    requires h.a.level.Some? && Rank(env.levels, h.a.level.value).Some? && Rank(env.levels, h.a.level.value).value <= t
    ensures UpPath(env.levels, t, Rank(env.levels, h.a.level.value).value).Some?
    ensures var up := UpPath(env.levels, t, Rank(env.levels, h.a.level.value).value).value;
            var n := Follow(env.host, o, env.anchors[model]);
            Matches(env.host, PathPk(env.anchors[model] + up, h.a.scopeId.value), o) <==>
            n.Some? && ClimbFinds(env, h.a, t, n.value)
  {
    ValidRank(env, h.a);
    var rank := Rank(env.levels, h.a.level.value).value;
    UpPathTotal(env.levels, t, rank);
    FollowJoined(env.host, o, env.anchors[model], UpPath(env.levels, t, rank).value);
  }

  /** The inner loop of `scope_filter_q`: one comparison for each possible level of the anchor. */
  method AnchoredAlternatives(env: Env, h: Held, model: Model) returns (q: Q)
    requires Queryable(env) && model in env.anchors
    requires IsValid(env, h) && !IsRootScope(h.a)
    ensures forall o: Obj :: o.model == model ==>
              (Matches(env.host, q, o) <==> Selects(env, h, model, o))
  {
    ValidRank(env, h.a);
    var anchor := env.anchors[model];
    var aRank := Rank(env.levels, h.a.level.value).value;
    q := Nothing;
    for t := 0 to |env.levels|
      invariant forall o: Obj :: o.model == model ==>
        (Matches(env.host, q, o) <==>
           && Follow(env.host, o, anchor).Some?
           && exists j: nat :: j < t && IsTarget(env, model, j)
                && ClimbFinds(env, h.a, j, Follow(env.host, o, anchor).value))
    {
      if IsTarget(env, model, t) && aRank <= t {
        UpPathTotal(env.levels, t, aRank);
        var up := ClimbPath(env.levels, t, aRank);
        forall o: Obj | o.model == model
          ensures Matches(env.host, PathPk(anchor + up, h.a.scopeId.value), o) <==>
                  (Follow(env.host, o, anchor).Some? && ClimbFinds(env, h.a, t, Follow(env.host, o, anchor).value))
        {
          AnchoredClimb(env, h, model, t, o);
        }
        q := Or(q, PathPk(anchor + up, h.a.scopeId.value));
      }
    }
  }

  /** The part of `scope_filter_q` that loops over assignments. */
  method AnchoredFilter(env: Env, user: User, rows: set<Held>, model: Model, perm: Option<Permission>) returns (q: Q)
    requires Queryable(env) && model in env.anchors
    ensures forall o: Obj :: o.model == model ==>
              (Matches(env.host, q, o) <==>
                 exists h :: h in rows && IsValid(env, h) && Carries(h, perm) && Selects(env, h, model, o))
  {
    q := Nothing;
    var todo := rows;
    while todo != {}
      invariant todo <= rows
      invariant forall o: Obj :: o.model == model ==>
        (Matches(env.host, q, o) <==>
           exists h :: h in rows - todo && IsValid(env, h) && Carries(h, perm) && Selects(env, h, model, o))
      decreases todo
    {
      var h :| h in todo;
      ghost var seen := rows - todo;
      todo := todo - {h};
      assert rows - todo == seen + {h};
      var valid := Decisions.AssignmentIsValid(env, h);
      if valid && Carries(h, perm) {
        if IsRootScope(h.a) {
          assert h in rows && forall o: Obj :: Selects(env, h, model, o);
          return Everything;
        }
        var alternatives := AnchoredAlternatives(env, h, model);
        q := Or(q, alternatives);
      }
    }
    assert rows - todo == rows;
  }

  /** `scope_filter_q` */
  method ScopeFilter(env: Env, user: User, rows: set<Held>, model: Model, perm: Option<Permission>) returns (q: Q)
    requires Queryable(env)
    ensures forall o: Obj :: o.model == model ==>
              (Matches(env.host, q, o) <==> FilterKeeps(env, user, rows, model, perm, o))
  {
    if !user.active {
      return Nothing;
    }
    if IsNodeModel(env.levels, model) {
      q := NodeFilter(env, user, rows, model, perm);
      return;
    }
    if user.superuser {
      return Everything;
    }
    if model in env.globals || model !in env.anchors {
      if model !in env.globals && env.strict {
        return Nothing;
      }
      if perm.None? {
        return Everything;
      }
      var held := Decisions.UserPermissions(env, user, rows, None);
      assert user.(superuser := false) == user;
      assert perm.value in held <==> exists h :: h in rows && IsValid(env, h) && Carries(h, perm);
      return if perm.value in held then Everything else Nothing;
    }
    q := AnchoredFilter(env, user, rows, model, perm);
  }
}
