/** When the filters are safe, exactly. They compare bare keys at the end of joined accessors, and the startup
    checks do not look at where an accessor lands; so safety is a condition on levels and declared relations,
    and without it some host has an object that the filter lists and the decision refuses. */
module AccessorSafety {
  import opened Wrappers
  import opened HostModel
  import opened Hierarchy
  import opened Ancestry
  import opened Engine
  import opened Filters
  import opened FilterAgreement
  import Checks

  /** Another host over the same declared relations. */
  ghost predicate Populates(env: Env, host: Host) {
    host.relations == env.host.relations && Typed(host) && Forest(env.(host := host))
  }

  /** Whatever rows the host has, the filter keeps only what the decision allows. */
  ghost predicate SafeForEveryHost(env: Env) {
    forall host: Host, user: User, rows: set<Held>, perm: Option<Permission>, o: Obj ::
      Populates(env, host) && FilterKeeps(env.(host := host), user, rows, o.model, perm, o) ==>
        Decides(env.(host := host), user, rows, perm, o)
  }

  // ---- The condition depends on relations only ------------------------------------------------------

  lemma {:induction false} SameRelationsSameWalk(a: Host, b: Host, m: Model, path: Hops)
    requires a.relations == b.relations
    ensures Walk(a, m, path) == Walk(b, m, path)
    decreases |path|
  {
    if path != [] && (m, path[0]) in a.relations {
      SameRelationsSameWalk(a, b, a.relations[(m, path[0])], path[1..]);
    }
  }

  lemma {:induction false} SameRelationsSameSteps(env: Env, host: Host, m: Model, path: Hops)
    requires host.relations == env.host.relations
    ensures ParentSteps(env.(host := host), m, path) <==> ParentSteps(env, m, path)
    decreases |path|
  {
    var step := ParentAccessor(env.levels, m);
    if path != [] && step.Some? && step.value <= path {
      SameRelationsSameWalk(env.host, host, m, step.value);
      if Walk(host, m, step.value).Some? {
        SameRelationsSameSteps(env, host, Walk(host, m, step.value).value, path[|step.value|..]);
      }
    }
  }

  lemma SameRelationsSameClimbs(env: Env, host: Host)
    requires host.relations == env.host.relations && ClimbsAreWalks(env)
    ensures ClimbsAreWalks(env.(host := host))
  {
    forall i: nat | FirstModeled(env.levels) < i < |env.levels|
      ensures StepsToPrevious(env.(host := host), i)
    {
      assert StepsToPrevious(env, i);
      SameRelationsSameSteps(env, host, env.levels[i].model.value, env.levels[i].parent.value);
      SameRelationsSameWalk(env.host, host, env.levels[i].model.value, env.levels[i].parent.value);
    }
  }

  // ---- A host that shows an unsafe accessor ---------------------------------------------------------

  function Key(j: nat): (key: string)
    ensures |key| == j + 1
  {
    seq(j + 1, _ => 'x')
  }

  /** The `j`-th object along the accessor: of the model the accessor has reached there, with its own key. */
  function Along(h: Host, m: Model, path: Hops, j: nat): Obj
    requires j <= |path| && Walk(h, m, path[..j]).Some?
  {
    Obj(Walk(h, m, path[..j]).value, Key(j))
  }

  lemma PrefixWalks(h: Host, m: Model, path: Hops, j: nat)
    requires Walk(h, m, path).Some? && j <= |path|
    ensures Walk(h, m, path[..j]).Some?
    ensures Walk(h, Walk(h, m, path[..j]).value, path[j..]) == Walk(h, m, path)
  {
    assert path == path[..j] + path[j..];
    WalkJoined(h, m, path[..j], path[j..]);
  }

  /** A row for a level, with the columns its discriminator asks for. */
  function ColumnsFor(lvl: Level, o: Obj): map<(Obj, Field), string> {
    map k | k in set f | f in lvl.discriminator :: (o, f) :: lvl.discriminator[k.1]
  }

  function ChainKeys(h: Host, m: Model, path: Hops): set<(Obj, Field)>
    requires Walk(h, m, path).Some?
  {
    set j | 0 <= j < |path| :: (PrefixWalks(h, m, path, j); (Along(h, m, path, j), path[j]))
  }

  /** A level past the first modeled one with a valid accessor: the level above is modeled as well. */
  predicate Climbs(env: Env, i: nat) {
    && 0 < i < |env.levels| && env.levels[i].model.Some? && env.levels[i - 1].model.Some? && env.levels[i].parent.Some?
    && Walk(env.host, env.levels[i].model.value, env.levels[i].parent.value).Some?
  }

  /** One object for each hop of the accessor of the level at rank `i`, each related to the next and to
      nothing else; and a node of the level above whose key is that of the last. */
  function Chain(env: Env, i: nat): Host
    requires Climbs(env, i)
  {
    var h, m, path := env.host, env.levels[i].model.value, env.levels[i].parent.value;
    Host(
      h.relations,
      map k | k in ChainKeys(h, m, path) :: (PrefixWalks(h, m, path, |k.0.pk|); Along(h, m, path, |k.0.pk|)),
      ColumnsFor(env.levels[i], Foot(env, i)) + ColumnsFor(env.levels[i - 1], Scope(env, i)),
      {Foot(env, i), Scope(env, i)})
  }

  function Foot(env: Env, i: nat): Obj
    requires Climbs(env, i)
  {
    Obj(env.levels[i].model.value, Key(0))
  }

  function Scope(env: Env, i: nat): Obj
    requires Climbs(env, i)
  {
    Obj(env.levels[i - 1].model.value, Key(|env.levels[i].parent.value|))
  }

  /** The object after `j` hops. */
  function Hop(env: Env, i: nat, j: nat): Obj
    requires Climbs(env, i) && j <= |env.levels[i].parent.value|
  {
    PrefixWalks(env.host, env.levels[i].model.value, env.levels[i].parent.value, j);
    Along(env.host, env.levels[i].model.value, env.levels[i].parent.value, j)
  }

  lemma ChainLinks(env: Env, i: nat, o: Obj, f: Field)
    requires Climbs(env, i)
    ensures var path := env.levels[i].parent.value;
            && ((o, f) in Chain(env, i).links <==> exists j: nat :: j < |path| && o == Hop(env, i, j) && f == path[j])
            && ((o, f) in Chain(env, i).links ==> |o.pk| <= |path| && Chain(env, i).links[(o, f)] == Hop(env, i, |o.pk|))
  {
    var path := env.levels[i].parent.value;
    if j: nat :| j < |path| && o == Hop(env, i, j) && f == path[j] {
      assert (o, f) in ChainKeys(env.host, env.levels[i].model.value, path);
    }
  }

  lemma ChainIsTyped(env: Env, i: nat)
    requires Climbs(env, i)
    ensures Typed(Chain(env, i))
  {
    var h, m, path := env.host, env.levels[i].model.value, env.levels[i].parent.value;
    forall o: Obj, f: Field | (o, f) in Chain(env, i).links
      ensures (o.model, f) in h.relations && Chain(env, i).links[(o, f)].model == h.relations[(o.model, f)]
    {
      ChainLinks(env, i, o, f);
      var j: nat :| j < |path| && o == Hop(env, i, j) && f == path[j];
      PrefixWalks(h, m, path, j);
      PrefixWalks(h, m, path, j + 1);
      WalkOneMore(h, m, path, j);
    }
  }

  /** From the `j`-th object a path leads on exactly as long as it is the rest of the accessor. */
  lemma {:induction false} ChainFollows(env: Env, i: nat, j: nat, q: Hops)
    requires Climbs(env, i) && j <= |env.levels[i].parent.value|
    ensures Follow(Chain(env, i), Hop(env, i, j), q) ==
            if q <= env.levels[i].parent.value[j..] then Some(Hop(env, i, j + |q|)) else None
    decreases |q|
  {
    var path := env.levels[i].parent.value;
    if q != [] {
      ChainLinks(env, i, Hop(env, i, j), q[0]);
      if j < |path| && q[0] == path[j] {
        ChainFollows(env, i, j + 1, q[1..]);
        assert path[j..][0] == path[j] && path[j..][1..] == path[j + 1..];
        assert q <= path[j..] <==> q[1..] <= path[j + 1..] by {
          assert q == [q[0]] + q[1..] && path[j..] == [path[j]] + path[j + 1..];
        }
      }
    }
  }

  /** Objects outside of the chain lead nowhere. */
  lemma OnlyChainLeads(env: Env, i: nat, o: Obj, q: Path)
    requires Climbs(env, i) && Follow(Chain(env, i), o, q).Some?
    ensures exists j: nat :: j < |env.levels[i].parent.value| && o == Hop(env, i, j)
  {
    ChainLinks(env, i, o, q[0]);
  }

  lemma ChainIsForest(env: Env, i: nat)
    requires Climbs(env, i)
    ensures Forest(env.(host := Chain(env, i)))
  {
    var chained, path := env.(host := Chain(env, i)), env.levels[i].parent.value;
    var rank := (o: Obj) => if |o.pk| <= |path| + 1 then |path| + 1 - |o.pk| else 0;
    forall o: Obj | ParentOf(chained, o).Some? ensures rank(ParentOf(chained, o).value) < rank(o) {
      var q := ParentAccessor(env.levels, o.model).value;
      OnlyChainLeads(env, i, o, q);
      var j: nat :| j < |path| && o == Hop(env, i, j);
      ChainFollows(env, i, j, q);
    }
    RankDecreasingIsForest(chained, rank);
  }

  lemma Slices(path: Hops, j: nat, q: Hops)
    requires j <= |path| && q <= path[j..]
    ensures path[..j + |q|] == path[..j] + q && path[j..][|q|..] == path[j + |q|..]
  {
    assert q == path[j..][..|q|];
  }

  lemma MiddleWalks(h: Host, m: Model, path: Hops, j: nat, q: Hops)
    requires j <= |path| && q <= path[j..] && Walk(h, m, path[..j]).Some?
    ensures Walk(h, Walk(h, m, path[..j]).value, q) == Walk(h, m, path[..j + |q|])
  {
    Slices(path, j, q);
    WalkJoined(h, m, path[..j], q);
  }

  lemma ChainParent(env: Env, i: nat, j: nat)
    requires Climbs(env, i) && j <= |env.levels[i].parent.value|
    ensures ParentOf(env.(host := Chain(env, i)), Hop(env, i, j)) ==
            match ParentAccessor(env.levels, Hop(env, i, j).model)
            case None => None
            case Some(q) => if q <= env.levels[i].parent.value[j..] then Some(Hop(env, i, j + |q|)) else None
  {
    var accessor := ParentAccessor(env.levels, Hop(env, i, j).model);
    if accessor.Some? {
      ChainFollows(env, i, j, accessor.value);
    }
  }

  lemma OneMoreParentStep(env: Env, i: nat, j: nat, q: Path)
    requires Climbs(env, i) && j <= |env.levels[i].parent.value|
    requires ParentAccessor(env.levels, Hop(env, i, j).model) == Some(q) && q <= env.levels[i].parent.value[j..]
    requires ParentSteps(env, Hop(env, i, j + |q|).model, env.levels[i].parent.value[j + |q|..])
    ensures ParentSteps(env, Hop(env, i, j).model, env.levels[i].parent.value[j..])
  {
    var m, path := env.levels[i].model.value, env.levels[i].parent.value;
    PrefixWalks(env.host, m, path, j);
    PrefixWalks(env.host, m, path, j + |q|);
    MiddleWalks(env.host, m, path, j, q);
    Slices(path, j, q);
  }

  /** An ancestor of an object of the chain is reached along the chain. */
  lemma ChainStepsUp(env: Env, i: nat, j: nat, d: nat) returns (q: Path)
    requires Climbs(env, i) && j <= |env.levels[i].parent.value| && d > 0
    requires AncestorAt(env.(host := Chain(env, i)), Hop(env, i, j), d).Some?
    ensures ParentAccessor(env.levels, Hop(env, i, j).model) == Some(q) && q <= env.levels[i].parent.value[j..]
    ensures AncestorAt(env.(host := Chain(env, i)), Hop(env, i, j), d)
              == AncestorAt(env.(host := Chain(env, i)), Hop(env, i, j + |q|), d - 1)
  {
    FirstStep(env.(host := Chain(env, i)), Hop(env, i, j), d);
    ChainParent(env, i, j);
    q := ParentAccessor(env.levels, Hop(env, i, j).model).value;
  }

  /** From the `j`-th object the rest of the accessor is parent steps, onto the node of the level above. */
  ghost predicate StepsOn(env: Env, i: nat, j: nat)
    requires Climbs(env, i)
  {
    && j <= |env.levels[i].parent.value|
    && Scope(env, i) == Hop(env, i, |env.levels[i].parent.value|)
    && ParentSteps(env, Hop(env, i, j).model, env.levels[i].parent.value[j..])
  }

  /** The node of the level above, `d` steps up from the `j`-th object. */
  ghost predicate ScopeAbove(env: Env, i: nat, j: nat, d: nat)
    requires Climbs(env, i)
  {
    j <= |env.levels[i].parent.value| && AncestorAt(env.(host := Chain(env, i)), Hop(env, i, j), d) == Some(Scope(env, i))
  }

  lemma StepUp(env: Env, i: nat, j: nat, d: nat) returns (next: nat)
    requires Climbs(env, i) && ScopeAbove(env, i, j, d) && d > 0
    ensures ScopeAbove(env, i, next, d - 1) && (StepsOn(env, i, next) ==> StepsOn(env, i, j))
  {
    var q := ChainStepsUp(env, i, j, d);
    next := j + |q|;
    if StepsOn(env, i, next) {
      OneMoreParentStep(env, i, j, q);
    }
  }

  /** The node of the level above is an ancestor only where the accessor is made of parent steps and lands
      on it. */
  lemma {:induction false} ChainAncestors(env: Env, i: nat, j: nat, d: nat)
    requires Climbs(env, i) && ScopeAbove(env, i, j, d)
    ensures StepsOn(env, i, j)
    decreases d
  {
    if d == 0 {
      FootOfScope(env, i, j);
    } else {
      var next := StepUp(env, i, j, d);
      ChainAncestors(env, i, next, d - 1);
    }
  }

  /** Keys tell how far along an object is. */
  lemma FootOfScope(env: Env, i: nat, j: nat)
    requires Climbs(env, i) && j <= |env.levels[i].parent.value| && Hop(env, i, j) == Scope(env, i)
    ensures j == |env.levels[i].parent.value| && env.levels[i].parent.value[j..] == []
  {
    assert |Hop(env, i, j).pk| == |Scope(env, i).pk|;
  }

  // ---- Necessity --------------------------------------------------------------------------------------

  /** An accessor that is not a run of parent steps onto the level above. */
  ghost predicate Unsafe(env: Env, i: nat) {
    FirstModeled(env.levels) < i && Climbs(env, i) && !StepsToPrevious(env, i)
  }

  lemma ChainPlaysLevels(env: Env, i: nat)
    requires Climbs(env, i)
    ensures InLevel(Chain(env, i), env.levels[i], Foot(env, i))
    ensures InLevel(Chain(env, i), env.levels[i - 1], Scope(env, i))
  {
    var lower, upper := env.levels[i], env.levels[i - 1];
    assert Foot(env, i).pk != Scope(env, i).pk;
    forall f | f in lower.discriminator
      ensures (Foot(env, i), f) in ColumnsFor(lower, Foot(env, i)) && (Foot(env, i), f) !in ColumnsFor(upper, Scope(env, i))
    {
    }
    forall f | f in upper.discriminator ensures (Scope(env, i), f) in ColumnsFor(upper, Scope(env, i)) {
    }
  }

  /** The filter keeps the foot of the chain for a grant on the node above: the keys are equal. */
  lemma ChainFilterKeeps(env: Env, i: nat, p: Permission)
    requires Accepted(env.levels) && Climbs(env, i)
    ensures var chained := env.(host := Chain(env, i));
            FilterKeeps(chained, LoneUser(), {LoneGrant(chained, i - 1, Scope(env, i), p)}, Foot(env, i).model, Some(p), Foot(env, i))
  {
    var chained, path := env.(host := Chain(env, i)), env.levels[i].parent.value;
    var h := LoneGrant(chained, i - 1, Scope(env, i), p);
    ChainPlaysLevels(env, i);
    LoneGrantIsValid(chained, i - 1, Scope(env, i), p);
    ChainClimbFinds(env, i, h.a);
    assert h in {h};
    assert LevelKeeps(chained, LoneUser(), {h}, i, Some(p), Foot(env, i));
    assert env.levels[i] in env.levels;
  }

  lemma ChainClimbFinds(env: Env, i: nat, a: Assignment)
    requires Climbs(env, i) && a.level.Some? && Rank(env.levels, a.level.value) == Some(i - 1)
    requires a.scopeId == Some(Scope(env, i).pk)
    ensures ClimbFinds(env.(host := Chain(env, i)), a, i, Foot(env, i))
  {
    var path := env.levels[i].parent.value;
    assert UpPath(env.levels, i - 1, i - 1) == Some([]);
    assert path + [] == path;
    assert UpPath(env.levels, i, i - 1) == Some(path);
    assert Foot(env, i) == Hop(env, i, 0) && path[0..] == path;
    ChainFollows(env, i, 0, path);
  }

  /** The decision refuses it: the node above is no ancestor. */
  lemma ChainDecisionRefuses(env: Env, i: nat, p: Permission)
    requires Accepted(env.levels) && Unsafe(env, i)
    ensures var chained := env.(host := Chain(env, i));
            !Decides(chained, LoneUser(), {LoneGrant(chained, i - 1, Scope(env, i), p)}, Some(p), Foot(env, i))
  {
    var chained, path := env.(host := Chain(env, i)), env.levels[i].parent.value;
    var h := LoneGrant(chained, i - 1, Scope(env, i), p);
    ChainPlaysLevels(env, i);
    LoneGrantIsValid(chained, i - 1, Scope(env, i), p);
    assert ResolveAnchor(chained, Foot(env, i)) == AtNode(Foot(env, i));
    if Covers(chained, h, AtNode(Foot(env, i))) {
      ReachesScope(chained, h.a, Foot(env, i));
      var d: nat :| AncestorAt(chained, Foot(env, i), d) == Some(Scope(env, i));
      assert Foot(env, i) == Hop(env, i, 0) && path[0..] == path && path[..|path|] == path;
      ChainAncestors(env, i, 0, d);
      assert false;
    }
  }

  lemma UnsafeAccessorShows(env: Env, i: nat)
    requires Accepted(env.levels) && Unsafe(env, i)
    ensures !SafeForEveryHost(env)
  {
    ChainIsTyped(env, i);
    ChainIsForest(env, i);
    ChainFilterKeeps(env, i, "view");
    ChainDecisionRefuses(env, i, "view");
    assert Populates(env, Chain(env, i));
  }

  lemma UnsafeSomewhere(env: Env) returns (i: nat)
    requires Accepted(env.levels) && Checks.AccessorsWalk(env) && !ClimbsAreWalks(env)
    ensures Unsafe(env, i)
  {
    i :| FirstModeled(env.levels) < i < |env.levels| && !StepsToPrevious(env, i);
    assert !IsRoot(env.levels[i]) && !IsRoot(env.levels[i - 1]) && env.levels[i] in env.levels;
  }

  lemma WalksAreSafe(env: Env)
    requires ClimbsAreWalks(env)
    ensures SafeForEveryHost(env)
  {
    forall host: Host, user: User, rows: set<Held>, perm: Option<Permission>, o: Obj |
      Populates(env, host) && FilterKeeps(env.(host := host), user, rows, o.model, perm, o)
      ensures Decides(env.(host := host), user, rows, perm, o)
    {
      SameRelationsSameClimbs(env, host);
      FilterIsSound(env.(host := host), user, rows, perm, o);
    }
  }

  /** The exact condition, for every configuration the checks accept: whatever rows the host has, the filter
      keeps only what the decision allows, if and only if each accessor past the first modeled level is a run
      of parent steps that lands on the previous level's model. */
  lemma FilterIsSafeExactlyWhenClimbsAreWalks(env: Env)
    requires Accepted(env.levels) && Checks.AccessorsWalk(env)
    ensures SafeForEveryHost(env) <==> ClimbsAreWalks(env)
  {
    if ClimbsAreWalks(env) {
      WalksAreSafe(env);
    } else {
      var i := UnsafeSomewhere(env);
      UnsafeAccessorShows(env, i);
    }
  }
}
