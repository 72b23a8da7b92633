/** Walking up from a node: the ancestor chain and the laws coverage rests on. */
module Ancestry {
  import opened Wrappers
  import opened HostModel
  import opened Hierarchy

  /** The anti-escalation policy; a callable policy is not part of this model. */
  datatype Policy = SelfOnly | AnyPermission | Listed(perms: set<string>)

  /** Everything the engine treats as fixed: configuration, registry and host rows. */
  datatype Env = Env(
    levels: Levels,
    host: Host,
    anchors: map<Model, Path>,
    globals: set<Model>,
    strict: bool,
    roleOwnerLevels: set<string>,
    grantable: Policy)

  /** One step of `iter_ancestors`. */
  function ParentOf(env: Env, n: Obj): Option<Obj> {
    match ParentAccessor(env.levels, n.model)
    case None => None
    case Some(path) => Follow(env.host, n, path)
  }

  /** The node reached after `d` steps, the node itself being step 0. */
  function AncestorAt(env: Env, n: Obj, d: nat): Option<Obj> {
    if d == 0 then Some(n)
    else match AncestorAt(env, n, d - 1)
      case None => None
      case Some(m) => ParentOf(env, m)
  }

  ghost predicate IsAncestorOrSelf(env: Env, top: Obj, n: Obj) {
    exists d: nat :: AncestorAt(env, n, d) == Some(top)
  }

  /** The walk up from `n` comes to an end. */
  ghost predicate Grounded(env: Env, n: Obj) {
    exists d: nat :: AncestorAt(env, n, d).None?
  }

  /** Nodes form a forest: no walk goes round in circles. */
  ghost predicate Forest(env: Env) {
    forall n: Obj :: Grounded(env, n)
  }

  /** `iter_ancestors`: the node, then its ancestors, in order and to the end. */
  method IterAncestors(env: Env, node: Obj) returns (chain: seq<Obj>)
    requires Grounded(env, node)
    ensures forall i: nat :: i < |chain| ==> AncestorAt(env, node, i) == Some(chain[i])
    ensures AncestorAt(env, node, |chain|).None?
    ensures forall m: Obj :: m in chain <==> IsAncestorOrSelf(env, m, node)
  {
    ghost var bound: nat :| AncestorAt(env, node, bound).None?;
    chain := [];
    var current := Some(node);
    while current.Some?
      invariant current == AncestorAt(env, node, |chain|)
      invariant forall i: nat :: i < |chain| ==> AncestorAt(env, node, i) == Some(chain[i])
      decreases bound - |chain|
    {
      assert |chain| < bound;
      chain := chain + [current.value];
      var accessor := ParentAccessor(env.levels, current.value.model);
      match accessor {
        case None => current := None;
        case Some(path) => current := FollowPath(env.host, current.value, path);
      }
    }
    ChainIsAncestry(env, node, chain);
  }

  lemma ChainIsAncestry(env: Env, node: Obj, chain: seq<Obj>)
    requires forall i: nat :: i < |chain| ==> AncestorAt(env, node, i) == Some(chain[i])
    requires AncestorAt(env, node, |chain|).None?
    ensures forall m: Obj :: m in chain <==> IsAncestorOrSelf(env, m, node)
  {
    forall m: Obj ensures m in chain <==> IsAncestorOrSelf(env, m, node) {
      if d: nat :| AncestorAt(env, node, d) == Some(m) {
        if |chain| <= d {
          EndsForGood(env, node, |chain|, d - |chain|);
          assert false;
        }
        assert chain[d] == m;
      }
      if m in chain {
        var i: nat :| i < |chain| && chain[i] == m;
        assert AncestorAt(env, node, i) == Some(m);
      }
    }
  }

  /** Once the walk has ended it stays ended. */
  lemma {:induction false} EndsForGood(env: Env, n: Obj, d: nat, more: nat)
    requires AncestorAt(env, n, d).None?
    ensures AncestorAt(env, n, d + more).None?
  {
    if more > 0 {
      EndsForGood(env, n, d, more - 1);
    }
  }

  /** Walking `e` steps from the node `d` steps up is walking `d + e` steps. */
  lemma {:induction false} StepsAdd(env: Env, n: Obj, d: nat, m: Obj, e: nat)
    requires AncestorAt(env, n, d) == Some(m)
    ensures AncestorAt(env, n, d + e) == AncestorAt(env, m, e)
  {
    if e > 0 {
      StepsAdd(env, n, d, m, e - 1);
    }
  }

  /** The walk from a node is one parent step and the walk from there. */
  lemma FirstStep(env: Env, n: Obj, d: nat)
    requires d > 0
    ensures AncestorAt(env, n, d) ==
            match ParentOf(env, n) case None => None case Some(parent) => AncestorAt(env, parent, d - 1)
  {
    assert AncestorAt(env, n, 0) == Some(n) && AncestorAt(env, n, 1) == ParentOf(env, n);
    if ParentOf(env, n).Some? {
      StepsAdd(env, n, 1, ParentOf(env, n).value, d - 1);
    } else {
      EndsForGood(env, n, 1, d - 1);
    }
  }

  lemma AncestryTransitive(env: Env, top: Obj, mid: Obj, n: Obj)
    requires IsAncestorOrSelf(env, top, mid) && IsAncestorOrSelf(env, mid, n)
    ensures IsAncestorOrSelf(env, top, n)
  {
    var e: nat :| AncestorAt(env, mid, e) == Some(top);
    var d: nat :| AncestorAt(env, n, d) == Some(mid);
    StepsAdd(env, n, d, mid, e);
  }

  lemma SelfIsAncestor(env: Env, n: Obj)
    ensures IsAncestorOrSelf(env, n, n)
  {
    assert AncestorAt(env, n, 0) == Some(n);
  }

  /** A node that comes back to itself never ends. */
  lemma {:induction false} CycleRepeats(env: Env, n: Obj, period: nat, times: nat)
    requires period > 0 && AncestorAt(env, n, period) == Some(n)
    ensures AncestorAt(env, n, times * period) == Some(n)
  {
    if times > 0 {
      CycleRepeats(env, n, period, times - 1);
      StepsAdd(env, n, (times - 1) * period, n, period);
    }
  }

  lemma GroundedHasNoCycle(env: Env, n: Obj, period: nat)
    requires Grounded(env, n) && AncestorAt(env, n, period) == Some(n)
    ensures period == 0
  {
    if period > 0 {
      var stop: nat :| AncestorAt(env, n, stop).None?;
      CycleRepeats(env, n, period, stop);
      assert stop <= stop * period;
      EndsForGood(env, n, stop, stop * period - stop);
      assert false;
    }
  }

  /** Where the walk ends, ancestry is never upward: of two different nodes, at most one is above the other. */
  lemma AncestryAntisymmetric(env: Env, a: Obj, b: Obj)
    requires Grounded(env, a)
    requires IsAncestorOrSelf(env, a, b) && IsAncestorOrSelf(env, b, a)
    ensures a == b
  {
    var d: nat :| AncestorAt(env, a, d) == Some(b);
    var e: nat :| AncestorAt(env, b, e) == Some(a);
    StepsAdd(env, a, d, b, e);
    GroundedHasNoCycle(env, a, d + e);
  }

  /** An ancestor sits at one height only. */
  lemma HeightIsUnique(env: Env, n: Obj, d: nat, e: nat, m: Obj)
    requires Grounded(env, m)
    requires AncestorAt(env, n, d) == Some(m) && AncestorAt(env, n, e) == Some(m)
    ensures d == e
  {
    var low, high := if d <= e then d else e, if d <= e then e else d;
    StepsAdd(env, n, low, m, high - low);
    GroundedHasNoCycle(env, m, high - low);
  }

  /** A ranking of nodes that strictly decreases towards the parent. */
  ghost predicate RankDecreasing(env: Env, rank: Obj -> nat) {
    forall n: Obj :: ParentOf(env, n).Some? ==> rank(ParentOf(env, n).value) < rank(n)
  }

  lemma {:induction false} RankBoundsWalk(env: Env, rank: Obj -> nat, n: Obj, d: nat)
    requires RankDecreasing(env, rank)
    ensures AncestorAt(env, n, d).Some? ==> rank(AncestorAt(env, n, d).value) + d <= rank(n)
  {
    if d > 0 {
      RankBoundsWalk(env, rank, n, d - 1);
    }
  }

  /** Ranks that decrease towards the parent make every walk end. */
  lemma RankDecreasingIsForest(env: Env, rank: Obj -> nat)
    requires RankDecreasing(env, rank)
    ensures Forest(env)
  {
    forall n: Obj ensures Grounded(env, n) {
      RankBoundsWalk(env, rank, n, rank(n) + 1);
      assert AncestorAt(env, n, rank(n) + 1).None?;
    }
  }

  // ---- What the documentation asks of accessors -------------------------------------------

  /** A level's parent accessor lands on the previous modeled level's model, and levels sharing
      a model share their accessor. */
  ghost predicate AccessorsAligned(env: Env) {
    && Accepted(env.levels)
    && forall i: nat :: FirstModeled(env.levels) < i < |env.levels| ==>
         && env.levels[i].model.Some? && env.levels[i].parent.Some?
         && ParentAccessor(env.levels, env.levels[i].model.value) == env.levels[i].parent
         && Walk(env.host, env.levels[i].model.value, env.levels[i].parent.value) == env.levels[i - 1].model
  }

  ghost predicate WellFormed(env: Env) {
    Typed(env.host) && AccessorsAligned(env)
  }

  /** A path made of parent steps: the accessor of the model it starts from, then that of the model this
      lands on, and so on to its end. */
  predicate ParentSteps(env: Env, m: Model, path: Hops)
    decreases |path|
  {
    path == [] ||
    match ParentAccessor(env.levels, m)
    case None => false
    case Some(step) =>
      && step <= path && Walk(env.host, m, step).Some?
      && ParentSteps(env, Walk(env.host, m, step).value, path[|step|..])
  }

  /** The accessor of the level at rank `i` is made of parent steps, and lands on the previous level's model. */
  predicate StepsToPrevious(env: Env, i: nat)
    requires 0 < i < |env.levels|
  {
    && env.levels[i].model.Some? && env.levels[i].parent.Some?
    && ParentSteps(env, env.levels[i].model.value, env.levels[i].parent.value)
    && Walk(env.host, env.levels[i].model.value, env.levels[i].parent.value) == env.levels[i - 1].model
  }

  /** So does every accessor past the first modeled level. This depends on levels and declared relations only. */
  ghost predicate ClimbsAreWalks(env: Env) {
    Accepted(env.levels) && forall i: nat :: FirstModeled(env.levels) < i < |env.levels| ==> StepsToPrevious(env, i)
  }

  /** Shared accessors that land on the previous level's model are single parent steps. */
  lemma AlignedClimbsAreWalks(env: Env)
    requires AccessorsAligned(env)
    ensures ClimbsAreWalks(env)
  {
    forall i: nat | FirstModeled(env.levels) < i < |env.levels|
      ensures StepsToPrevious(env, i)
    {
      assert env.levels[i - 1].model.Some?;
      assert env.levels[i].parent.value[|env.levels[i].parent.value|..] == [];
    }
  }

  /** Over typed rows, the end of a path of parent steps is an ancestor. */
  lemma {:induction false} ParentStepsFindAncestors(env: Env, n: Obj, path: Hops)
    requires Typed(env.host) && ParentSteps(env, n.model, path) && Follow(env.host, n, path).Some?
    ensures IsAncestorOrSelf(env, Follow(env.host, n, path).value, n)
    decreases |path|
  {
    if path == [] {
      SelfIsAncestor(env, n);
    } else {
      var step := ParentAccessor(env.levels, n.model).value;
      assert path == step + path[|step|..];
      FollowJoined(env.host, n, step, path[|step|..]);
      FollowLands(env.host, n, step);
      var parent := Follow(env.host, n, step).value;
      assert AncestorAt(env, n, 0) == Some(n) && AncestorAt(env, n, 1) == Some(parent);
      ParentStepsFindAncestors(env, parent, path[|step|..]);
      AncestryTransitive(env, Follow(env.host, n, path).value, parent, n);
    }
  }

  /** So whatever the filters' climb finds is an ancestor, of the model of the level climbed to. */
  lemma {:induction false} ClimbFindsAncestor(env: Env, n: Obj, from: nat, to: nat)
    requires Typed(env.host) && ClimbsAreWalks(env)
    requires FirstModeled(env.levels) <= to <= from < |env.levels|
    requires env.levels[from].model == Some(n.model)
    ensures UpPath(env.levels, from, to).Some?
    ensures var found := Follow(env.host, n, UpPath(env.levels, from, to).value);
            found.Some? ==> IsAncestorOrSelf(env, found.value, n) && env.levels[to].model == Some(found.value.model)
    decreases from
  {
    UpPathTotal(env.levels, from, to);
    if to == from {
      SelfIsAncestor(env, n);
    } else {
      assert StepsToPrevious(env, from);
      var hop := env.levels[from].parent.value;
      UpPathTotal(env.levels, from - 1, to);
      FollowJoined(env.host, n, hop, UpPath(env.levels, from - 1, to).value);
      FollowLands(env.host, n, hop);
      if Follow(env.host, n, hop).Some? {
        var up := Follow(env.host, n, hop).value;
        ParentStepsFindAncestors(env, n, hop);
        ClimbFindsAncestor(env, up, from - 1, to);
        var found := Follow(env.host, up, UpPath(env.levels, from - 1, to).value);
        if found.Some? {
          AncestryTransitive(env, found.value, up, n);
        }
      }
    }
  }

  /** The rank arithmetic of the filters meets the walk of the decisions: climbing from rank `from`
      to rank `to` by the joined path is walking `from - to` parents, and lands on that level's model. */
  lemma {:induction false} ClimbIsWalk(env: Env, n: Obj, from: nat, to: nat)
    requires WellFormed(env)
    requires FirstModeled(env.levels) <= to <= from < |env.levels|
    requires env.levels[from].model == Some(n.model)
    ensures UpPath(env.levels, from, to).Some?
    ensures Follow(env.host, n, UpPath(env.levels, from, to).value) == AncestorAt(env, n, from - to)
    ensures AncestorAt(env, n, from - to).Some? ==>
              env.levels[to].model == Some(AncestorAt(env, n, from - to).value.model)
    decreases from
  {
    UpPathTotal(env.levels, from, to);
    if to < from {
      var hop := env.levels[from].parent.value;
      UpPathTotal(env.levels, from - 1, to);
      FollowJoined(env.host, n, hop, UpPath(env.levels, from - 1, to).value);
      FollowLands(env.host, n, hop);
      assert AncestorAt(env, n, 1) == ParentOf(env, n) == Follow(env.host, n, hop);
      if ParentOf(env, n).Some? {
        var p := ParentOf(env, n).value;
        ClimbIsWalk(env, p, from - 1, to);
        StepsAdd(env, n, 1, p, from - 1 - to);
      } else {
        EndsForGood(env, n, 1, from - to - 1);
      }
    }
  }
}
