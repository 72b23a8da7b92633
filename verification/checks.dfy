/** The startup checks on the hierarchy, and what a clean report is worth to the engine. */
module Checks {
  import opened Wrappers
  import opened HostModel
  import opened Hierarchy
  import opened Ancestry
  import opened Filters

  datatype CheckError =
    | E001                             // duplicate level names
    | E002                             // a root level that is not the first
    | E003(level: string)              // no parent accessor
    | E004(ownerLevel: string)         // role owner level that is not modeled
    | E006(level: string)              // model cannot be loaded
    | E007(level: string)              // invalid parent accessor
    | E008(model: Model)               // invalid anchor

  /** `_walk_relation_path`: the first bad segment, or the model the path lands on. */
  method WalkRelationPath(h: Host, model: Model, path: Hops) returns (bad: Option<nat>, landing: Option<Model>)
    ensures landing == Walk(h, model, path)
    ensures bad.None? <==> landing.Some?
    ensures bad.Some? ==> bad.value < |path| && Walk(h, model, path[..bad.value]).Some?
                          && Walk(h, model, path[..bad.value + 1]).None?
  {
    var current := model;
    assert path[..0] == [];
    for i := 0 to |path|
      invariant Walk(h, model, path[..i]) == Some(current)
      invariant Walk(h, model, path) == Walk(h, current, path[i..])
    {
      WalkOneMore(h, model, path, i);
      if (current, path[i]) !in h.relations {
        return Some(i), None;
      }
      current := h.relations[(current, path[i])];
    }
    assert path[..|path|] == path;
    return None, Some(current);
  }

  /** Counting names with and without repetition tells whether one repeats. */
  lemma {:induction false} DistinctCount(names: seq<string>)
    ensures |set n | n in names| <= |names|
    ensures |set n | n in names| == |names| <==>
            forall i: nat, j: nat :: i < j < |names| ==> names[i] != names[j]
    decreases |names|
  {
    if names != [] {
      var last := |names| - 1;
      DistinctCount(names[..last]);
      assert names == names[..last] + [names[last]];
      NamesOneMore(names[..last], names[last]);
      if names[last] in names[..last] {
        var i: nat :| i < last && names[i] == names[last];
      }
    }
  }

  lemma NamesOneMore(names: seq<string>, name: string)
    ensures |set n | n in names + [name]| == |set n | n in names| + if name in names then 0 else 1
  {
    var all, init := set n | n in names + [name], set n | n in names;
    assert all == init + {name};
    if name in names {
      assert all == init;
    }
  }

  lemma NamesDecideUniqueness(levels: Levels, names: seq<string>)
    requires |names| == |levels| && forall i: nat :: i < |levels| ==> names[i] == levels[i].name
    ensures UniqueNames(levels) <==> forall i: nat, j: nat :: i < j < |names| ==> names[i] != names[j]
  {
  }

  ghost predicate Loadable(levels: Levels, loadable: set<Model>) {
    forall lvl :: lvl in levels && lvl.model.Some? ==> lvl.model.value in loadable
  }

  ghost predicate OwnersModeled(levels: Levels, owners: set<string>) {
    forall o :: o in owners ==> exists lvl :: lvl in levels && lvl.model.Some? && lvl.name == o
  }

  /** Modeled levels before rank `i`: the position the check counts with. */
  function ModeledBefore(levels: Levels, i: nat): nat
    requires i <= |levels|
  {
    if i == 0 then 0 else ModeledBefore(levels, i - 1) + if IsRoot(levels[i - 1]) then 0 else 1
  }

  lemma {:induction false} ModeledBeforeIsZero(levels: Levels, i: nat)
    requires i <= |levels|
    ensures ModeledBefore(levels, i) == 0 <==> forall j: nat :: j < i ==> IsRoot(levels[j])
  {
    if i > 0 {
      ModeledBeforeIsZero(levels, i - 1);
    }
  }

  /** Where roots are placed correctly, "not the first modeled level" is a rank above the first modeled one. */
  lemma PositionsUnderRoot(levels: Levels)
    requires RootOnlyFirst(levels)
    ensures forall i: nat :: i < |levels| && !IsRoot(levels[i]) ==>
              (ModeledBefore(levels, i) > 0 <==> FirstModeled(levels) < i)
  {
  }

  /** A level whose model does not load is reported as such and checked no further. */
  ghost predicate LevelIsClean(env: Env, loadable: set<Model>, i: nat)
    requires i < |env.levels|
  {
    env.levels[i].model.Some? ==>
      && env.levels[i].model.value in loadable
      && (ModeledBefore(env.levels, i) > 0 ==> env.levels[i].parent.Some?)
      && (env.levels[i].parent.Some? ==>
            Walk(env.host, env.levels[i].model.value, env.levels[i].parent.value).Some?)
  }

  /** When each rule on levels reports the level at rank `i`. */
  ghost predicate LevelReports(env: Env, loadable: set<Model>, i: nat, e: CheckError)
    requires i < |env.levels|
  {
    var lvl := env.levels[i];
    && lvl.model.Some?
    && match e
       case E006(name) => name == lvl.name && lvl.model.value !in loadable
       case E003(name) =>
         name == lvl.name && lvl.model.value in loadable && ModeledBefore(env.levels, i) > 0 && lvl.parent.None?
       case E007(name) =>
         && name == lvl.name && lvl.model.value in loadable
         && lvl.parent.Some? && Walk(env.host, lvl.model.value, lvl.parent.value).None?
       case _ => false
  }

  /** When each rule reports. */
  ghost predicate Reports(env: Env, loadable: set<Model>, e: CheckError) {
    match e
    case E001 => !UniqueNames(env.levels)
    case E002 => !RootOnlyFirst(env.levels)
    case E004(o) => o in env.roleOwnerLevels && forall lvl :: lvl in env.levels && lvl.model.Some? ==> lvl.name != o
    case E008(m) => m in env.anchors && Walk(env.host, m, env.anchors[m]).None?
    case _ => exists i: nat :: i < |env.levels| && LevelReports(env, loadable, i, e)
  }

  ghost predicate AccessorsWalk(env: Env) {
    forall lvl :: lvl in env.levels && lvl.model.Some? && lvl.parent.Some? ==>
      Walk(env.host, lvl.model.value, lvl.parent.value).Some?
  }

  lemma CleanLevelsAreAccepted(env: Env, loadable: set<Model>)
    requires RootOnlyFirst(env.levels)
    ensures (forall i: nat :: i < |env.levels| ==> LevelIsClean(env, loadable, i)) <==>
            ParentsDeclared(env.levels) && Loadable(env.levels, loadable) && AccessorsWalk(env)
  {
    PositionsUnderRoot(env.levels);
    if forall i: nat :: i < |env.levels| ==> LevelIsClean(env, loadable, i) {
      forall lvl | lvl in env.levels && lvl.model.Some?
        ensures lvl.model.value in loadable
        ensures lvl.parent.Some? ==> Walk(env.host, lvl.model.value, lvl.parent.value).Some?
      {
        var i: nat :| i < |env.levels| && env.levels[i] == lvl;
        assert LevelIsClean(env, loadable, i);
      }
      forall i: nat | FirstModeled(env.levels) < i < |env.levels| && !IsRoot(env.levels[i])
        ensures env.levels[i].parent.Some?
      {
        assert LevelIsClean(env, loadable, i);
      }
    }
    if ParentsDeclared(env.levels) && Loadable(env.levels, loadable) && AccessorsWalk(env) {
      forall i: nat | i < |env.levels| ensures LevelIsClean(env, loadable, i) {
        assert env.levels[i] in env.levels;
      }
    }
  }

  method CheckLevel(env: Env, loadable: set<Model>, i: nat, position: nat) returns (errors: seq<CheckError>)
    requires i < |env.levels| && env.levels[i].model.Some? && position == ModeledBefore(env.levels, i)
    ensures forall e :: e in errors <==> LevelReports(env, loadable, i, e)
    ensures errors == [] <==> LevelIsClean(env, loadable, i)
  {
    var lvl := env.levels[i];
    if lvl.model.value !in loadable {
      return [E006(lvl.name)];
    }
    errors := [];
    if position > 0 && lvl.parent.None? {
      errors := [E003(lvl.name)];
    }
    if lvl.parent.Some? {
      var bad, _ := WalkRelationPath(env.host, lvl.model.value, lvl.parent.value);
      if bad.Some? {
        errors := errors + [E007(lvl.name)];
      }
    }
  }

  method CheckLevels(env: Env, loadable: set<Model>) returns (errors: seq<CheckError>)
    ensures forall e :: e in errors <==> exists i: nat :: i < |env.levels| && LevelReports(env, loadable, i, e)
    ensures errors == [] <==> forall i: nat :: i < |env.levels| ==> LevelIsClean(env, loadable, i)
  {
    errors := [];
    var position := 0;
    for i := 0 to |env.levels|
      invariant position == ModeledBefore(env.levels, i)
      invariant forall e :: e in errors <==> exists j: nat :: j < i && LevelReports(env, loadable, j, e)
      invariant errors == [] <==> forall j: nat :: j < i ==> LevelIsClean(env, loadable, j)
    {
      if env.levels[i].model.Some? {
        var found := CheckLevel(env, loadable, i, position);
        errors := errors + found;
        position := position + 1;
      }
    }
  }

  method CheckOwners(env: Env) returns (errors: seq<CheckError>)
    ensures forall e :: e in errors <==> e.E004? && Reports(env, {}, e)
    ensures errors == [] <==> OwnersModeled(env.levels, env.roleOwnerLevels)
  {
    errors := [];
    var modeled := set lvl | lvl in env.levels && lvl.model.Some? :: lvl.name;
    var todo := env.roleOwnerLevels;
    while todo != {}
      invariant todo <= env.roleOwnerLevels
      invariant forall e :: e in errors <==>
        e.E004? && e.ownerLevel in env.roleOwnerLevels - todo && e.ownerLevel !in modeled
      decreases todo
    {
      var o :| o in todo;
      ghost var seen := env.roleOwnerLevels - todo;
      todo := todo - {o};
      assert env.roleOwnerLevels - todo == seen + {o};
      if o !in modeled {
        errors := errors + [E004(o)];
      }
    }
    assert env.roleOwnerLevels - todo == env.roleOwnerLevels;
    assert forall o :: o in modeled <==> exists lvl :: lvl in env.levels && lvl.model.Some? && lvl.name == o;
    if errors == [] {
      forall o | o in env.roleOwnerLevels ensures o in modeled {
        assert E004(o) !in errors;
      }
    } else {
      assert errors[0] in errors;
    }
  }

  method CheckAnchors(env: Env) returns (errors: seq<CheckError>)
    ensures forall e :: e in errors <==> e.E008? && Reports(env, {}, e)
    ensures errors == [] <==> AnchorsLand(env)
  {
    errors := [];
    var todo := env.anchors.Keys;
    while todo != {}
      invariant todo <= env.anchors.Keys
      invariant forall e :: e in errors <==>
        e.E008? && e.model in env.anchors.Keys - todo && Walk(env.host, e.model, env.anchors[e.model]).None?
      decreases todo
    {
      var m :| m in todo;
      ghost var seen := env.anchors.Keys - todo;
      todo := todo - {m};
      assert env.anchors.Keys - todo == seen + {m};
      var bad, _ := WalkRelationPath(env.host, m, env.anchors[m]);
      if bad.Some? {
        errors := errors + [E008(m)];
      }
    }
    if errors == [] {
      forall m | m in env.anchors ensures Walk(env.host, m, env.anchors[m]).Some? {
        assert E008(m) !in errors;
      }
    } else {
      assert errors[0] in errors;
    }
  }

  /** The hierarchy rules of `check_scoped_access_config`, in their order: each reports exactly what
      `Reports` says of it. The report is empty exactly when the hierarchy is accepted, every model loads,
      every accessor and anchor is a relation path, and role owners sit at modeled levels. */
  method CheckConfig(env: Env, loadable: set<Model>) returns (errors: seq<CheckError>)
    ensures forall e :: e in errors <==> Reports(env, loadable, e)
    ensures errors == [] <==>
              && Accepted(env.levels) && Loadable(env.levels, loadable) && AccessorsWalk(env)
              && OwnersModeled(env.levels, env.roleOwnerLevels) && AnchorsLand(env)
  {
    var shapeErrors := CheckShape(env.levels);
    var levelErrors := CheckLevels(env, loadable);
    var ownerErrors := CheckOwners(env);
    var anchorErrors := CheckAnchors(env);
    errors := shapeErrors + levelErrors + ownerErrors + anchorErrors;
    if RootOnlyFirst(env.levels) {
      CleanLevelsAreAccepted(env, loadable);
    }
  }

  method CheckShape(levels: Levels) returns (errors: seq<CheckError>)
    ensures forall e :: e in errors <==> (e.E001? && !UniqueNames(levels)) || (e.E002? && !RootOnlyFirst(levels))
    ensures errors == [] <==> UniqueNames(levels) && RootOnlyFirst(levels)
  {
    errors := [];
    var names := seq(|levels|, i requires 0 <= i < |levels| => levels[i].name);
    DistinctCount(names);
    NamesDecideUniqueness(levels, names);
    if |names| != |set n | n in names| {
      errors := [E001];
    }
    var misplaced := false;
    for i := 0 to |levels|
      invariant misplaced <==> exists j: nat :: 0 < j < i && IsRoot(levels[j])
    {
      misplaced := misplaced || (i > 0 && IsRoot(levels[i]));
    }
    if misplaced {
      errors := errors + [E002];
    }
  }

  // ---- What silence of the first three rules is worth -----------------------------------------------

  /** Rules E001, E002 and E003 report nothing. */
  ghost predicate ShapeRulesSilent(env: Env, loadable: set<Model>) {
    forall e :: Reports(env, loadable, e) ==> !e.E001? && !e.E002? && !e.E003?
  }

  /** A level past the first modeled one whose model does not load still declares its parent. */
  ghost predicate UnloadableDeclareParents(levels: Levels, loadable: set<Model>) {
    forall i: nat :: FirstModeled(levels) < i < |levels| && levels[i].model.Some? && levels[i].model.value !in loadable ==>
      levels[i].parent.Some?
  }

  ghost predicate EveryClimbIsDefined(levels: Levels) {
    forall from: nat, to: nat :: FirstModeled(levels) <= to <= from < |levels| ==> UpPath(levels, from, to).Some?
  }

  lemma SilentShapeRules(env: Env, loadable: set<Model>)
    requires ShapeRulesSilent(env, loadable)
    ensures UniqueNames(env.levels) && RootOnlyFirst(env.levels)
    ensures forall i: nat :: FirstModeled(env.levels) < i < |env.levels| && env.levels[i].model.value in loadable ==>
              env.levels[i].parent.Some?
  {
    assert !Reports(env, loadable, E001) && !Reports(env, loadable, E002);
    PositionsUnderRoot(env.levels);
    forall i: nat | FirstModeled(env.levels) < i < |env.levels| && env.levels[i].model.value in loadable
      ensures env.levels[i].parent.Some?
    {
      assert !Reports(env, loadable, E003(env.levels[i].name));
      assert !LevelReports(env, loadable, i, E003(env.levels[i].name));
    }
  }

  /** With E001, E002 and E003 silent, the hierarchy is accepted if and only if the levels whose models do
      not load declare their parents as well, and if and only if every climb between modeled ranks is
      defined. */
  lemma SilentRulesAcceptExactlyWhen(env: Env, loadable: set<Model>)
    requires ShapeRulesSilent(env, loadable)
    ensures Accepted(env.levels) <==> UnloadableDeclareParents(env.levels, loadable)
    ensures Accepted(env.levels) <==> EveryClimbIsDefined(env.levels)
  {
    SilentShapeRules(env, loadable);
    if Accepted(env.levels) {
      forall from: nat, to: nat | FirstModeled(env.levels) <= to <= from < |env.levels|
        ensures UpPath(env.levels, from, to).Some?
      {
        UpPathTotal(env.levels, from, to);
      }
    }
    if EveryClimbIsDefined(env.levels) {
      forall i: nat | FirstModeled(env.levels) < i < |env.levels| ensures env.levels[i].parent.Some? {
        assert UpPath(env.levels, i, i - 1).Some?;
      }
    }
  }

  /** With E001, E002, E003 and E006 silent, names decide ranks and every climb joins exactly one declared
      accessor for each rank climbed. */
  lemma SilentRulesMakeClimbsTotal(env: Env, loadable: set<Model>, from: nat, to: nat)
    requires ShapeRulesSilent(env, loadable) && forall e :: Reports(env, loadable, e) ==> !e.E006?
    requires FirstModeled(env.levels) <= to <= from < |env.levels|
    ensures forall r: nat :: to < r <= from ==> env.levels[r].parent.Some?
    ensures UpPath(env.levels, from, to) == Some(Join(AccessorsUsed(env.levels, from, to)))
    ensures |AccessorsUsed(env.levels, from, to)| == from - to
    ensures forall name :: Rank(env.levels, name) == Some(from) <==> name == env.levels[from].name
  {
    SilentShapeRules(env, loadable);
    forall i: nat | FirstModeled(env.levels) < i < |env.levels| ensures env.levels[i].parent.Some? {
      assert !Reports(env, loadable, E006(env.levels[i].name));
      assert !LevelReports(env, loadable, i, E006(env.levels[i].name));
    }
    UpPathTotal(env.levels, from, to);
    forall name ensures Rank(env.levels, name) == Some(from) <==> name == env.levels[from].name {
      RankIsPosition(env.levels, name, from);
    }
  }

  /** Two levels; the model of the lower one does not load, and it declares no parent. */
  const UNLOADABLE := Env(
    [Level("region", Some("Region"), None, map[]), Level("site", Some("Site"), None, map[])],
    Host(map[], map[], map[], {}), map[], {}, true, {}, SelfOnly)

  /** Only E006 is reported, and the climb from the lower level is not defined: the missing parent goes
      unreported because the level is checked no further. */
  lemma UnloadableLevelHidesMissingParent(e: CheckError)
    ensures Reports(UNLOADABLE, {"Region"}, e) <==> e == E006("site")
    ensures ShapeRulesSilent(UNLOADABLE, {"Region"})
    ensures UpPath(UNLOADABLE.levels, 1, 0) == None && !Accepted(UNLOADABLE.levels)
  {
    assert LevelReports(UNLOADABLE, {"Region"}, 1, E006("site"));
    assert ModeledBefore(UNLOADABLE.levels, 0) == 0;
    assert !ParentsDeclared(UNLOADABLE.levels) by {
      assert UNLOADABLE.levels[1].parent.None?;
    }
  }
}
