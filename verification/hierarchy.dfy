/** The configured levels, and the lookups the engine makes on them. */
module Hierarchy {
  import opened Wrappers
  import opened HostModel

  /** `model` is None for a root level; `parent` is the accessor to the previous modeled level. */
  datatype Level = Level(
    name: string,
    model: Option<Model>,
    parent: Option<Path>,
    discriminator: map<Field, string>)

  type Levels = seq<Level>

  predicate IsRoot(lvl: Level) { lvl.model.None? }

  /** The row plays the level's part: right model, and every discriminator column agrees. */
  predicate InLevel(h: Host, lvl: Level, n: Obj) {
    && n in h.rows
    && lvl.model == Some(n.model)
    && forall f :: f in lvl.discriminator ==>
         (n, f) in h.columns && h.columns[(n, f)] == lvl.discriminator[f]
  }

  /** The name index: a repeated name keeps its last level. */
  function ByName(levels: Levels, name: string): (r: Option<Level>)
    ensures r.Some? ==> r.value in levels && r.value.name == name
    ensures r.None? ==> forall lvl :: lvl in levels ==> lvl.name != name
  {
    if levels == [] then None
    else
      var last := levels[|levels| - 1];
      if last.name == name then Some(last) else ByName(levels[..|levels| - 1], name)
  }

  /** A repeated name finds the last level that has it. */
  lemma {:induction false} LastOfNameWins(levels: Levels, name: string, i: nat)
    requires i < |levels| && levels[i].name == name
    requires forall j: nat :: i < j < |levels| ==> levels[j].name != name
    ensures ByName(levels, name) == Some(levels[i])
  {
    if i < |levels| - 1 {
      LastOfNameWins(levels[..|levels| - 1], name, i);
    }
  }

  function IndexOf(levels: Levels, lvl: Level): (i: nat)
    requires lvl in levels
    ensures i < |levels| && levels[i] == lvl
    ensures forall j: nat :: j < i ==> levels[j] != lvl
  {
    if levels[0] == lvl then 0 else 1 + IndexOf(levels[1..], lvl)
  }

  /** Index of the level with this name, 0 being the top; None is the KeyError. */
  function Rank(levels: Levels, name: string): (r: Option<nat>)
    ensures r.Some? ==> r.value < |levels| && levels[r.value].name == name
  {
    match ByName(levels, name)
    case None => None
    case Some(lvl) => Some(IndexOf(levels, lvl))
  }

  predicate IsNodeModel(levels: Levels, m: Model) {
    exists lvl :: lvl in levels && lvl.model == Some(m)
  }

  /** The accessor used to walk up from a node: that of the first level of its model which has one. */
  function ParentAccessor(levels: Levels, m: Model): (r: Option<Path>)
  {
    if levels == [] then None
    else if levels[0].model == Some(m) && levels[0].parent.Some? then levels[0].parent
    else ParentAccessor(levels[1..], m)
  }

  ghost predicate UniqueNames(levels: Levels) {
    forall i: nat, j: nat :: i < j < |levels| ==> levels[i].name != levels[j].name
  }

  /** At most one root level, and it comes first. */
  ghost predicate RootOnlyFirst(levels: Levels) {
    forall i: nat :: 0 < i < |levels| ==> !IsRoot(levels[i])
  }

  /** Rank of the first modeled level. */
  function FirstModeled(levels: Levels): nat {
    if levels != [] && IsRoot(levels[0]) then 1 else 0
  }

  /** Every modeled level except the first declares how to reach its parent. */
  ghost predicate ParentsDeclared(levels: Levels) {
    forall i: nat :: FirstModeled(levels) < i < |levels| && !IsRoot(levels[i]) ==> levels[i].parent.Some?
  }

  ghost predicate Accepted(levels: Levels) {
    UniqueNames(levels) && RootOnlyFirst(levels) && ParentsDeclared(levels)
  }

  /** Names decide ranks: two names never share one, and a rank is found under its own name. */
  lemma RankIsPosition(levels: Levels, name: string, i: nat)
    requires UniqueNames(levels)
    ensures Rank(levels, name) == Some(i) <==> i < |levels| && levels[i].name == name
  {
  }

  /** `_up_path`: the hops climbing from one rank up to another; None is the failure
      on a level that declares no parent. */
  function UpPath(levels: Levels, from: nat, to: nat): Option<Hops>
    requires from < |levels|
    decreases from
  {
    if from <= to then Some([])
    else match levels[from].parent
      case None => None
      case Some(hop) =>
        match UpPath(levels, from - 1, to)
        case None => None
        case Some(rest) => Some(hop + rest)
  }

  /** Number of accessors `_up_path` joins: one for each rank climbed. */
  function AccessorsUsed(levels: Levels, from: nat, to: nat): (used: seq<Path>)
    requires from < |levels|
    requires forall r: nat :: to < r <= from ==> levels[r].parent.Some?
    ensures |used| == if from <= to then 0 else from - to
    decreases from
  {
    if from <= to then [] else [levels[from].parent.value] + AccessorsUsed(levels, from - 1, to)
  }

  function Join(paths: seq<Path>): Hops {
    if paths == [] then [] else paths[0] + Join(paths[1..])
  }

  /** Wherever its accessors are declared, a climb is their joined path. */
  lemma {:induction false} UpPathJoins(levels: Levels, from: nat, to: nat)
    requires from < |levels|
    requires forall r: nat :: to < r <= from ==> levels[r].parent.Some?
    ensures UpPath(levels, from, to) == Some(Join(AccessorsUsed(levels, from, to)))
    decreases from
  {
    if to < from {
      UpPathJoins(levels, from - 1, to);
    }
  }

  /** Under an accepted configuration every climb between modeled ranks is defined, and joins
      exactly one declared accessor for each rank climbed. */
  lemma UpPathTotal(levels: Levels, from: nat, to: nat)
    requires Accepted(levels)
    requires FirstModeled(levels) <= to <= from < |levels|
    ensures forall r: nat :: to < r <= from ==> levels[r].parent.Some?
    ensures UpPath(levels, from, to) == Some(Join(AccessorsUsed(levels, from, to)))
    ensures |AccessorsUsed(levels, from, to)| == from - to
  {
  }

  /** The loop form of `_up_path`, on a climb whose accessors are all declared. */
  method ClimbPath(levels: Levels, from: nat, to: nat) returns (hops: Hops)
    requires from < |levels|
    requires forall r: nat :: to < r <= from ==> levels[r].parent.Some?
    ensures UpPath(levels, from, to) == Some(hops)
  {
    hops := [];
    var r := from;
    UpPathJoins(levels, from, to);
    assert forall rest: Hops :: [] + rest == rest;
    while r > to
      invariant r <= from && (to <= r || r == from)
      invariant UpPath(levels, r, to).Some?
      invariant UpPath(levels, from, to) == Some(hops + UpPath(levels, r, to).value)
    {
      var hop := levels[r].parent.value;
      UpPathJoins(levels, r - 1, to);
      assert (hops + hop) + UpPath(levels, r - 1, to).value == hops + (hop + UpPath(levels, r - 1, to).value);
      hops := hops + hop;
      r := r - 1;
    }
    assert hops + [] == hops;
  }
}
