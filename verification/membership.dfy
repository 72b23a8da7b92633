/** Which level a host row plays, read off its columns: what a grant, a stored row, a role's owner and a node
    filter make of a discriminator. */
module Membership {
  import opened Wrappers
  import opened HostModel
  import opened Hierarchy
  import opened Ancestry
  import opened Engine
  import opened Authority
  import opened Filters
  import OwnerMoves

  /** The row's column `f` is not what the level asks for. */
  predicate Disagrees(h: Host, lvl: Level, n: Obj, f: Field) {
    f in lvl.discriminator && ((n, f) !in h.columns || h.columns[(n, f)] != lvl.discriminator[f])
  }

  /** The row is stored, of the level's model, and no column disagrees. */
  ghost predicate Plays(h: Host, lvl: Level, n: Obj) {
    n in h.rows && lvl.model == Some(n.model) && forall f :: !Disagrees(h, lvl, n, f)
  }

  /** It plays the level at rank `i` and no other. */
  ghost predicate PlaysOnly(env: Env, i: nat, n: Obj) {
    && i < |env.levels| && Plays(env.host, env.levels[i], n)
    && forall j: nat :: j < |env.levels| && j != i ==> !Plays(env.host, env.levels[j], n)
  }

  lemma MembersPlay(h: Host, lvl: Level, n: Obj)
    ensures InLevel(h, lvl, n) <==> Plays(h, lvl, n)
  {
    if Plays(h, lvl, n) {
      forall f | f in lvl.discriminator ensures (n, f) in h.columns && h.columns[(n, f)] == lvl.discriminator[f] {
        assert !Disagrees(h, lvl, n, f);
      }
    }
  }

  // ---- Grants ---------------------------------------------------------------------------------------

  /** A level asked for is granted if and only if the scope plays a level of that name. */
  lemma LevelGivenExactlyWhenPlayed(env: Env, name: string, n: Obj)
    ensures GrantLevel(env, Some(name), Some(n)).Ok? <==>
            exists i: nat :: i < |env.levels| && env.levels[i].name == name && Plays(env.host, env.levels[i], n)
    ensures GrantLevel(env, Some(name), Some(n)).Ok? ==> GrantLevel(env, Some(name), Some(n)).value == Some(name)
  {
    if GrantLevel(env, Some(name), Some(n)).Ok? {
      var lvl :| lvl in env.levels && lvl.name == name && InLevel(env.host, lvl, n);
      MembersPlay(env.host, lvl, n);
      var i: nat :| i < |env.levels| && env.levels[i] == lvl;
    }
    if i: nat :| i < |env.levels| && env.levels[i].name == name && Plays(env.host, env.levels[i], n) {
      MembersPlay(env.host, env.levels[i], n);
      assert env.levels[i] in env.levels;
    }
  }

  lemma {:induction false} NothingKept(env: Env, n: Obj, levels: Levels)
    ensures Keep(env, n, levels) == [] <==> forall j: nat :: j < |levels| ==> !InLevel(env.host, levels[j], n)
  {
    if levels != [] {
      NothingKept(env, n, levels[1..]);
      if InLevel(env.host, levels[0], n) || Keep(env, n, levels[1..]) != [] {
        assert Keep(env, n, levels) != [];
      }
      if j: nat :| j < |levels| - 1 && InLevel(env.host, levels[1..][j], n) {
        assert levels[j + 1] == levels[1..][j];
      }
      if j: nat :| j < |levels| && InLevel(env.host, levels[j], n) {
        assert j > 0 ==> levels[1..][j - 1] == levels[j];
      }
    }
  }

  ghost predicate OnlyMember(env: Env, n: Obj, levels: Levels, i: nat) {
    i < |levels| && forall j: nat :: j < |levels| ==> (InLevel(env.host, levels[j], n) <==> j == i)
  }

  lemma {:induction false} OneKept(env: Env, n: Obj, levels: Levels) returns (i: nat)
    requires |Keep(env, n, levels)| == 1
    ensures OnlyMember(env, n, levels, i) && Keep(env, n, levels) == [levels[i]]
  {
    if InLevel(env.host, levels[0], n) {
      i := 0;
      NothingKept(env, n, levels[1..]);
      forall j: nat | j < |levels| ensures InLevel(env.host, levels[j], n) <==> j == 0 {
        assert j > 0 ==> levels[1..][j - 1] == levels[j];
      }
    } else {
      var rest := OneKept(env, n, levels[1..]);
      i := rest + 1;
      forall j: nat | j < |levels| ensures InLevel(env.host, levels[j], n) <==> j == i {
        assert j > 0 ==> levels[1..][j - 1] == levels[j];
      }
    }
  }

  lemma {:induction false} OnlyMemberKept(env: Env, n: Obj, levels: Levels, i: nat)
    requires OnlyMember(env, n, levels, i)
    ensures Keep(env, n, levels) == [levels[i]]
  {
    forall j: nat | j < |levels| - 1 ensures levels[1..][j] == levels[j + 1] {
    }
    if i == 0 {
      NothingKept(env, n, levels[1..]);
    } else {
      OnlyMemberKept(env, n, levels[1..], i - 1);
    }
  }

  lemma OnlyMemberPlaysOnly(env: Env, i: nat, n: Obj)
    ensures OnlyMember(env, n, env.levels, i) <==> PlaysOnly(env, i, n)
  {
    forall j: nat | j < |env.levels| ensures InLevel(env.host, env.levels[j], n) <==> Plays(env.host, env.levels[j], n) {
      MembersPlay(env.host, env.levels[j], n);
    }
  }

  /** The levels a row matches are one if and only if it plays exactly one, and then that one. */
  lemma OneLevelMatches(env: Env, n: Obj)
    ensures |LevelsMatching(env, n)| == 1 <==> exists i: nat :: PlaysOnly(env, i, n)
    ensures forall i: nat :: PlaysOnly(env, i, n) ==> LevelsMatching(env, n) == [env.levels[i]]
  {
    if |LevelsMatching(env, n)| == 1 {
      var i := OneKept(env, n, env.levels);
      OnlyMemberPlaysOnly(env, i, n);
    }
    forall i: nat | PlaysOnly(env, i, n) ensures LevelsMatching(env, n) == [env.levels[i]] {
      OnlyMemberPlaysOnly(env, i, n);
      OnlyMemberKept(env, n, env.levels, i);
    }
  }

  /** A grant without a level stores the level the scope plays, if and only if it plays exactly one. */
  lemma LevelInferredExactlyWhenOne(env: Env, n: Obj)
    ensures GrantLevel(env, None, Some(n)).Ok? <==> exists i: nat :: PlaysOnly(env, i, n)
    ensures forall i: nat :: PlaysOnly(env, i, n) ==> GrantLevel(env, None, Some(n)) == Ok(Some(env.levels[i].name))
  {
    OneLevelMatches(env, n);
  }

  /** Where the levels of one model ask for different values of one column, the row's value tells its level. */
  lemma DiscriminatorTellsLevels(env: Env, n: Obj, i: nat, column: Field)
    requires i < |env.levels| && Plays(env.host, env.levels[i], n)
    requires forall j: nat :: j < |env.levels| && env.levels[j].model == Some(n.model) ==> column in env.levels[j].discriminator
    requires forall j: nat :: j < |env.levels| && env.levels[j].model == Some(n.model) && j != i ==>
               env.levels[j].discriminator[column] != env.levels[i].discriminator[column]
    ensures (n, column) in env.host.columns && env.host.columns[(n, column)] == env.levels[i].discriminator[column]
    ensures GrantLevel(env, None, Some(n)) == Ok(Some(env.levels[i].name))
  {
    assert !Disagrees(env.host, env.levels[i], n, column);
    forall j: nat | j < |env.levels| && j != i ensures !Plays(env.host, env.levels[j], n) {
      if env.levels[j].model == Some(n.model) {
        assert Disagrees(env.host, env.levels[j], n, column);
      }
    }
    assert PlaysOnly(env, i, n);
    LevelInferredExactlyWhenOne(env, n);
  }

  // ---- A column that disagrees ----------------------------------------------------------------------

  /** A row with a column that disagrees with a level is never granted at it, never valid at it, and never
      the owner of a role at it. */
  lemma DisagreeingRowStaysOut(env: Env, i: nat, n: Obj, f: Field)
    requires UniqueNames(env.levels) && i < |env.levels| && Disagrees(env.host, env.levels[i], n, f)
    ensures GrantLevel(env, Some(env.levels[i].name), Some(n)).Err?
    ensures GrantLevel(env, None, Some(n)).Ok? ==> GrantLevel(env, None, Some(n)).value != Some(env.levels[i].name)
    ensures forall h: Held :: ScopeOf(env, h.a) == Some(n) && h.a.level == Some(env.levels[i].name) ==> !IsValid(env, h)
    ensures forall role: Role :: OwnerOf(env, role) == Some(n) && ValidateOwner(env, role).Ok? ==>
              ValidateOwner(env, role).value.ownerLevel != Some(env.levels[i].name)
  {
    var name := env.levels[i].name;
    RankIsPosition(env.levels, name, i);
    assert ByName(env.levels, name) == Some(env.levels[i]);
    MembersPlay(env.host, env.levels[i], n);
    forall lvl | lvl in env.levels && lvl.name == name ensures !InLevel(env.host, lvl, n) {
      var j: nat :| j < |env.levels| && env.levels[j] == lvl;
      assert j == i;
    }
    LevelInferredExactlyWhenOne(env, n);
    if GrantLevel(env, None, Some(n)).Ok? {
      var j: nat :| PlaysOnly(env, j, n);
      assert j != i;
    }
    forall role: Role | OwnerOf(env, role) == Some(n) && ValidateOwner(env, role).Ok?
      ensures ValidateOwner(env, role).value.ownerLevel != Some(name)
    {
      OwnerLevelIsPlayed(env, role);
    }
  }

  lemma OwnerLevelIsPlayed(env: Env, role: Role)
    requires role.ownerId.Some? && ValidateOwner(env, role).Ok?
    ensures var checked := ValidateOwner(env, role).value;
            && checked.ownerLevel.Some? && checked.ownerLevel.value in env.roleOwnerLevels
            && OwnerOf(env, role).Some?
            && exists lvl :: lvl in env.levels && lvl.name == checked.ownerLevel.value && InLevel(env.host, lvl, OwnerOf(env, role).value)
  {
    var lvl :| lvl in LevelsMatching(env, OwnerOf(env, role).value) && lvl.name == ValidateOwner(env, role).value.ownerLevel.value;
  }

  /** The node filter keeps a row only through a level none of whose columns disagrees. */
  lemma FilteredNodePlays(env: Env, user: User, rows: set<Held>, perm: Option<Permission>, o: Obj)
    requires IsNodeModel(env.levels, o.model) && FilterKeeps(env, user, rows, o.model, perm, o)
    ensures exists t: nat :: t < |env.levels| && Plays(env.host, env.levels[t], o) && LevelKeeps(env, user, rows, t, perm, o)
  {
    var t: nat :| t < |env.levels| && InLevel(env.host, env.levels[t], o) && LevelKeeps(env, user, rows, t, perm, o);
    MembersPlay(env.host, env.levels[t], o);
  }

  // ---- Owners ---------------------------------------------------------------------------------------

  /** What may be stored as a role's owner and owner level: none and none, or a row at an allowed level that it
      plays, the level left out only where it plays no other. */
  ghost predicate OwnerFits(env: Env, owner: Option<Obj>, level: Option<string>) {
    if owner.None? then level.None?
    else
      && (level.None? ==> exists i: nat :: PlaysOnly(env, i, owner.value))
      && exists i: nat :: i < |env.levels| && Plays(env.host, env.levels[i], owner.value)
           && env.levels[i].name in env.roleOwnerLevels && (level.Some? ==> level.value == env.levels[i].name)
  }

  lemma OwnerValidatedExactlyWhenFit(env: Env, role: Role)
    requires role.ownerId.Some?
    ensures ValidateOwner(env, role).Ok? <==> OwnerOf(env, role).Some? && OwnerFits(env, OwnerOf(env, role), role.ownerLevel)
  {
    if OwnerOf(env, role).Some? {
      var n := OwnerOf(env, role).value;
      OneLevelMatches(env, n);
      if ValidateOwner(env, role).Ok? {
        OwnerLevelIsPlayed(env, role);
        var lvl :| lvl in env.levels && lvl.name == ValidateOwner(env, role).value.ownerLevel.value && InLevel(env.host, lvl, n);
        var i: nat :| i < |env.levels| && env.levels[i] == lvl;
        MembersPlay(env.host, lvl, n);
      }
      if OwnerFits(env, Some(n), role.ownerLevel) {
        var i: nat :| i < |env.levels| && Plays(env.host, env.levels[i], n)
                      && env.levels[i].name in env.roleOwnerLevels && (role.ownerLevel.Some? ==> role.ownerLevel.value == env.levels[i].name);
        MembersPlay(env.host, env.levels[i], n);
        assert env.levels[i] in LevelsMatching(env, n);
        if role.ownerLevel.None? {
          var j: nat :| PlaysOnly(env, j, n);
          assert i == j;
        }
      }
    }
  }

  /** In every reachable state the owner of a custom role resolves and plays the level stored with it, which is
      one that may own roles. */
  lemma OwnersSitAtAllowedLevels(env: Env, requests: seq<Request>, k: nat)
    requires k in Run(env, EMPTY_DB, requests).roles && Run(env, EMPTY_DB, requests).roles[k].ownerId.Some?
    ensures var role := Run(env, EMPTY_DB, requests).roles[k];
            && OwnerOf(env, role).Some? && role.ownerLevel.Some? && role.ownerLevel.value in env.roleOwnerLevels
            && exists i: nat :: i < |env.levels| && env.levels[i].name == role.ownerLevel.value
                                && Plays(env.host, env.levels[i], OwnerOf(env, role).value)
  {
    OwnerMoves.RunKeepsOwnersValidated(env, EMPTY_DB, requests);
    var role := Run(env, EMPTY_DB, requests).roles[k];
    assert ValidateOwner(env, role) == Ok(role);
    OwnerLevelIsPlayed(env, role);
    var lvl :| lvl in env.levels && lvl.name == role.ownerLevel.value && InLevel(env.host, lvl, OwnerOf(env, role).value);
    var i: nat :| i < |env.levels| && env.levels[i] == lvl;
    MembersPlay(env.host, lvl, OwnerOf(env, role).value);
  }
}
