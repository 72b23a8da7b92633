/** A configuration the startup checks accept, with an accessor that lands past the previous level: the filter
    lists what the decision refuses. And one that is safe although its levels do not share an accessor. */
module MisalignedAccessor {
  import opened Wrappers
  import opened HostModel
  import opened Hierarchy
  import opened Ancestry
  import opened Engine
  import opened Filters
  import opened FilterAgreement
  import opened Checks
  import AccessorSafety

  const REGION := Level("region", Some("Region"), None, map[])
  const DISTRICT := Level("district", Some("District"), Some(["region"]), map[])
  const FACILITY := Level("facility", Some("Facility"), Some(["region"]), map[])

  /** A region, a district and a facility with one and the same key; the facility lies in the region. */
  const TOP := Obj("Region", "1")
  const OTHER := Obj("District", "1")
  const PLACE := Obj("Facility", "1")

  const WORLD := Env(
    [REGION, DISTRICT, FACILITY],
    Host(map[("District", "region") := "Region", ("Facility", "region") := "Region"],
         map[(PLACE, "region") := TOP], map[], {TOP, OTHER, PLACE}),
    map[], {}, true, {}, SelfOnly)

  const MODELS: set<Model> := {"Region", "District", "Facility"}

  lemma Accessors()
    ensures forall m :: ParentAccessor(WORLD.levels, m) ==
                        if m == "District" || m == "Facility" then Some(["region"]) else None
  {
    assert WORLD.levels[1..] == [DISTRICT, FACILITY] && [DISTRICT, FACILITY][1..] == [FACILITY] && [FACILITY][1..] == [];
    forall m ensures ParentAccessor([FACILITY], m) == if m == "Facility" then Some(["region"]) else None {
      assert ParentAccessor([FACILITY], m) == if m == "Facility" then FACILITY.parent else ParentAccessor([], m);
    }
    forall m
      ensures ParentAccessor([DISTRICT, FACILITY], m) ==
              if m == "District" || m == "Facility" then Some(["region"]) else None
    {
      assert ParentAccessor([DISTRICT, FACILITY], m) == if m == "District" then DISTRICT.parent else ParentAccessor([FACILITY], m);
    }
    forall m ensures ParentAccessor(WORLD.levels, m) == ParentAccessor([DISTRICT, FACILITY], m) {
    }
  }

  lemma Lands(o: Obj)
    ensures Follow(WORLD.host, o, ["region"]) == if o == PLACE then Some(TOP) else None
    ensures Walk(WORLD.host, "District", ["region"]) == Some("Region")
    ensures Walk(WORLD.host, "Facility", ["region"]) == Some("Region")
  {
  }

  lemma WorldIsForest()
    ensures Forest(WORLD)
  {
    forall o: Obj | ParentOf(WORLD, o).Some? ensures o == PLACE && ParentOf(WORLD, o) == Some(TOP) {
      Accessors();
      Lands(o);
    }
    RankDecreasingIsForest(WORLD, (o: Obj) => if o == PLACE then 1 else 0);
  }

  lemma ChecksAreSilent(e: CheckError)
    ensures !Reports(WORLD, MODELS, e)
    ensures Typed(WORLD.host) && Queryable(WORLD)
  {
    Lands(PLACE);
    WorldIsForest();
  }

  /** Nothing is above the facility but its region. */
  lemma OnlyTheRegionIsAbove(top: Obj, d: nat)
    requires AncestorAt(WORLD, PLACE, d) == Some(top)
    ensures top == PLACE || top == TOP
  {
    Accessors();
    Lands(PLACE);
    Lands(TOP);
    assert AncestorAt(WORLD, PLACE, 0) == Some(PLACE) && AncestorAt(WORLD, PLACE, 1) == Some(TOP);
    assert AncestorAt(WORLD, PLACE, 2) == None;
    if d > 2 {
      EndsForGood(WORLD, PLACE, 2, d - 2);
    }
  }

  lemma QueryKeeps(p: Permission)
    ensures FilterKeeps(WORLD, LoneUser(), {LoneGrant(WORLD, 1, OTHER, p)}, PLACE.model, Some(p), PLACE)
    ensures UpPath(WORLD.levels, 2, 1) == Some(["region"])
    ensures Matches(WORLD.host, PathPk(["region"], OTHER.pk), PLACE)
  {
    var h := LoneGrant(WORLD, 1, OTHER, p);
    ChecksAreSilent(E001);
    Lands(PLACE);
    LoneGrantIsValid(WORLD, 1, OTHER, p);
    assert UpPath(WORLD.levels, 1, 1) == Some([]);
    assert ["region"] + [] == ["region"];
    assert UpPath(WORLD.levels, 2, 1) == Some(["region"] + []);
    assert ClimbFinds(WORLD, h.a, 2, PLACE);
    assert h in {h};
    assert LevelKeeps(WORLD, LoneUser(), {h}, 2, Some(p), PLACE);
    assert WORLD.levels[2] in WORLD.levels;
  }

  /** No rule reports anything, and a grant on the district makes `accessible_nodes` and `scope_filter_q` list
      a facility of another branch, whose region has the district's key; `has_perm` refuses it. */
  lemma FilterListsARefusedObject(p: Permission)
    ensures forall e :: !Reports(WORLD, MODELS, e)
    ensures Typed(WORLD.host) && Queryable(WORLD)
    ensures var rows := {LoneGrant(WORLD, 1, OTHER, p)};
            && FilterKeeps(WORLD, LoneUser(), rows, PLACE.model, Some(p), PLACE)
            && !Decides(WORLD, LoneUser(), rows, Some(p), PLACE)
  {
    var h := LoneGrant(WORLD, 1, OTHER, p);
    forall e ensures !Reports(WORLD, MODELS, e) {
      ChecksAreSilent(e);
    }
    ChecksAreSilent(E001);
    QueryKeeps(p);
    LoneGrantIsValid(WORLD, 1, OTHER, p);
    assert WORLD.levels[2] in WORLD.levels;
    assert ResolveAnchor(WORLD, PLACE) == AtNode(PLACE);
    if Covers(WORLD, h, AtNode(PLACE)) {
      ReachesScope(WORLD, h.a, PLACE);
      var d: nat :| AncestorAt(WORLD, PLACE, d) == Some(OTHER);
      OnlyTheRegionIsAbove(OTHER, d);
      assert false;
    }
  }

  // ---- Safe without a shared accessor -----------------------------------------------------------------

  /** Units in units; the lowest level climbs two of them at once. */
  const DOUBLE := Env(
    [Level("top", Some("Unit"), None, map["kind" := "top"]),
     Level("middle", Some("Unit"), Some(["parent"]), map["kind" := "middle"]),
     Level("low", Some("Unit"), Some(["parent", "parent"]), map["kind" := "low"])],
    Host(map[("Unit", "parent") := "Unit"], map[], map[], {}), map[], {}, true, {}, SelfOnly)

  /** So sharing one accessor is not necessary: two parent steps are as safe as one. */
  lemma TwoStepsAreSafe()
    ensures AccessorSafety.SafeForEveryHost(DOUBLE) && !AccessorsAligned(DOUBLE)
  {
    var levels := DOUBLE.levels;
    assert levels[1..][0] == levels[1];
    assert ParentAccessor(levels, "Unit") == ParentAccessor(levels[1..], "Unit") == Some(["parent"]);
    var once: Path, twice: Path := ["parent"], ["parent", "parent"];
    assert once[1..] == [] && twice[1..] == once;
    assert ParentSteps(DOUBLE, "Unit", []);
    assert Walk(DOUBLE.host, "Unit", once) == Some("Unit");
    assert ParentSteps(DOUBLE, "Unit", once);
    assert Walk(DOUBLE.host, "Unit", twice) == Walk(DOUBLE.host, "Unit", once);
    assert ParentSteps(DOUBLE, "Unit", twice);
    assert ClimbsAreWalks(DOUBLE);
    AccessorSafety.WalksAreSafe(DOUBLE);
    assert levels[2].parent != ParentAccessor(levels, "Unit");
  }
}
