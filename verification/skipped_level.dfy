/** A configuration the startup checks accept, with one node whose parent skips a level: the filter
    hides what the decision allows. */
module SkippedLevel {
  import opened Wrappers
  import opened HostModel
  import opened Hierarchy
  import opened Ancestry
  import opened Engine
  import opened Filters
  import opened FilterAgreement
  import Checks

  const ORG := Level("org", Some("Unit"), None, map["kind" := "org"])
  const REGION := Level("region", Some("Unit"), Some(["parent"]), map["kind" := "region"])
  const SITE := Level("site", Some("Site"), Some(["unit"]), map[])

  /** The site belongs to the organisation directly, with no region between them. */
  const TOP := Obj("Unit", "1")
  const PLACE := Obj("Site", "1")
  const DOCUMENT := Obj("Document", "1")

  const WORLD := Env(
    [ORG, REGION, SITE],
    Host(map[("Unit", "parent") := "Unit", ("Site", "unit") := "Unit", ("Document", "site") := "Site"],
         map[(PLACE, "unit") := TOP, (DOCUMENT, "site") := PLACE],
         map[(TOP, "kind") := "org"],
         {TOP, PLACE, DOCUMENT}),
    map["Document" := ["site"]], {}, true, {}, SelfOnly)

  lemma WorldIsForest()
    ensures Forest(WORLD)
  {
    var rank := (n: Obj) => if n.model == "Site" then 1 else 0;
    forall n: Obj | ParentOf(WORLD, n).Some? ensures n == PLACE && ParentOf(WORLD, n) == Some(TOP) {
      Accessors();
      assert Follow(WORLD.host, n, ParentAccessor(WORLD.levels, n.model).value).Some?;
    }
    RankDecreasingIsForest(WORLD, rank);
  }

  lemma Accessors()
    ensures ParentAccessor(WORLD.levels, "Unit") == Some(["parent"])
    ensures ParentAccessor(WORLD.levels, "Site") == Some(["unit"])
    ensures forall m :: m != "Unit" && m != "Site" ==> ParentAccessor(WORLD.levels, m).None?
  {
    assert WORLD.levels[1..] == [REGION, SITE] && [REGION, SITE][1..] == [SITE] && [SITE][1..] == [];
    forall m ensures ParentAccessor(WORLD.levels, m) == if m == "Unit" then Some(["parent"]) else ParentAccessor([SITE], m) {
      assert ParentAccessor(WORLD.levels, m) == ParentAccessor([REGION, SITE], m);
    }
    forall m ensures ParentAccessor([SITE], m) == if m == "Site" then Some(["unit"]) else None {
      assert ParentAccessor([SITE], m) == if m == "Site" then SITE.parent else ParentAccessor([], m);
    }
  }

  lemma Lands(m: Model, hop: Field)
    ensures Walk(WORLD.host, m, [hop]) ==
            if (m, hop) in WORLD.host.relations then Some(WORLD.host.relations[(m, hop)]) else None
  {
  }

  lemma WorldIsConfigured()
    ensures Configured(WORLD)
  {
    WorldIsForest();
    Accessors();
    Lands("Unit", "parent");
    Lands("Site", "unit");
    Lands("Document", "site");
  }

  lemma ChecksAreSilent()
    ensures Checks.AccessorsWalk(WORLD) && Checks.OwnersModeled(WORLD.levels, WORLD.roleOwnerLevels)
  {
    Lands("Unit", "parent");
    Lands("Site", "unit");
  }

  lemma PlaceIsUnderTop()
    ensures AncestorAt(WORLD, PLACE, 1) == Some(TOP)
    ensures ResolveAnchor(WORLD, DOCUMENT) == AtNode(PLACE)
  {
    Accessors();
    assert AncestorAt(WORLD, PLACE, 0) == Some(PLACE);
    assert ParentOf(WORLD, PLACE) == Follow(WORLD.host, PLACE, ["unit"]);
    assert !IsNodeModel(WORLD.levels, "Document");
  }

  lemma OnlySitesAreTargets(t: nat)
    requires IsTarget(WORLD, "Document", t)
    ensures t == 2
  {
    Lands("Document", "site");
  }

  /** `has_perm` allows the document through a grant on its organisation; `scope_filter_q` climbs to the
      organisation's rank, two accessors up, finds nothing there, and leaves the document out. */
  lemma FilterHidesAnAllowedObject(p: Permission)
    ensures Configured(WORLD) && Checks.AccessorsWalk(WORLD) && Checks.OwnersModeled(WORLD.levels, WORLD.roleOwnerLevels)
    ensures var rows := {LoneGrant(WORLD, 0, TOP, p)};
            && Decides(WORLD, LoneUser(), rows, Some(p), DOCUMENT)
            && !FilterKeeps(WORLD, LoneUser(), rows, DOCUMENT.model, Some(p), DOCUMENT)
  {
    WorldIsConfigured();
    ChecksAreSilent();
    PlaceIsUnderTop();
    assert !IsNodeModel(WORLD.levels, DOCUMENT.model) && InLevel(WORLD.host, WORLD.levels[0], TOP);
    LoneGrantDecides(WORLD, DOCUMENT, 0, TOP, 1, p);
    forall t: nat | IsTarget(WORLD, DOCUMENT.model, t) ensures t != 0 + 1 {
      OnlySitesAreTargets(t);
    }
    LoneGrantMisses(WORLD, DOCUMENT, 0, TOP, 1, p);
  }
}
