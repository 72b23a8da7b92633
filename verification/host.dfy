/** The host project's tables, as far as authorization can see them: rows, their
    single-valued relations and their plain columns. Host rows do not change
    during a request, so they are one immutable value. */
module HostModel {
  import opened Wrappers

  type Model = string
  type Field = string

  /** A possibly empty run of relation hops. */
  type Hops = seq<Field>

  /** An accessor such as "unit__facility", split at its separators. */
  type Path = p: Hops | |p| > 0 witness ["parent"]

  /** Identity of a host object: its content type and its primary key. */
  datatype Obj = Obj(model: Model, pk: string)

  datatype Host = Host(
    relations: map<(Model, Field), Model>,   // declared relations and the model they target
    links: map<(Obj, Field), Obj>,           // non-null relation values
    columns: map<(Obj, Field), string>,      // plain column values
    rows: set<Obj>)                          // persisted objects

  /** Relation values respect the declared target models. */
  ghost predicate Typed(h: Host) {
    forall o: Obj, f: Field :: (o, f) in h.links ==>
      (o.model, f) in h.relations && h.links[(o, f)].model == h.relations[(o.model, f)]
  }

  /** `_follow`: the object at the end of a path, or nothing at the first null. */
  function Follow(h: Host, o: Obj, path: Hops): Option<Obj>
    decreases |path|
  {
    if path == [] then Some(o)
    else if (o, path[0]) in h.links then Follow(h, h.links[(o, path[0])], path[1..])
    else None
  }

  /** `_walk_relation_path`: the model a path statically lands on. */
  function Walk(h: Host, m: Model, path: Hops): Option<Model>
    decreases |path|
  {
    if path == [] then Some(m)
    else if (m, path[0]) in h.relations then Walk(h, h.relations[(m, path[0])], path[1..])
    else None
  }

  /** The loop form of `_follow`. */
  method FollowPath(h: Host, o: Obj, path: Hops) returns (r: Option<Obj>)
    ensures r == Follow(h, o, path)
  {
    var current := o;
    for i := 0 to |path|
      invariant Follow(h, o, path) == Follow(h, current, path[i..])
    {
      if (current, path[i]) !in h.links {
        return None;
      }
      current := h.links[(current, path[i])];
    }
    return Some(current);
  }

  /** Following a joined accessor is following its parts in turn. */
  lemma {:induction false} FollowJoined(h: Host, o: Obj, first: Hops, rest: Hops)
    ensures Follow(h, o, first + rest) ==
            match Follow(h, o, first) case None => None case Some(mid) => Follow(h, mid, rest)
    decreases |first|
  {
    if first == [] {
      assert first + rest == rest;
    } else {
      assert (first + rest)[0] == first[0];
      assert (first + rest)[1..] == first[1..] + rest;
      if (o, first[0]) in h.links {
        FollowJoined(h, h.links[(o, first[0])], first[1..], rest);
      }
    }
  }

  /** Over typed rows, a path can only end on the model it statically lands on. */
  lemma {:induction false} FollowLands(h: Host, o: Obj, path: Hops)
    requires Typed(h)
    ensures Follow(h, o, path).Some? ==>
              Walk(h, o.model, path) == Some(Follow(h, o, path).value.model)
    decreases |path|
  {
    if path != [] && (o, path[0]) in h.links {
      FollowLands(h, h.links[(o, path[0])], path[1..]);
    }
  }

  lemma {:induction false} WalkOneMore(h: Host, model: Model, path: Hops, i: nat)
    requires i < |path| && Walk(h, model, path[..i]).Some?
    ensures var at := Walk(h, model, path[..i]).value;
            Walk(h, model, path[..i + 1]) ==
            if (at, path[i]) in h.relations then Some(h.relations[(at, path[i])]) else None
    decreases i
  {
    if i > 0 {
      assert path[..i][0] == path[0] && path[..i][1..] == path[1..][..i - 1];
      assert path[..i + 1][0] == path[0] && path[..i + 1][1..] == path[1..][..i];
      WalkOneMore(h, h.relations[(model, path[0])], path[1..], i - 1);
    }
  }

  /** Walking a joined path is walking its parts in turn. */
  lemma {:induction false} WalkJoined(h: Host, m: Model, first: Hops, rest: Hops)
    ensures Walk(h, m, first + rest) ==
            match Walk(h, m, first) case None => None case Some(mid) => Walk(h, mid, rest)
    decreases |first|
  {
    if first == [] {
      assert first + rest == rest;
    } else {
      assert (first + rest)[0] == first[0] && (first + rest)[1..] == first[1..] + rest;
      if (m, first[0]) in h.relations {
        WalkJoined(h, h.relations[(m, first[0])], first[1..], rest);
      }
    }
  }
}
