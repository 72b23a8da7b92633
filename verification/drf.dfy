/** The view layer's use of the engine: policy trees, scoped list querysets and the write guard. */
module Drf {
  import opened Wrappers
  import opened HostModel
  import opened Hierarchy
  import opened Ancestry
  import opened Engine
  import opened Filters
  import opened FilterAgreement
  import Decisions

  /** A permission of a method map: derived from the model's name, or fixed. */
  datatype Template = Verb(verb: string) | Fixed(permission: Permission)

  /** `perms_map` of one ScopedModelPermission. */
  type MethodMap = map<string, seq<Template>>

  /** A composed view permission. `Plain` is any permission other than ScopedModelPermission. */
  datatype Gate =
    | Scoped(table: MethodMap)
    | Plain(id: nat)
    | Both(left: Gate, right: Gate)
    | Either(left: Gate, right: Gate)
    | Inverted(inner: Gate)

  datatype Refusal = ImproperlyConfigured | MethodNotAllowed | PermissionDenied

  // ---- Policy trees ---------------------------------------------------------------------------------

  /** `_scoped_permission_leaves` */
  function Leaves(g: Gate): Result<seq<MethodMap>, Refusal> {
    match g
    case Scoped(table) => Ok([table])
    case Plain(_) => Ok([])
    case Both(left, right) =>
      var l := Leaves(left);
      if l.Err? then l
      else
        var r := Leaves(right);
        if r.Err? then r else Ok(l.value + r.value)
    case Either(left, right) =>
      var l := Leaves(left);
      if l.Err? then l
      else
        var r := Leaves(right);
        if r.Err? then r else if l.value + r.value != [] then Err(ImproperlyConfigured) else Ok([])
    case Inverted(inner) =>
      var l := Leaves(inner);
      if l.Err? then l else if l.value != [] then Err(ImproperlyConfigured) else Ok([])
  }

  datatype Turn = Left | Right

  /** An inversion has its operand on the left. */
  function Operand(g: Gate, turn: Turn): Option<Gate> {
    match g
    case Both(left, right) => Some(if turn.Left? then left else right)
    case Either(left, right) => Some(if turn.Left? then left else right)
    case Inverted(inner) => if turn.Left? then Some(inner) else None
    case _ => None
  }

  /** The subtree a sequence of turns leads to. */
  function At(g: Gate, path: seq<Turn>): Option<Gate>
    decreases path
  {
    if path == [] then Some(g)
    else match Operand(g, path[0])
      case Some(operand) => At(operand, path[1..])
      case None => None
  }

  ghost predicate HasLeaf(g: Gate, table: MethodMap) {
    exists path: seq<Turn> :: At(g, path) == Some(Scoped(table))
  }

  /** A scoped permission sits somewhere below an OR or a NOT. */
  ghost predicate Misplaced(g: Gate) {
    exists above: seq<Turn>, below: seq<Turn> ::
      && At(g, above).Some? && (At(g, above).value.Either? || At(g, above).value.Inverted?)
      && At(At(g, above).value, below).Some? && At(At(g, above).value, below).value.Scoped?
  }

  lemma LeafBelow(g: Gate, turn: Turn, table: MethodMap)
    requires Operand(g, turn).Some? && HasLeaf(Operand(g, turn).value, table)
    ensures HasLeaf(g, table)
  {
    var path :| At(Operand(g, turn).value, path) == Some(Scoped(table));
    assert ([turn] + path)[1..] == path;
    assert At(g, [turn] + path) == Some(Scoped(table));
  }

  lemma LeafAbove(g: Gate, table: MethodMap) returns (turn: Turn)
    requires HasLeaf(g, table) && !g.Scoped?
    ensures Operand(g, turn).Some? && HasLeaf(Operand(g, turn).value, table)
  {
    var path :| At(g, path) == Some(Scoped(table));
    turn := path[0];
    assert At(Operand(g, turn).value, path[1..]) == Some(Scoped(table));
  }

  lemma MisplacedBelow(g: Gate, turn: Turn)
    requires Operand(g, turn).Some? && Misplaced(Operand(g, turn).value)
    ensures Misplaced(g)
  {
    var child := Operand(g, turn).value;
    var above: seq<Turn>, below: seq<Turn> :|
      && At(child, above).Some? && (At(child, above).value.Either? || At(child, above).value.Inverted?)
      && At(At(child, above).value, below).Some? && At(At(child, above).value, below).value.Scoped?;
    assert ([turn] + above)[1..] == above;
    assert At(g, [turn] + above) == At(child, above);
  }

  lemma MisplacedHere(g: Gate, table: MethodMap)
    requires (g.Either? || g.Inverted?) && HasLeaf(g, table)
    ensures Misplaced(g)
  {
    var path :| At(g, path) == Some(Scoped(table));
    assert At(g, []) == Some(g);
  }

  /** A misplaced leaf sits at this node, or below one of its operands. */
  lemma MisplacedAbove(g: Gate)
    requires Misplaced(g)
    ensures ((g.Either? || g.Inverted?) && exists table :: HasLeaf(g, table))
            || exists turn :: Operand(g, turn).Some? && Misplaced(Operand(g, turn).value)
  {
    var above: seq<Turn>, below: seq<Turn> :|
      && At(g, above).Some? && (At(g, above).value.Either? || At(g, above).value.Inverted?)
      && At(At(g, above).value, below).Some? && At(At(g, above).value, below).value.Scoped?;
    if above == [] {
      assert HasLeaf(g, At(g, below).value.table);
    } else {
      var child := Operand(g, above[0]).value;
      assert At(child, above[1..]) == At(g, above);
      assert Misplaced(child);
    }
  }

  /** A tree is rejected if and only if a scoped permission lies below an OR or a NOT; otherwise the
      leaves found are exactly the scoped permissions in the tree. */
  lemma {:induction false} RejectedExactlyWhenMisplaced(g: Gate)
    ensures Leaves(g).Err? <==> Misplaced(g)
    ensures Leaves(g).Err? ==> Leaves(g).error == ImproperlyConfigured
    ensures Leaves(g).Ok? ==> forall table :: table in Leaves(g).value <==> HasLeaf(g, table)
  {
    match g
    case Scoped(table) => LoneLeaf(g);
    case Plain(_) => LoneLeaf(g);
    case Both(left, right) =>
      RejectedExactlyWhenMisplaced(left);
      RejectedExactlyWhenMisplaced(right);
      Operands(g);
    case Either(left, right) =>
      RejectedExactlyWhenMisplaced(left);
      RejectedExactlyWhenMisplaced(right);
      Operands(g);
      if Leaves(left).Ok? && Leaves(right).Ok? && Leaves(left).value + Leaves(right).value != [] {
        var table := (Leaves(left).value + Leaves(right).value)[0];
        assert table in Leaves(left).value || table in Leaves(right).value;
        MisplacedHere(g, table);
      }
    case Inverted(inner) =>
      RejectedExactlyWhenMisplaced(inner);
      Operands(g);
      if Leaves(inner).Ok? && Leaves(inner).value != [] {
        assert Leaves(inner).value[0] in Leaves(inner).value;
        MisplacedHere(g, Leaves(inner).value[0]);
      }
  }

  lemma LoneLeaf(g: Gate)
    requires g.Scoped? || g.Plain?
    ensures !Misplaced(g)
    ensures forall table :: HasLeaf(g, table) <==> g == Scoped(table)
  {
    forall table ensures HasLeaf(g, table) <==> g == Scoped(table) {
      assert At(g, []) == Some(g);
    }
  }

  /** What a composite contains is what its operands contain. */
  lemma Operands(g: Gate)
    requires !g.Scoped? && !g.Plain?
    ensures forall table :: HasLeaf(g, table) <==>
              HasLeaf(Operand(g, Left).value, table) || (Operand(g, Right).Some? && HasLeaf(Operand(g, Right).value, table))
    ensures Misplaced(g) <==>
              || ((g.Either? || g.Inverted?) && exists table :: HasLeaf(g, table))
              || Misplaced(Operand(g, Left).value)
              || (Operand(g, Right).Some? && Misplaced(Operand(g, Right).value))
  {
    forall table
      ensures HasLeaf(g, table) <==>
              HasLeaf(Operand(g, Left).value, table) || (Operand(g, Right).Some? && HasLeaf(Operand(g, Right).value, table))
    {
      if HasLeaf(g, table) {
        var turn := LeafAbove(g, table);
      }
      if HasLeaf(Operand(g, Left).value, table) {
        LeafBelow(g, Left, table);
      }
      if Operand(g, Right).Some? && HasLeaf(Operand(g, Right).value, table) {
        LeafBelow(g, Right, table);
      }
    }
    if Misplaced(g) {
      MisplacedAbove(g);
    }
    if (g.Either? || g.Inverted?) && exists table :: HasLeaf(g, table) {
      var table :| HasLeaf(g, table);
      MisplacedHere(g, table);
    }
    if Misplaced(Operand(g, Left).value) {
      MisplacedBelow(g, Left);
    }
    if Operand(g, Right).Some? && Misplaced(Operand(g, Right).value) {
      MisplacedBelow(g, Right);
    }
  }

  /** The path `p` parts from `q` to the left. */
  ghost predicate LeftOf(p: seq<Turn>, q: seq<Turn>) {
    exists k: nat :: k < |p| && k < |q| && p[..k] == q[..k] && p[k] == Left && q[k] == Right
  }

  lemma {:induction false} LeafPath(g: Gate, i: nat) returns (p: seq<Turn>)
    requires Leaves(g).Ok? && i < |Leaves(g).value|
    ensures At(g, p) == Some(Scoped(Leaves(g).value[i]))
  {
    match g {
      case Scoped(_) => p := [];
      case Both(left, right) =>
        if i < |Leaves(left).value| {
          var rest := LeafPath(left, i);
          p := [Left] + rest;
          assert p[1..] == rest;
        } else {
          var rest := LeafPath(right, i - |Leaves(left).value|);
          p := [Right] + rest;
          assert p[1..] == rest;
        }
    }
  }

  lemma PrependTurn(turn: Turn, p: seq<Turn>, q: seq<Turn>)
    requires LeftOf(p, q)
    ensures LeftOf([turn] + p, [turn] + q)
  {
    var k: nat :| k < |p| && k < |q| && p[..k] == q[..k] && p[k] == Left && q[k] == Right;
    assert ([turn] + p)[..k + 1] == [turn] + p[..k] == ([turn] + q)[..k + 1];
    assert ([turn] + p)[k + 1] == Left && ([turn] + q)[k + 1] == Right;
  }

  /** The leaves are found from left to right. */
  lemma {:induction false} LeavesRunLeftToRight(g: Gate, i: nat, j: nat) returns (p: seq<Turn>, q: seq<Turn>)
    requires Leaves(g).Ok? && i < j < |Leaves(g).value|
    ensures At(g, p) == Some(Scoped(Leaves(g).value[i])) && At(g, q) == Some(Scoped(Leaves(g).value[j])) && LeftOf(p, q)
  {
    match g {
      case Both(left, right) =>
        var split := |Leaves(left).value|;
        var pp, qq: seq<Turn>;
        if j < split {
          pp, qq := LeavesRunLeftToRight(left, i, j);
          p, q := [Left] + pp, [Left] + qq;
          PrependTurn(Left, pp, qq);
        } else if split <= i {
          pp, qq := LeavesRunLeftToRight(right, i - split, j - split);
          p, q := [Right] + pp, [Right] + qq;
          PrependTurn(Right, pp, qq);
        } else {
          pp := LeafPath(left, i);
          qq := LeafPath(right, j - split);
          p, q := [Left] + pp, [Right] + qq;
          assert p[..0] == q[..0] && p[0] == Left && q[0] == Right;
        }
        assert p[1..] == pp && q[1..] == qq;
    }
  }

  /** What a composed permission admits, given what its scoped and its plain parts do. */
  predicate Admits(g: Gate, scoped: MethodMap -> bool, plain: nat -> bool) {
    match g
    case Scoped(table) => scoped(table)
    case Plain(id) => plain(id)
    case Both(left, right) => Admits(left, scoped, plain) && Admits(right, scoped, plain)
    case Either(left, right) => Admits(left, scoped, plain) || Admits(right, scoped, plain)
    case Inverted(inner) => !Admits(inner, scoped, plain)
  }

  /** An accepted tree is the conjunction of its scoped leaves and of the rest of it. */
  lemma {:induction false} AcceptedIsConjunction(g: Gate, scoped: MethodMap -> bool, plain: nat -> bool)
    requires Leaves(g).Ok?
    ensures Admits(g, scoped, plain) <==>
              (forall table :: table in Leaves(g).value ==> scoped(table)) && Admits(g, _ => true, plain)
    ensures Leaves(g).value == [] ==> (Admits(g, scoped, plain) <==> Admits(g, _ => true, plain))
  {
    match g
    case Scoped(_) =>
    case Plain(_) =>
    case Both(left, right) =>
      AcceptedIsConjunction(left, scoped, plain);
      AcceptedIsConjunction(right, scoped, plain);
    case Either(left, right) =>
      AcceptedIsConjunction(left, scoped, plain);
      AcceptedIsConjunction(right, scoped, plain);
    case Inverted(inner) =>
      AcceptedIsConjunction(inner, scoped, plain);
  }

  // ---- Required permissions ---------------------------------------------------------------------------

  /** A model's label is its application and its name, with a dot between them. */
  function App(m: Model): string {
    if m == [] || m[0] == '.' then [] else [m[0]] + App(m[1..])
  }

  function Name(m: Model): string {
    if m == [] then [] else if m[0] == '.' then m[1..] else Name(m[1..])
  }

  function PermissionFor(t: Template, model: Model): Permission {
    match t
    case Verb(verb) => App(model) + "." + verb + "_" + Name(model)
    case Fixed(permission) => permission
  }

  /** `get_required_permissions` */
  function Mapped(table: MethodMap, verb: string, model: Model): Result<seq<Permission>, Refusal> {
    if verb !in table then Err(MethodNotAllowed)
    else Ok(seq(|table[verb]|, i requires 0 <= i < |table[verb]| => PermissionFor(table[verb][i], model)))
  }

  /** The method map a ScopedModelPermission starts from: reading asks for a permission too. */
  const DEFAULT_MAP: MethodMap := map[
    "GET" := [Verb("view")], "OPTIONS" := [], "HEAD" := [Verb("view")], "POST" := [Verb("add")],
    "PUT" := [Verb("change")], "PATCH" := [Verb("change")], "DELETE" := [Verb("delete")]]

  lemma {:induction false} LabelSplits(app: string, name: string)
    requires '.' !in app
    ensures App(app + "." + name) == app && Name(app + "." + name) == name
    decreases |app|
  {
    var whole := app + "." + name;
    if app == [] {
      assert whole == ['.'] + name;
    } else {
      assert whole[1..] == app[1..] + "." + name;
      LabelSplits(app[1..], name);
    }
  }

  /** A permission names its verb and its model: different verbs ask for different permissions. */
  lemma PermissionNamesVerbAndModel(app: string, name: string, verb: string, other: string)
    requires '.' !in app
    ensures PermissionFor(Verb(verb), app + "." + name) == app + "." + verb + "_" + name
    ensures PermissionFor(Verb(verb), app + "." + name) == PermissionFor(Verb(other), app + "." + name) ==> verb == other
  {
    LabelSplits(app, name);
    var p, q := app + "." + verb + "_" + name, app + "." + other + "_" + name;
    if p == q {
      assert |verb| == |other|;
      assert p[|app| + 1..][..|verb|] == verb && q[|app| + 1..][..|other|] == other;
    }
  }

  /** The verb each HTTP method stands for by default. */
  function VerbOf(httpMethod: string): Option<string> {
    if httpMethod == "GET" || httpMethod == "HEAD" then Some("view")
    else if httpMethod == "POST" then Some("add")
    else if httpMethod == "PUT" || httpMethod == "PATCH" then Some("change")
    else if httpMethod == "DELETE" then Some("delete")
    else None
  }

  /** By default each method asks for that one permission on the model, OPTIONS for none, and any other method
      is not allowed. */
  lemma DefaultMethodsAsk(app: string, name: string, httpMethod: string)
    requires '.' !in app
    ensures Mapped(DEFAULT_MAP, httpMethod, app + "." + name) ==
            match VerbOf(httpMethod)
            case Some(verb) => Ok([app + "." + verb + "_" + name])
            case None => if httpMethod == "OPTIONS" then Ok([]) else Err(MethodNotAllowed)
  {
    PermissionNamesVerbAndModel(app, name, if VerbOf(httpMethod).Some? then VerbOf(httpMethod).value else "", "");
    if VerbOf(httpMethod).Some? {
      assert httpMethod in DEFAULT_MAP && DEFAULT_MAP[httpMethod] == [Verb(VerbOf(httpMethod).value)];
      OneTemplateAsksOne(DEFAULT_MAP, httpMethod, app + "." + name, Verb(VerbOf(httpMethod).value));
    } else if httpMethod == "OPTIONS" {
      assert httpMethod in DEFAULT_MAP && DEFAULT_MAP[httpMethod] == [];
      assert Mapped(DEFAULT_MAP, httpMethod, app + "." + name).value == [];
    } else {
      assert httpMethod !in DEFAULT_MAP;
    }
  }

  lemma OneTemplateAsksOne(table: MethodMap, verb: string, model: Model, t: Template)
    requires verb in table && table[verb] == [t]
    ensures Mapped(table, verb, model) == Ok([PermissionFor(t, model)])
  {
    var asked := Mapped(table, verb, model).value;
    assert |asked| == 1 && asked[0] == PermissionFor(t, model);
    assert asked == [PermissionFor(t, model)];
  }

  /** The leaves of all the view's permissions, in order. */
  function AllLeaves(gates: seq<Gate>): seq<MethodMap> {
    if gates == [] then []
    else AllLeaves(gates[..|gates| - 1]) + (var l := Leaves(gates[|gates| - 1]); if l.Ok? then l.value else [])
  }

  /** No permission of the view is refused for this HTTP method. */
  predicate Resolves(g: Gate, verb: string) {
    Leaves(g).Ok? && forall table :: table in Leaves(g).value ==> verb in table
  }

  /** One of the leaves asks for `p`. */
  ghost predicate Asks(leaves: seq<MethodMap>, verb: string, model: Model, p: Permission) {
    exists table :: table in leaves && Mapped(table, verb, model).Ok? && p in Mapped(table, verb, model).value
  }

  predicate Distinct(ps: seq<Permission>) {
    forall i: nat, j: nat :: i < j < |ps| ==> ps[i] != ps[j]
  }

  /** `dict.fromkeys`: each permission where it first appears. */
  function Deduplicated(ps: seq<Permission>): (r: seq<Permission>)
    ensures Distinct(r) && (forall p :: p in r <==> p in ps)
  {
    if ps == [] then []
    else
      var earlier := Deduplicated(ps[..|ps| - 1]);
      assert ps == ps[..|ps| - 1] + [ps[|ps| - 1]];
      if ps[|ps| - 1] in earlier then earlier else earlier + [ps[|ps| - 1]]
  }

  /** Permissions keep the order in which they first appear. */
  lemma {:induction false} DeduplicationKeepsOrder(ps: seq<Permission>, i: nat, j: nat)
    requires i < j < |Deduplicated(ps)|
    ensures exists a: nat, b: nat :: a < b < |ps| && ps[a] == Deduplicated(ps)[i] && ps[b] == Deduplicated(ps)[j]
              && Deduplicated(ps)[j] !in ps[..b]
  {
    var short := ps[..|ps| - 1];
    if j < |Deduplicated(short)| {
      DeduplicationKeepsOrder(short, i, j);
      var a: nat, b: nat :| a < b < |short| && short[a] == Deduplicated(short)[i] && short[b] == Deduplicated(short)[j]
        && Deduplicated(short)[j] !in short[..b];
      assert ps[a] == short[a] && ps[b] == short[b] && ps[..b] == short[..b];
    } else {
      assert Deduplicated(short)[i] in short;
      var a: nat :| a < |short| && short[a] == Deduplicated(short)[i];
      assert ps[a] == short[a] && ps[|ps| - 1] == Deduplicated(ps)[j];
    }
  }

  /** The error `_required_scoped_permissions` raises is that of the first permission that has one. */
  ghost predicate FirstRefusal(gates: seq<Gate>, verb: string, refusal: Refusal) {
    exists i: nat :: i < |gates| && (forall j: nat :: j < i ==> Resolves(gates[j], verb)) && !Resolves(gates[i], verb)
      && refusal == if Leaves(gates[i]).Err? then ImproperlyConfigured else MethodNotAllowed
  }

  /** `result` is what the view requires of an HTTP method on a model. */
  ghost predicate IsRequired(gates: seq<Gate>, verb: string, model: Model, result: seq<Permission>) {
    && (forall g :: g in gates ==> Resolves(g, verb))
    && Distinct(result)
    && forall p :: p in result <==> Asks(AllLeaves(gates), verb, model, p)
  }

  lemma AllLeavesOneMore(gates: seq<Gate>, g: Gate)
    requires Leaves(g).Ok?
    ensures AllLeaves(gates + [g]) == AllLeaves(gates) + Leaves(g).value
  {
  }

  lemma AsksOneMore(leaves: seq<MethodMap>, table: MethodMap, verb: string, model: Model)
    requires verb in table
    ensures forall p :: Asks(leaves + [table], verb, model, p) <==>
              Asks(leaves, verb, model, p) || p in Mapped(table, verb, model).value
  {
  }

  // ---- What the leaves and the guard admit --------------------------------------------------------------

  /** `ScopedModelPermission.has_object_permission` */
  ghost predicate LeafAdmits(env: Env, user: User, rows: set<Held>, table: MethodMap, verb: string, o: Obj) {
    var asked := Mapped(table, verb, o.model);
    asked.Ok? && forall p :: p in asked.value ==> HasPerm(env, user, rows, p, Some(o))
  }

  /** The write guard's condition on the candidate object. */
  ghost predicate TargetAllowed(env: Env, user: User, rows: set<Held>, required: seq<Permission>, o: Obj) {
    if required == [] then UserCovers(env, user, rows, o)
    else forall p :: p in required ==> HasPerm(env, user, rows, p, Some(o))
  }

  /** The rows a list keeps. */
  ghost predicate Shown(env: Env, user: User, rows: set<Held>, required: seq<Permission>, o: Obj) {
    if required == [] then FilterKeeps(env, user, rows, o.model, None, o)
    else forall p :: p in required ==> FilterKeeps(env, user, rows, o.model, Some(p), o)
  }

  /** The required permissions together are what every scoped leaf asks. */
  lemma RequiredIsEveryLeaf(env: Env, user: User, rows: set<Held>, gates: seq<Gate>, verb: string, required: seq<Permission>, o: Obj)
    requires IsRequired(gates, verb, o.model, required)
    ensures (forall p :: p in required ==> HasPerm(env, user, rows, p, Some(o)))
            <==> (forall table :: table in AllLeaves(gates) ==> LeafAdmits(env, user, rows, table, verb, o))
  {
    LeavesHaveMethod(gates, verb);
    if forall p :: p in required ==> HasPerm(env, user, rows, p, Some(o)) {
      forall table | table in AllLeaves(gates) ensures LeafAdmits(env, user, rows, table, verb, o) {
        forall p | p in Mapped(table, verb, o.model).value ensures HasPerm(env, user, rows, p, Some(o)) {
          assert Asks(AllLeaves(gates), verb, o.model, p);
        }
      }
    }
    if forall table :: table in AllLeaves(gates) ==> LeafAdmits(env, user, rows, table, verb, o) {
      forall p | p in required ensures HasPerm(env, user, rows, p, Some(o)) {
        assert Asks(AllLeaves(gates), verb, o.model, p);
        var table :| table in AllLeaves(gates) && Mapped(table, verb, o.model).Ok? && p in Mapped(table, verb, o.model).value;
        assert LeafAdmits(env, user, rows, table, verb, o);
      }
    }
  }

  lemma {:induction false} LeavesHaveMethod(gates: seq<Gate>, verb: string)
    requires forall g :: g in gates ==> Resolves(g, verb)
    ensures forall table :: table in AllLeaves(gates) ==> verb in table
  {
    if gates != [] {
      assert Resolves(gates[|gates| - 1], verb);
      LeavesHaveMethod(gates[..|gates| - 1], verb);
    }
  }

  /** The list, the write guard and the object permissions agree: a list shows exactly the objects that
      the guard would let the caller write, and, with a permission required, exactly those that every
      scoped leaf admits. */
  lemma ListIsEveryLeaf(env: Env, user: User, rows: set<Held>, gates: seq<Gate>, verb: string, required: seq<Permission>, o: Obj)
    requires Configured(env) && !IsNodeModel(env.levels, o.model)
    requires ResolveAnchor(env, o).AtNode? ==> HeightsMatchRanks(env, ResolveAnchor(env, o).node)
    requires IsRequired(gates, verb, o.model, required)
    ensures Shown(env, user, rows, required, o) <==> TargetAllowed(env, user, rows, required, o)
    ensures required != [] ==>
              (Shown(env, user, rows, required, o) <==>
               forall table :: table in AllLeaves(gates) ==> LeafAdmits(env, user, rows, table, verb, o))
  {
    RequiredIsEveryLeaf(env, user, rows, gates, verb, required, o);
    FilterIsDecision(env, user, rows, None, o);
    forall p ensures FilterKeeps(env, user, rows, o.model, Some(p), o) <==> HasPerm(env, user, rows, p, Some(o)) {
      FilterIsDecision(env, user, rows, Some(p), o);
    }
  }

  /** Whatever the parents skip, nothing is listed that the guard or a leaf would refuse. */
  lemma ListNeverShowsMore(env: Env, user: User, rows: set<Held>, gates: seq<Gate>, verb: string, required: seq<Permission>, o: Obj)
    requires Typed(env.host) && ClimbsAreWalks(env)
    requires IsRequired(gates, verb, o.model, required) && Shown(env, user, rows, required, o)
    ensures TargetAllowed(env, user, rows, required, o)
    ensures required != [] ==> forall table :: table in AllLeaves(gates) ==> LeafAdmits(env, user, rows, table, verb, o)
  {
    RequiredIsEveryLeaf(env, user, rows, gates, verb, required, o);
    if required == [] {
      FilterIsSound(env, user, rows, None, o);
    } else {
      forall p | p in required ensures HasPerm(env, user, rows, p, Some(o)) {
        FilterIsSound(env, user, rows, Some(p), o);
      }
    }
  }

  /** What all the view's permissions say about the object, `plain` standing for those that are not scoped. */
  ghost predicate ViewAdmits(env: Env, user: User, rows: set<Held>, gates: seq<Gate>, verb: string, o: Obj, plain: nat -> bool) {
    forall g :: g in gates ==> Admits(g, table => LeafAdmits(env, user, rows, table, verb, o), plain)
  }

  lemma {:induction false} LeavesOfGates(gates: seq<Gate>)
    requires forall g :: g in gates ==> Leaves(g).Ok?
    ensures forall table :: table in AllLeaves(gates) <==> exists g :: g in gates && table in Leaves(g).value
  {
    if gates != [] {
      var init, last := gates[..|gates| - 1], gates[|gates| - 1];
      LeavesOfGates(init);
      assert gates == init + [last];
      forall table
        ensures table in AllLeaves(gates) <==> exists g :: g in gates && table in Leaves(g).value
      {
        if table in AllLeaves(init) {
          var g :| g in init && table in Leaves(g).value;
          assert g in gates;
        }
        if table in Leaves(last).value {
          assert last in gates;
        }
      }
    }
  }

  /** Whole views: an object passes all the permissions of an accepted view if and only if the list shows
      it and the parts that are not scoped admit it. So the list hides nothing its own view would admit. */
  lemma ViewAdmitsWhatItLists(
      env: Env, user: User, rows: set<Held>, gates: seq<Gate>, verb: string, required: seq<Permission>, o: Obj, plain: nat -> bool)
    requires Configured(env) && !IsNodeModel(env.levels, o.model)
    requires ResolveAnchor(env, o).AtNode? ==> HeightsMatchRanks(env, ResolveAnchor(env, o).node)
    requires IsRequired(gates, verb, o.model, required) && required != []
    ensures ViewAdmits(env, user, rows, gates, verb, o, plain) <==>
              Shown(env, user, rows, required, o) && forall g :: g in gates ==> Admits(g, _ => true, plain)
  {
    ListIsEveryLeaf(env, user, rows, gates, verb, required, o);
    assert forall g :: g in gates ==> Resolves(g, verb);
    LeavesOfGates(gates);
    var scoped := table => LeafAdmits(env, user, rows, table, verb, o);
    forall g | g in gates
      ensures Admits(g, scoped, plain) <==>
                (forall table :: table in Leaves(g).value ==> LeafAdmits(env, user, rows, table, verb, o)) && Admits(g, _ => true, plain)
    {
      AcceptedIsConjunction(g, scoped, plain);
    }
    if ViewAdmits(env, user, rows, gates, verb, o, plain) {
      forall g | g in gates
        ensures Admits(g, _ => true, plain)
        ensures forall table :: table in Leaves(g).value ==> LeafAdmits(env, user, rows, table, verb, o)
      {
        assert Admits(g, scoped, plain);
      }
    }
  }

  // ---- The view -----------------------------------------------------------------------------------------

  /** Adds what the leaves of one permission ask to what the earlier leaves asked. */
  method GateRequires(g: Gate, ghost earlier: seq<MethodMap>, asked: seq<Permission>, verb: string, model: Model)
    returns (r: Result<seq<Permission>, Refusal>)
    requires forall p :: p in asked <==> Asks(earlier, verb, model, p)
    ensures r.Ok? <==> Resolves(g, verb)
    ensures r.Ok? ==> forall p :: p in r.value <==> Asks(earlier + Leaves(g).value, verb, model, p)
    ensures r.Err? ==> r.error == if Leaves(g).Err? then ImproperlyConfigured else MethodNotAllowed
  {
    var leaves := Leaves(g);
    if leaves.Err? {
      RejectedExactlyWhenMisplaced(g);
      return Err(leaves.error);
    }
    var all := asked;
    assert earlier + leaves.value[..0] == earlier;
    for k := 0 to |leaves.value|
      invariant forall table :: table in leaves.value[..k] ==> verb in table
      invariant forall p :: p in all <==> Asks(earlier + leaves.value[..k], verb, model, p)
    {
      var mapped := Mapped(leaves.value[k], verb, model);
      if mapped.Err? {
        assert leaves.value[k] in leaves.value;
        return Err(MethodNotAllowed);
      }
      AsksOneMore(earlier + leaves.value[..k], leaves.value[k], verb, model);
      assert earlier + leaves.value[..k + 1] == earlier + leaves.value[..k] + [leaves.value[k]];
      all := all + mapped.value;
    }
    assert leaves.value[..|leaves.value|] == leaves.value;
    r := Ok(all);
  }

  /** One request's view: its permissions, and the requirements already resolved. */
  class View {
    const gates: seq<Gate>
    var required: map<(string, Model), seq<Permission>>

    constructor (gates: seq<Gate>)
      ensures Valid() && this.gates == gates && required == map[]
    {
      this.gates := gates;
      required := map[];
    }

    ghost predicate Valid()
      reads this
    {
      forall verb, model :: (verb, model) in required ==> IsRequired(gates, verb, model, required[(verb, model)])
    }

    /** `_required_scoped_permissions`: what every leaf asks, each once; or the first refusal, and then
        nothing is remembered. */
    method Required(verb: string, model: Model) returns (r: Result<seq<Permission>, Refusal>)
      requires Valid()
      modifies this
      ensures Valid()
      ensures r.Ok? ==> IsRequired(gates, verb, model, r.value) && required == old(required)[(verb, model) := r.value]
      ensures r.Err? ==> FirstRefusal(gates, verb, r.error) && required == old(required)
    {
      if (verb, model) in required {
        r := Ok(required[(verb, model)]);
        assert required == required[(verb, model) := r.value];
        return;
      }
      var asked: seq<Permission> := [];
      for i := 0 to |gates|
        invariant required == old(required)
        invariant forall j: nat :: j < i ==> Resolves(gates[j], verb)
        invariant forall p :: p in asked <==> Asks(AllLeaves(gates[..i]), verb, model, p)
      {
        var more := GateRequires(gates[i], AllLeaves(gates[..i]), asked, verb, model);
        if more.Err? {
          return Err(more.error);
        }
        asked := more.value;
        assert gates[..i + 1] == gates[..i] + [gates[i]];
        AllLeavesOneMore(gates[..i], gates[i]);
      }
      assert gates[..|gates|] == gates;
      var result := Deduplicated(asked);
      required := required[(verb, model) := result];
      r := Ok(result);
    }

    /** `get_queryset` on a list action: the filter keeps the rows every required permission keeps. */
    method Queryset(env: Env, user: User, rows: set<Held>, verb: string, model: Model) returns (r: Result<Q, Refusal>)
      requires Valid() && Queryable(env)
      modifies this
      ensures Valid()
      ensures r.Err? ==> FirstRefusal(gates, verb, r.error)
      ensures r.Ok? ==> (verb, model) in required
      ensures r.Ok? ==> forall o: Obj :: o.model == model ==>
                (Matches(env.host, r.value, o) <==> Shown(env, user, rows, required[(verb, model)], o))
    {
      var asked := Required(verb, model);
      if asked.Err? {
        return Err(asked.error);
      }
      var permissions := asked.value;
      if permissions == [] {
        var all := ScopeFilter(env, user, rows, model, None);
        return Ok(all);
      }
      var filters := ScopeFilter(env, user, rows, model, Some(permissions[0]));
      for i := 1 to |permissions|
        invariant Valid() && (verb, model) in required && required[(verb, model)] == permissions
        invariant forall o: Obj :: o.model == model ==>
          (Matches(env.host, filters, o) <==>
             forall j: nat :: j < i ==> FilterKeeps(env, user, rows, model, Some(permissions[j]), o))
      {
        var next := ScopeFilter(env, user, rows, model, Some(permissions[i]));
        filters := And(filters, next);
      }
      forall o: Obj | o.model == model
        ensures Matches(env.host, filters, o) <==> Shown(env, user, rows, permissions, o)
      {
        assert forall j: nat :: j < |permissions| ==> permissions[j] in permissions;
      }
      r := Ok(filters);
    }

    /** `_assert_target_scope` on the object as it would be persisted. */
    method AssertTargetScope(env: Env, user: User, rows: set<Held>, verb: string, candidate: Obj)
      returns (r: Result<(), Refusal>)
      requires Valid() && Forest(env)
      modifies this
      ensures Valid()
      ensures (verb, candidate.model) in required ==>
                (r == if TargetAllowed(env, user, rows, required[(verb, candidate.model)], candidate)
                      then Ok(()) else Err(PermissionDenied))
      ensures (verb, candidate.model) !in required ==> r.Err? && FirstRefusal(gates, verb, r.error)
    {
      var asked := Required(verb, candidate.model);
      if asked.Err? {
        assert (verb, candidate.model) in required ==> IsRequired(gates, verb, candidate.model, required[(verb, candidate.model)]);
        return Err(asked.error);
      }
      var permissions := asked.value;
      var allowed := true;
      if permissions == [] {
        allowed := Decisions.UserCoversObject(env, user, rows, candidate);
      } else {
        for i := 0 to |permissions|
          invariant Valid() && (verb, candidate.model) in required && required[(verb, candidate.model)] == permissions
          invariant allowed <==> forall j: nat :: j < i ==> HasPerm(env, user, rows, permissions[j], Some(candidate))
        {
          if allowed {
            allowed := Decisions.HasPermission(env, user, rows, permissions[i], Some(candidate));
          }
        }
        assert forall j: nat :: j < |permissions| ==> permissions[j] in permissions;
      }
      r := if allowed then Ok(()) else Err(PermissionDenied);
    }
  }
}
