/** Assignment rows over arbitrary interleavings. An operation authorizes first and writes later, so
    other actors may act in between: the steps here are the single writes alone, under no guard but
    the database's own. */
module Lifecycle {
  import opened Ancestry
  import opened Engine
  import opened Authority

  /** One write by some actor: an insert by `grant`, a conditional status update, or any change of roles. */
  datatype Write =
    | Insert(actor: User, req: GrantRequest)
    | Update(actor: User, now: int, row: nat, t: Transition, reason: string)
    | ChangeRoles(roles: map<nat, Role>, nextRole: nat)

  function Apply(env: Env, db: Db, w: Write): Db {
    match w
    case Insert(actor, req) =>
      var level := GrantLevel(env, req.level, req.scope);
      if level.Err? || Taken(db, NewRow(db, req, level.value, actor)) then db
      else Inserted(db, NewRow(db, req, level.value, actor))
    case Update(actor, now, row, t, reason) =>
      (match ConditionalUpdate(db, row, t, actor, now, reason)
       case Ok(next) => next
       case Err(_) => db)
    case ChangeRoles(roles, nextRole) => db.(roles := roles, nextRole := nextRole)
  }

  function ApplyAll(env: Env, db: Db, ws: seq<Write>): Db
    decreases |ws|
  {
    if ws == [] then db else ApplyAll(env, Apply(env, db, ws[0]), ws[1..])
  }

  /** Every managed operation is at most one such write. */
  lemma OperationsAreWrites(env: Env, db: Db, r: Request) returns (w: Write)
    ensures After(env, db, r) == Apply(env, db, w)
  {
    w := ChangeRoles(db.roles, db.nextRole);
    if Perform(env, db, r).Ok? {
      match r.op {
        case OpGrant(req) => w := Insert(r.actor, req);
        case OpTransition(row, t, reason) => w := Update(r.actor, r.now, row, t, reason);
        case _ => w := ChangeRoles(After(env, db, r).roles, After(env, db, r).nextRole);
      }
    }
  }

  // ---- Status histories -------------------------------------------------------------------------

  /** An arrow of the lifecycle diagram (ACTIVE and SUSPENDED back and forth, REVOKED final), or no change. */
  predicate Arrow(s: Status, t: Status) {
    s == t || (s == ACTIVE && t == SUSPENDED) || (s == SUSPENDED && t == ACTIVE) || (s != REVOKED && t == REVOKED)
  }

  /** The row `k` after each write, from its present state on. */
  function History(env: Env, db: Db, ws: seq<Write>, k: nat): (h: seq<Assignment>)
    requires k in db.assignments && k < db.nextAssignment
    ensures |h| == |ws| + 1 && h[0] == db.assignments[k]
    decreases |ws|
  {
    [db.assignments[k]] + if ws == [] then [] else History(env, Apply(env, db, ws[0]), ws[1..], k)
  }

  /** What one write may do to a row: move along an arrow, and on revocation record it. Identity, scope
      and validity window never change, and a revoked row never changes at all. */
  predicate RowStep(a: Assignment, b: Assignment) {
    && Arrow(a.status, b.status)
    && b == a.(status := b.status, revokedBy := b.revokedBy, revokedAt := b.revokedAt, reason := b.reason)
    && (a.status == b.status || b.status != REVOKED ==>
          b.revokedBy == a.revokedBy && b.revokedAt == a.revokedAt && b.reason == a.reason)
    && (a.status == REVOKED ==> b == a)
    && (a.status != REVOKED && b.status == REVOKED ==> b.revokedBy.Some? && b.revokedAt.Some?)
  }

  lemma WriteIsRowStep(env: Env, db: Db, w: Write, k: nat)
    requires k in db.assignments && k < db.nextAssignment
    ensures var next := Apply(env, db, w);
            k in next.assignments && k < next.nextAssignment && RowStep(db.assignments[k], next.assignments[k])
  {
  }

  /** Every row's history is a path of the state machine, whoever writes and in whatever order. */
  lemma {:induction false} HistoryIsPath(env: Env, db: Db, ws: seq<Write>, k: nat)
    requires k in db.assignments && k < db.nextAssignment
    ensures var h := History(env, db, ws, k);
            && (forall i: nat :: i < |ws| ==> RowStep(h[i], h[i + 1]))
            && k in ApplyAll(env, db, ws).assignments && ApplyAll(env, db, ws).assignments[k] == h[|ws|]
    decreases |ws|
  {
    if ws != [] {
      WriteIsRowStep(env, db, ws[0], k);
      HistoryIsPath(env, Apply(env, db, ws[0]), ws[1..], k);
    }
  }

  /** Once revoked, always revoked, and the audit record stands. */
  lemma {:induction false} RevokedForGood(env: Env, db: Db, ws: seq<Write>, k: nat)
    requires k in db.assignments && k < db.nextAssignment && db.assignments[k].status == REVOKED
    ensures k in ApplyAll(env, db, ws).assignments && ApplyAll(env, db, ws).assignments[k] == db.assignments[k]
    decreases |ws|
  {
    if ws != [] {
      RevokedForGood(env, Apply(env, db, ws[0]), ws[1..], k);
    }
  }

  // ---- Reachable states -------------------------------------------------------------------------

  /** The shapes `grant` can store: on a node with its level, at a root level, or flat. */
  predicate Shaped(a: Assignment) {
    (a.scopeCt.Some? <==> a.scopeId.Some?) && (a.scopeId.Some? ==> a.level.Some?)
  }

  predicate Audited(a: Assignment) {
    a.revokedAt.Some? <==> a.status == REVOKED
  }

  predicate SameGrant(a: Assignment, b: Assignment) {
    a.user == b.user && a.role == b.role && a.level == b.level && a.scopeCt == b.scopeCt && a.scopeId == b.scopeId
  }

  /** On stored shapes the three partial constraints, nulls distinct, amount to one: no two live rows
      grant the same role to the same user at the same scope. */
  lemma ConstraintsCoverEveryShape(a: Assignment, b: Assignment)
    requires Shaped(a) && Shaped(b)
    ensures Clashes(a, b) <==> Live(a) && Live(b) && SameGrant(a, b)
  {
  }

  ghost predicate Sane(db: Db) {
    && (forall k :: k in db.assignments ==>
          db.assignments[k].pk == k < db.nextAssignment && Shaped(db.assignments[k]) && Audited(db.assignments[k]))
    && (forall j, k ::
          (j in db.assignments && k in db.assignments && j != k && Live(db.assignments[j]) && Live(db.assignments[k])) ==>
          !SameGrant(db.assignments[j], db.assignments[k]))
  }

  lemma InsertKeepsSane(db: Db, a: Assignment)
    requires Sane(db) && a.pk == db.nextAssignment && Shaped(a) && Audited(a) && !Taken(db, a) && Live(a)
    ensures Sane(Inserted(db, a))
  {
  }

  lemma UpdateKeepsSane(db: Db, pk: nat, t: Transition, actor: User, now: int, reason: string)
    requires Sane(db) && ConditionalUpdate(db, pk, t, actor, now, reason).Ok?
    ensures Sane(ConditionalUpdate(db, pk, t, actor, now, reason).value)
  {
    var prior, next := db.assignments[pk], Moved(db.assignments[pk], t, actor, now, reason);
    assert SameGrant(prior, next) && Live(prior);
  }

  lemma WriteKeepsSane(env: Env, db: Db, w: Write)
    requires Sane(db)
    ensures Sane(Apply(env, db, w))
  {
    if Apply(env, db, w) != db {
      match w {
        case Insert(actor, req) => InsertKeepsSane(db, NewRow(db, req, GrantLevel(env, req.level, req.scope).value, actor));
        case Update(actor, now, row, t, reason) => UpdateKeepsSane(db, row, t, actor, now, reason);
        case ChangeRoles(_, _) =>
      }
    }
  }

  /** In every reachable state live grants are unique, rows have one of the three shapes, and
      `revoked_at` is set exactly on revoked rows. */
  lemma {:induction false} ReachableIsSane(env: Env, db: Db, ws: seq<Write>)
    requires Sane(db)
    ensures Sane(ApplyAll(env, db, ws))
    decreases |ws|
  {
    if ws != [] {
      WriteKeepsSane(env, db, ws[0]);
      ReachableIsSane(env, Apply(env, db, ws[0]), ws[1..]);
    }
  }

  /** Whole runs of managed operations are such interleavings. */
  lemma {:induction false} RunsAreWrites(env: Env, db: Db, requests: seq<Request>) returns (ws: seq<Write>)
    ensures Run(env, db, requests) == ApplyAll(env, db, ws)
    decreases |requests|
  {
    ws := [];
    if requests != [] {
      var w := OperationsAreWrites(env, db, requests[0]);
      var rest := RunsAreWrites(env, After(env, db, requests[0]), requests[1..]);
      ws := [w] + rest;
      assert ws[1..] == rest;
    }
  }

  /** Whatever managed operations run from an empty database, live grants stay unique. */
  lemma RunsKeepLiveGrantsUnique(env: Env, requests: seq<Request>)
    ensures Sane(Run(env, EMPTY_DB, requests))
  {
    var ws := RunsAreWrites(env, EMPTY_DB, requests);
    ReachableIsSane(env, EMPTY_DB, ws);
  }
}
