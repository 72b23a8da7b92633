/** Delegation under concurrency: an operation reads its actor's rows at one moment, the permissions of their
    roles at a later one, and writes at a later one still, and others act in between. All that is locked
    meanwhile is the operation's own role row (scoped_access/models.py:173-181). */
module Interleaving {
  import opened Wrappers
  import opened HostModel
  import opened Ancestry
  import opened Engine
  import opened Authority
  import opened Delegation

  /** What an operation has decided to write. */
  datatype Change =
    | Insert(req: GrantRequest, level: Option<string>, actor: User)
    | Move(row: nat, t: Transition, actor: User, now: int, reason: string)
    | AddTo(role: nat, perms: set<Permission>)
    | RemoveFrom(role: nat, perms: set<Permission>)
    | Create(draft: Role)
    | Replace(next: Role)
    | Drop(role: nat)

  /** All the checks of an operation, on the tables as they are, given what was read of the actor's rows; the
      database's own constraints come with the write. */
  ghost function Check(env: Env, db: Db, rows: set<Held>, r: Request): Result<Change, Error> {
    match r.op
    case OpGrant(req) =>
      var level := GrantLevel(env, req.level, req.scope);
      if level.Err? then Err(level.error)
      else if req.validFrom.Some? && req.validUntil.Some? && req.validUntil.value <= req.validFrom.value then Err(WindowError)
      else if req.role !in db.roles then Err(Missing)
      else if !RoleAssignable(env, db.roles[req.role], level.value, req.scope) then Err(NotAssignable)
      else if !CanManageAssignment(env, r.actor, rows, req.scope) then Err(NotManager)
      else if !CanAssignRole(env, r.actor, rows, db.roles[req.role], level.value, req.scope) then Err(NotDelegable)
      else Ok(Insert(req, level.value, r.actor))
    case OpTransition(row, t, reason) =>
      if row !in db.assignments then Err(Missing)
      else
        var a := db.assignments[row];
        if !CanManageAssignment(env, r.actor, rows, ScopeOf(env, a)) then Err(NotManager)
        else if t == Reactivate && a.status != SUSPENDED then Err(BadTransition(a.status))
        else if t == Reactivate && a.role !in db.roles then Err(Missing)
        else if t == Reactivate && !CanAssignRole(env, r.actor, rows, db.roles[a.role], a.level, ScopeOf(env, a))
        then Err(NotDelegable)
        else Ok(Move(row, t, r.actor, r.now, reason))
    case OpCreateRole(fields, perms) =>
      var checked := ValidateOwner(env, Draft(db.nextRole, fields));
      if checked.Err? then Err(checked.error)
      else if !CanManageRole(env, r.actor, rows, checked.value) then Err(NotManager)
      else if exists p :: p in perms - checked.value.perms && !CanGrantPermission(env, r.actor, rows, checked.value, p)
      then Err(NotDelegable)
      else Ok(Create(checked.value.(perms := checked.value.perms + perms)))
    case OpAddPermissions(role, perms) =>
      if role !in db.roles then Err(Missing)
      else if !CanManageRole(env, r.actor, rows, db.roles[role]) then Err(NotManager)
      else if exists p :: p in perms - db.roles[role].perms && !CanGrantPermission(env, r.actor, rows, db.roles[role], p)
      then Err(NotDelegable)
      else Ok(AddTo(role, perms))
    case OpRemovePermissions(role, perms) =>
      if role !in db.roles then Err(Missing)
      else if !CanManageRole(env, r.actor, rows, db.roles[role]) then Err(NotManager)
      else Ok(RemoveFrom(role, perms))
    case OpUpdateRole(role, c) =>
      if role !in db.roles then Err(Missing)
      else if !CanManageRole(env, r.actor, rows, db.roles[role]) then Err(NotManager)
      else
        var checked := ValidateOwner(env, Edited(db.roles[role], c));
        if checked.Err? then Err(checked.error)
        else if !CanManageRole(env, r.actor, rows, checked.value) then Err(NotManager)
        else Ok(Replace(checked.value))
    case OpDeleteRole(role) =>
      if role !in db.roles then Err(Missing)
      else if !CanManageRole(env, r.actor, rows, db.roles[role]) then Err(NotManager)
      else Ok(Drop(role))
  }

  /** The write, on the tables as they are by then. */
  function Write(db: Db, ch: Change): Result<Db, Error> {
    match ch
    case Insert(req, level, actor) =>
      var a := NewRow(db, req, level, actor);
      if req.role !in db.roles then Err(Missing)
      else if Taken(db, a) then Err(Duplicate) else Ok(Inserted(db, a))
    case Move(row, t, actor, now, reason) => ConditionalUpdate(db, row, t, actor, now, reason)
    case AddTo(role, perms) =>
      if role !in db.roles then Err(Missing) else Ok(Stored(db, db.roles[role].(perms := db.roles[role].perms + perms)))
    case RemoveFrom(role, perms) =>
      if role !in db.roles then Err(Missing) else Ok(Stored(db, db.roles[role].(perms := db.roles[role].perms - perms)))
    case Create(draft) =>
      var role := draft.(pk := db.nextRole);
      if NameTaken(db, role) then Err(Duplicate) else Ok(Created(db, role))
    case Replace(next) =>
      if next.pk !in db.roles then Err(Missing)
      else
        var role := next.(perms := db.roles[next.pk].perms);
        if NameTaken(db, role) then Err(Duplicate) else Ok(Stored(db, role))
    case Drop(role) =>
      if role !in db.roles then Err(Missing)
      else if exists k :: k in db.assignments && db.assignments[k].role == role then Err(RoleInUse)
      else Ok(db.(roles := db.roles - {role}))
  }

  /** The tables after the write, or as they were when a constraint refuses it. */
  function Written(db: Db, ch: Change): Db {
    match Write(db, ch)
    case Ok(next) => next
    case Err(_) => db
  }

  /** Reading, checking and writing in one go. */
  ghost function CheckThenWrite(env: Env, db: Db, r: Request): Db {
    match Check(env, db, EffectiveRows(db, r.actor.pk, r.now), r)
    case Ok(ch) => Written(db, ch)
    case Err(_) => db
  }

  lemma AssignmentOperationIsCheckThenWrite(env: Env, db: Db, r: Request)
    requires r.op.OpGrant? || r.op.OpTransition?
    ensures After(env, db, r) == CheckThenWrite(env, db, r)
  {
  }

  /** The write of an update finds the role as it was checked. */
  lemma ReplacementWritesEdit(env: Env, db: Db, pk: nat, c: RoleChanges)
    requires Integrity(db) && pk in db.roles && ValidateOwner(env, Edited(db.roles[pk], c)).Ok?
    ensures var next := ValidateOwner(env, Edited(db.roles[pk], c)).value;
            Write(db, Replace(next)) == if NameTaken(db, next) then Err(Duplicate) else Ok(Stored(db, next))
  {
    ValidOwnerIsSound(env, Edited(db.roles[pk], c));
  }

  lemma UpdateIsCheckThenWrite(env: Env, db: Db, r: Request)
    requires Integrity(db) && r.op.OpUpdateRole?
    ensures After(env, db, r) == CheckThenWrite(env, db, r)
  {
    if r.op.role in db.roles && ValidateOwner(env, Edited(db.roles[r.op.role], r.op.changes)).Ok? {
      ReplacementWritesEdit(env, db, r.op.role, r.op.changes);
    }
  }

  /** A role that has just been created changes nobody's rows. */
  lemma CreationKeepsRows(db: Db, role: Role, user: nat, now: int)
    requires Integrity(db) && role.pk == db.nextRole
    ensures EffectiveRows(Created(db, role), user, now) == EffectiveRows(db, user, now)
  {
    assert forall k :: k in db.assignments ==> db.assignments[k].role != role.pk;
    assert ActiveRows(Created(db, role), user) == ActiveRows(db, user);
  }

  /** Granting permissions to the role just created. */
  lemma PermissionsOfCreated(env: Env, db: Db, actor: User, now: int, role: Role, perms: set<Permission>)
    requires Integrity(db) && role.pk == db.nextRole && CanManageRole(env, actor, EffectiveRows(db, actor.pk, now), role)
    ensures var rows, full := EffectiveRows(db, actor.pk, now), role.(perms := role.perms + perms);
            && (NameTaken(db, role) <==> NameTaken(db, full))
            && AddPermissions(env, Created(db, role), actor, now, role.pk, perms) ==
               if exists p :: p in perms - role.perms && !CanGrantPermission(env, actor, rows, role, p)
               then Err(NotDelegable) else Ok(Created(db, full))
  {
    var full := role.(perms := role.perms + perms);
    CreationKeepsRows(db, role, actor.pk, now);
    assert Stored(Created(db, role), full) == Created(db, full);
  }

  lemma CreationIsCheckThenWrite(env: Env, db: Db, r: Request)
    requires Integrity(db) && r.op.OpCreateRole?
    ensures After(env, db, r) == CheckThenWrite(env, db, r)
  {
    var checked := ValidateOwner(env, Draft(db.nextRole, r.op.fields));
    if checked.Ok? {
      ValidOwnerIsSound(env, Draft(db.nextRole, r.op.fields));
      var role := checked.value;
      assert role.perms + {} == role.perms;
      if CanManageRole(env, r.actor, EffectiveRows(db, r.actor.pk, r.now), role) {
        PermissionsOfCreated(env, db, r.actor, r.now, role, r.op.perms);
      }
    }
  }

  lemma PermissionEditIsCheckThenWrite(env: Env, db: Db, r: Request)
    requires r.op.OpAddPermissions? || r.op.OpRemovePermissions? || r.op.OpDeleteRole?
    ensures After(env, db, r) == CheckThenWrite(env, db, r)
  {
  }

  /** Doing all in one go is the operation. */
  lemma OperationIsCheckThenWrite(env: Env, db: Db, r: Request)
    requires Integrity(db)
    ensures After(env, db, r) == CheckThenWrite(env, db, r)
  {
    match r.op {
      case OpGrant(_) => AssignmentOperationIsCheckThenWrite(env, db, r);
      case OpTransition(_, _, _) => AssignmentOperationIsCheckThenWrite(env, db, r);
      case OpUpdateRole(_, _) => UpdateIsCheckThenWrite(env, db, r);
      case OpCreateRole(_, _) => CreationIsCheckThenWrite(env, db, r);
      case _ => PermissionEditIsCheckThenWrite(env, db, r);
    }
  }

  // ---- Runs ---------------------------------------------------------------------------------------

  /** The role row an operation locks before it checks. */
  function LockOf(db: Db, op: Op): Option<nat> {
    match op
    case OpGrant(req) => Some(req.role)
    case OpTransition(row, Reactivate, _) => if row in db.assignments then Some(db.assignments[row].role) else None
    case OpTransition(_, _, _) => None
    case OpCreateRole(_, _) => None
    case OpAddPermissions(role, _) => Some(role)
    case OpRemovePermissions(role, _) => Some(role)
    case OpUpdateRole(role, _) => Some(role)
    case OpDeleteRole(role) => Some(role)
  }

  /** An operation under way: it has read its actor's rows, or decided what to write. */
  datatype Phase =
    | Reading(r: Request, rows: set<Held>, lock: Option<nat>)
    | Pending(change: Change, lock: Option<nat>)

  datatype System = System(db: Db, running: map<nat, Phase>)

  datatype Event =
    | Read(pid: nat, r: Request)       // lock the role, read the actor's effective rows with their roles
    | Decide(pid: nat)                 // read those roles' permissions, check
    | Finish(pid: nat)                 // write and commit
    | Abort(pid: nat)                  // a receiver failed

  predicate Free(s: System, lock: Option<nat>) {
    lock.None? || forall q :: q in s.running ==> s.running[q].lock != lock
  }

  /** The rows as the second read completes them: each role with its present permissions. */
  function Refreshed(db: Db, rows: set<Held>): set<Held> {
    set h | h in rows ::
      h.(role := h.role.(perms := if h.role.pk in db.roles then db.roles[h.role.pk].perms else {}))
  }

  predicate Enabled(s: System, e: Event) {
    match e
    case Read(pid, r) => pid !in s.running && Free(s, LockOf(s.db, r.op))
    case Decide(pid) => pid in s.running && s.running[pid].Reading? && s.running[pid].lock == LockOf(s.db, s.running[pid].r.op)
    case Finish(pid) => pid in s.running && s.running[pid].Pending?
    case Abort(pid) => pid in s.running
  }

  ghost function Step(env: Env, s: System, e: Event): System
    requires Enabled(s, e)
  {
    match e
    case Read(pid, r) =>
      s.(running := s.running[pid := Reading(r, EffectiveRows(s.db, r.actor.pk, r.now), LockOf(s.db, r.op))])
    case Decide(pid) =>
      var reading := s.running[pid];
      (match Check(env, s.db, Refreshed(s.db, reading.rows), reading.r)
       case Ok(ch) => s.(running := s.running[pid := Pending(ch, reading.lock)])
       case Err(_) => s.(running := s.running - {pid}))
    case Finish(pid) => System(Written(s.db, s.running[pid].change), s.running - {pid})
    case Abort(pid) => s.(running := s.running - {pid})
  }

  /** No actor between its two reads holds a role whose owner the write narrows. */
  ghost predicate KeepsReaders(env: Env, s: System, ch: Change) {
    ch.Replace? ==>
      forall q, h :: q in s.running && s.running[q].Reading? && h in s.running[q].rows && h.role.pk == ch.next.pk ==>
        Narrows(env, ch.next, h.role)
  }

  ghost predicate Delegated(env: Env, s: System, e: Event)
    requires Enabled(s, e)
  {
    match e
    case Read(_, r) => !r.actor.superuser
    case Decide(pid) => MovesHarmlessly(env, s.db, s.running[pid].r)
    case Finish(pid) => KeepsReaders(env, s, s.running[pid].change)
    case Abort(_) => true
  }

  /** Any interleaving in which no superuser acts, every owner move is harmless when it is decided, and none
      narrows the role of a row between the two reads of an actor. */
  ghost predicate Leads(env: Env, s: System, es: seq<Event>, end: System)
    decreases |es|
  {
    if es == [] then s == end
    else Enabled(s, es[0]) && Delegated(env, s, es[0]) && Leads(env, Step(env, s, es[0]), es[1..], end)
  }

  // ---- What a pending change may rest on ----------------------------------------------------------

  /** If the row is in force, what it gives was conferred at the start. */
  ghost predicate Covered(env: Env, start: Db, h: Held, perms: set<Permission>) {
    forall p: Permission, t: Target ::
      p in perms && h.a.status == ACTIVE && IsValid(env, h) && ReachesTarget(env, h.a, t) ==> Confers(env, start, p, t)
  }

  /** The change will confer nothing that was not conferred at the start, whatever others write before it. */
  ghost predicate Backed(env: Env, start: Db, db: Db, w: Phase)
    requires w.Pending?
  {
    match w.change
    case Insert(req, level, actor) =>
      && w.lock == Some(req.role) && req.role in db.roles
      && Covered(env, start, Held(NewRow(EMPTY_DB, req, level, actor), db.roles[req.role]), db.roles[req.role].perms)
    case Move(row, t, _, _, _) =>
      t == Reactivate ==>
        && row in db.assignments && db.assignments[row].role in db.roles && w.lock == Some(db.assignments[row].role)
        && var role := db.roles[db.assignments[row].role];
           Covered(env, start, Held(db.assignments[row].(status := ACTIVE), role), role.perms)
    case AddTo(pk, perms) =>
      && w.lock == Some(pk) && pk in db.roles
      && forall a: Assignment :: Covered(env, start, Held(a, db.roles[pk]), perms - db.roles[pk].perms)
    case RemoveFrom(pk, _) => w.lock == Some(pk)
    case Create(draft) => OwnerSound(env, draft)
    case Replace(next) =>
      && w.lock == Some(next.pk) && next.pk in db.roles && OwnerSound(env, next)
      && (|| Narrows(env, db.roles[next.pk], next)
          || forall a: Assignment :: Covered(env, start, Held(a, next), db.roles[next.pk].perms))
    case Drop(pk) => w.lock == Some(pk)
  }

  /** A row read earlier, completed with its role's permissions at any time from now, gives nothing that was
      not conferred at the start: if it was valid then it still is, and what it gives now is covered. */
  ghost predicate RowBacked(env: Env, start: Db, db: Db, h: Held) {
    && h.a.status == ACTIVE && h.role.pk < db.nextRole
    && (h.role.pk in db.roles ==>
          && (IsValid(env, h) ==> IsValid(env, Held(h.a, db.roles[h.role.pk])))
          && Covered(env, start, Held(h.a, db.roles[h.role.pk]), db.roles[h.role.pk].perms))
  }

  ghost predicate PhaseBacked(env: Env, start: Db, db: Db, ph: Phase) {
    match ph
    case Reading(r, rows, _) => !r.actor.superuser && forall h :: h in rows ==> RowBacked(env, start, db, h)
    case Pending(_, _) => Backed(env, start, db, ph)
  }

  ghost predicate LocksDistinct(s: System) {
    forall p, q :: p in s.running && q in s.running && p != q && s.running[p].lock.Some? ==>
      s.running[p].lock != s.running[q].lock
  }

  ghost predicate Inv(env: Env, start: Db, s: System) {
    && Sound(env, s.db) && NoneAdded(env, start, s.db) && LocksDistinct(s)
    && forall q :: q in s.running ==> PhaseBacked(env, start, s.db, s.running[q])
  }

  // ---- Reads back rows ------------------------------------------------------------------------------

  lemma ReadBacks(env: Env, start: Db, db: Db, user: nat, now: int)
    requires Sound(env, db) && NoneAdded(env, start, db)
    ensures forall h :: h in EffectiveRows(db, user, now) ==> RowBacked(env, start, db, h)
  {
    TableRowsAreBacked(env, db, user, now);
    forall h | h in EffectiveRows(db, user, now) ensures RowBacked(env, start, db, h) {
      assert h == Held(h.a, db.roles[h.role.pk]);
      forall p: Permission, t: Target | p in h.role.perms && IsValid(env, h) && ReachesTarget(env, h.a, t)
        ensures Confers(env, start, p, t)
      {
        assert Confers(env, db, p, t);
      }
    }
  }

  /** Whatever was written between the two reads, the rows they make up are backed. */
  lemma RefreshedRowsAreBacked(env: Env, start: Db, db: Db, rows: set<Held>)
    requires forall h :: h in rows ==> RowBacked(env, start, db, h)
    ensures RowsBacked(env, start, Refreshed(db, rows))
  {
    forall x, p: Permission, t: Target |
      x in Refreshed(db, rows) && p in x.role.perms && IsValid(env, x) && ReachesTarget(env, x.a, t)
      ensures Confers(env, start, p, t)
    {
      var h :| h in rows && x == h.(role := h.role.(perms := if h.role.pk in db.roles then db.roles[h.role.pk].perms else {}));
      SameOwnerSameValidity(env, h.a, h.role, x.role);
      assert RowBacked(env, start, db, h);
    }
  }

  // ---- Checks back changes ------------------------------------------------------------------------

  lemma GrantCheckBacks(env: Env, start: Db, db: Db, rows: set<Held>, r: Request)
    requires Sound(env, db) && RowsBacked(env, start, rows) && env.grantable == SelfOnly && !r.actor.superuser
    requires r.op.OpGrant? && Check(env, db, rows, r).Ok?
    ensures Backed(env, start, db, Pending(Check(env, db, rows, r).value, LockOf(db, r.op)))
  {
    var req := r.op.req;
    var h := Held(NewRow(EMPTY_DB, req, GrantLevel(env, req.level, req.scope).value, r.actor), db.roles[req.role]);
    assert req.scope.Some? ==> ScopeOf(env, h.a) == req.scope;
    assert req.scope.None? ==> ScopeOf(env, h.a) == None;
    forall p: Permission, t: Target | p in h.role.perms && IsValid(env, h) && ReachesTarget(env, h.a, t)
      ensures Confers(env, start, p, t)
    {
      AssignableIsConferred(env, start, rows, r.actor, h, p, t);
    }
  }

  lemma ReactivationCheckBacks(env: Env, start: Db, db: Db, rows: set<Held>, r: Request)
    requires Sound(env, db) && RowsBacked(env, start, rows) && env.grantable == SelfOnly && !r.actor.superuser
    requires r.op.OpTransition? && Check(env, db, rows, r).Ok?
    ensures Backed(env, start, db, Pending(Check(env, db, rows, r).value, LockOf(db, r.op)))
  {
    if r.op.t == Reactivate {
      var a := db.assignments[r.op.row];
      var h := Held(a.(status := ACTIVE), db.roles[a.role]);
      forall p: Permission, t: Target | p in h.role.perms && IsValid(env, h) && ReachesTarget(env, h.a, t)
        ensures Confers(env, start, p, t)
      {
        AssignableIsConferred(env, start, rows, r.actor, h, p, t);
      }
    }
  }

  lemma AdditionCheckBacks(env: Env, start: Db, db: Db, rows: set<Held>, r: Request)
    requires Sound(env, db) && RowsBacked(env, start, rows) && env.grantable == SelfOnly && !r.actor.superuser
    requires r.op.OpAddPermissions? && Check(env, db, rows, r).Ok?
    ensures Backed(env, start, db, Pending(Check(env, db, rows, r).value, LockOf(db, r.op)))
  {
    var role := db.roles[r.op.role];
    forall a: Assignment ensures Covered(env, start, Held(a, role), r.op.perms - role.perms) {
      forall p: Permission, t: Target |
        p in r.op.perms - role.perms && a.status == ACTIVE && IsValid(env, Held(a, role)) && ReachesTarget(env, a, t)
        ensures Confers(env, start, p, t)
      {
        AddedIsConferred(env, start, rows, r.actor, Held(a, role), p, t);
      }
    }
  }

  lemma UpdateCheckBacks(env: Env, start: Db, db: Db, rows: set<Held>, r: Request)
    requires Sound(env, db) && RowsBacked(env, start, rows) && !r.actor.superuser && MovesHarmlessly(env, db, r)
    requires r.op.OpUpdateRole? && Check(env, db, rows, r).Ok?
    ensures Backed(env, start, db, Pending(Check(env, db, rows, r).value, LockOf(db, r.op)))
  {
    var prior := db.roles[r.op.role];
    ValidOwnerIsSound(env, Edited(prior, r.op.changes));
    var next := ValidateOwner(env, Edited(prior, r.op.changes)).value;
    if !Narrows(env, prior, next) {
      forall a: Assignment ensures Covered(env, start, Held(a, next), prior.perms) {
        forall p: Permission, t: Target |
          p in prior.perms && a.status == ACTIVE && IsValid(env, Held(a, next)) && ReachesTarget(env, a, t)
          ensures Confers(env, start, p, t)
        {
          AskedIsConferred(env, start, rows, r.actor, Held(a, next), t);
        }
      }
    }
  }

  /** A check that passes backs its change. */
  lemma CheckBacks(env: Env, start: Db, db: Db, rows: set<Held>, r: Request)
    requires Sound(env, db) && RowsBacked(env, start, rows) && env.grantable == SelfOnly && !r.actor.superuser
    requires MovesHarmlessly(env, db, r) && Check(env, db, rows, r).Ok?
    ensures Backed(env, start, db, Pending(Check(env, db, rows, r).value, LockOf(db, r.op)))
  {
    match r.op {
      case OpGrant(_) => GrantCheckBacks(env, start, db, rows, r);
      case OpTransition(_, _, _) => ReactivationCheckBacks(env, start, db, rows, r);
      case OpCreateRole(fields, _) => ValidOwnerIsSound(env, Draft(db.nextRole, fields));
      case OpAddPermissions(_, _) => AdditionCheckBacks(env, start, db, rows, r);
      case OpUpdateRole(_, _) => UpdateCheckBacks(env, start, db, rows, r);
      case _ =>
    }
  }

  // ---- Backed changes are safe to write -------------------------------------------------------------

  lemma InsertIsSafe(env: Env, start: Db, db: Db, w: Phase)
    requires w.Pending?
    requires Sound(env, db) && NoneAdded(env, start, db) && Backed(env, start, db, w) && w.change.Insert?
    ensures Sound(env, Written(db, w.change)) && NoneAdded(env, start, Written(db, w.change))
  {
    var a := NewRow(db, w.change.req, w.change.level, w.change.actor);
    if Write(db, w.change).Ok? {
      InsertKeepsSound(env, db, a);
      var after := Inserted(db, a);
      forall p: Permission, t: Target | Confers(env, after, p, t) ensures Confers(env, start, p, t) {
        var k :| k in after.assignments && after.assignments[k].role in after.roles
                 && Gives(env, Held(after.assignments[k], after.roles[after.assignments[k].role]), p, t);
        if k == a.pk {
          SameScopeSameForce(env, a, NewRow(EMPTY_DB, w.change.req, w.change.level, w.change.actor), db.roles[a.role], t);
        } else {
          assert Confers(env, db, p, t);
        }
      }
    }
  }

  /** What a row gives depends on its level, its scope and its status. */
  lemma SameScopeSameForce(env: Env, a: Assignment, b: Assignment, role: Role, t: Target)
    requires a.level == b.level && a.scopeCt == b.scopeCt && a.scopeId == b.scopeId
    ensures IsValid(env, Held(a, role)) <==> IsValid(env, Held(b, role))
    ensures ReachesTarget(env, a, t) <==> ReachesTarget(env, b, t)
  {
    if t.On? {
      if anc: Obj :| IsAncestorOrSelf(env, anc, t.node) && SameNode(a, anc) {
        assert SameNode(b, anc);
      }
      if anc: Obj :| IsAncestorOrSelf(env, anc, t.node) && SameNode(b, anc) {
        assert SameNode(a, anc);
      }
    }
  }

  lemma MoveIsSafe(env: Env, start: Db, db: Db, w: Phase)
    requires w.Pending?
    requires Sound(env, db) && NoneAdded(env, start, db) && Backed(env, start, db, w) && w.change.Move?
    ensures Sound(env, Written(db, w.change)) && NoneAdded(env, start, Written(db, w.change))
  {
    var ch := w.change;
    if Write(db, ch).Ok? {
      MoveKeepsSound(env, db, ch.row, ch.t, ch.actor, ch.now, ch.reason);
      var after := Write(db, ch).value;
      forall p: Permission, t: Target | Confers(env, after, p, t) ensures Confers(env, start, p, t) {
        var k :| k in after.assignments && after.assignments[k].role in after.roles
                 && Gives(env, Held(after.assignments[k], after.roles[after.assignments[k].role]), p, t);
        if k == ch.row {
          assert ch.t == Reactivate && after.assignments[k] == db.assignments[k].(status := ACTIVE);
        } else {
          assert Confers(env, db, p, t);
        }
      }
    }
  }

  /** A stored role in a new shape: its rows give what they gave, or what is covered. */
  lemma StoreIsSafe(env: Env, start: Db, db: Db, role: Role)
    requires Sound(env, db) && NoneAdded(env, start, db) && role.pk in db.roles
    requires forall a: Assignment, p: Permission, t: Target ::
               Gives(env, Held(a, role), p, t) ==> Gives(env, Held(a, db.roles[role.pk]), p, t) || Confers(env, start, p, t)
    ensures NoneAdded(env, start, Stored(db, role))
  {
    var after := Stored(db, role);
    forall p: Permission, t: Target | Confers(env, after, p, t) ensures Confers(env, start, p, t) {
      var k :| k in after.assignments && after.assignments[k].role in after.roles
               && Gives(env, Held(after.assignments[k], after.roles[after.assignments[k].role]), p, t);
      var a := db.assignments[k];
      if a.role != role.pk || Gives(env, Held(a, db.roles[role.pk]), p, t) {
        assert Confers(env, db, p, t);
      }
    }
  }

  lemma AdditionIsSafe(env: Env, start: Db, db: Db, w: Phase)
    requires w.Pending?
    requires Sound(env, db) && NoneAdded(env, start, db) && Backed(env, start, db, w) && w.change.AddTo?
    ensures Sound(env, Written(db, w.change)) && NoneAdded(env, start, Written(db, w.change))
  {
    var prior := db.roles[w.change.role];
    var next := prior.(perms := prior.perms + w.change.perms);
    StoreKeepsSound(env, db, next);
    forall a: Assignment, p: Permission, t: Target | Gives(env, Held(a, next), p, t)
      ensures Gives(env, Held(a, prior), p, t) || Confers(env, start, p, t)
    {
      SameOwnerSameValidity(env, a, prior, next);
      assert Covered(env, start, Held(a, prior), w.change.perms - prior.perms);
    }
    StoreIsSafe(env, start, db, next);
  }

  lemma RemovalIsSafe(env: Env, start: Db, db: Db, w: Phase)
    requires w.Pending?
    requires Sound(env, db) && NoneAdded(env, start, db) && w.change.RemoveFrom?
    ensures Sound(env, Written(db, w.change)) && NoneAdded(env, start, Written(db, w.change))
  {
    if w.change.role in db.roles {
      var prior := db.roles[w.change.role];
      var next := prior.(perms := prior.perms - w.change.perms);
      StoreKeepsSound(env, db, next);
      forall a: Assignment ensures IsValid(env, Held(a, next)) <==> IsValid(env, Held(a, prior)) {
        SameOwnerSameValidity(env, a, prior, next);
      }
      StoreIsSafe(env, start, db, next);
    }
  }

  lemma ReplacementIsSafe(env: Env, start: Db, db: Db, w: Phase)
    requires w.Pending?
    requires Sound(env, db) && NoneAdded(env, start, db) && Backed(env, start, db, w) && w.change.Replace?
    ensures Sound(env, Written(db, w.change)) && NoneAdded(env, start, Written(db, w.change))
  {
    var prior := db.roles[w.change.next.pk];
    var next := w.change.next.(perms := prior.perms);
    StoreKeepsSound(env, db, next);
    forall a: Assignment, p: Permission, t: Target | Gives(env, Held(a, next), p, t)
      ensures Gives(env, Held(a, prior), p, t) || Confers(env, start, p, t)
    {
      SameOwnerSameValidity(env, a, w.change.next, next);
      if Narrows(env, prior, w.change.next) {
        NarrowingOnlyInvalidates(env, a, prior, w.change.next);
      } else {
        assert Covered(env, start, Held(a, w.change.next), prior.perms);
      }
    }
    StoreIsSafe(env, start, db, next);
  }

  lemma CreationIsSafe(env: Env, start: Db, db: Db, w: Phase)
    requires w.Pending?
    requires Sound(env, db) && NoneAdded(env, start, db) && Backed(env, start, db, w) && w.change.Create?
    ensures Sound(env, Written(db, w.change)) && NoneAdded(env, start, Written(db, w.change))
  {
    var role := w.change.draft.(pk := db.nextRole);
    NewRoleKeepsSound(env, db, role);
    NewRoleAddsNothing(env, db, role);
  }

  lemma DropIsSafe(env: Env, start: Db, db: Db, w: Phase)
    requires w.Pending?
    requires Sound(env, db) && NoneAdded(env, start, db) && w.change.Drop?
    ensures Sound(env, Written(db, w.change)) && NoneAdded(env, start, Written(db, w.change))
  {
    if Write(db, w.change).Ok? {
      DropKeepsSound(env, db, w.change.role);
      var after := Write(db, w.change).value;
      forall p: Permission, t: Target | Confers(env, after, p, t) ensures Confers(env, db, p, t) {
        var k :| k in after.assignments && after.assignments[k].role in after.roles
                 && Gives(env, Held(after.assignments[k], after.roles[after.assignments[k].role]), p, t);
      }
    }
  }

  lemma WriteIsSafe(env: Env, start: Db, db: Db, w: Phase)
    requires w.Pending?
    requires Sound(env, db) && NoneAdded(env, start, db) && Backed(env, start, db, w)
    ensures Sound(env, Written(db, w.change)) && NoneAdded(env, start, Written(db, w.change))
  {
    match w.change {
      case Insert(_, _, _) => InsertIsSafe(env, start, db, w);
      case Move(_, _, _, _, _) => MoveIsSafe(env, start, db, w);
      case AddTo(_, _) => AdditionIsSafe(env, start, db, w);
      case RemoveFrom(_, _) => RemovalIsSafe(env, start, db, w);
      case Create(_) => CreationIsSafe(env, start, db, w);
      case Replace(_) => ReplacementIsSafe(env, start, db, w);
      case Drop(_) => DropIsSafe(env, start, db, w);
    }
  }

  // ---- Writes leave other changes backed ------------------------------------------------------------

  /** What others see of a write: rows keep their role, level and scope, and only the locked role changes. */
  ghost predicate OnlyTouches(db: Db, next: Db, lock: Option<nat>) {
    && (forall k :: k in db.assignments ==>
          k in next.assignments && next.assignments[k].role == db.assignments[k].role
          && next.assignments[k].level == db.assignments[k].level
          && next.assignments[k].scopeCt == db.assignments[k].scopeCt
          && next.assignments[k].scopeId == db.assignments[k].scopeId)
    && (forall k :: k in db.roles && lock != Some(k) ==> k in next.roles && next.roles[k] == db.roles[k])
  }

  lemma WriteOnlyTouches(env: Env, start: Db, db: Db, w: Phase)
    requires w.Pending?
    requires Integrity(db) && Backed(env, start, db, w)
    ensures OnlyTouches(db, Written(db, w.change), w.lock)
  {
  }

  lemma OthersStayBacked(env: Env, start: Db, db: Db, next: Db, lock: Option<nat>, w: Phase)
    requires w.Pending?
    requires Backed(env, start, db, w) && OnlyTouches(db, next, lock)
    requires w.lock.Some? ==> w.lock != lock
    ensures Backed(env, start, next, w)
  {
    if w.change.Move? && w.change.t == Reactivate {
      var a, b := db.assignments[w.change.row], next.assignments[w.change.row];
      var role := db.roles[a.role];
      forall p: Permission, t: Target |
        p in role.perms && IsValid(env, Held(b.(status := ACTIVE), role)) && ReachesTarget(env, b.(status := ACTIVE), t)
        ensures Confers(env, start, p, t)
      {
        SameScopeSameForce(env, a.(status := ACTIVE), b.(status := ACTIVE), role, t);
      }
    }
  }

  /** A write under another lock, or any write, leaves the rows read earlier backed. */
  lemma RowStaysBacked(env: Env, start: Db, db: Db, w: Phase, h: Held)
    requires w.Pending? && Sound(env, db) && Backed(env, start, db, w) && RowBacked(env, start, db, h)
    requires w.change.Replace? && h.role.pk == w.change.next.pk ==> Narrows(env, w.change.next, h.role)
    ensures RowBacked(env, start, Written(db, w.change), h)
  {
    var k, next := h.role.pk, Written(db, w.change);
    if k in next.roles && next != db && k in db.roles && next.roles[k] != db.roles[k] {
      match w.change {
        case AddTo(pk, perms) => AdditionKeepsRow(env, start, db, w, h);
        case RemoveFrom(pk, perms) => SameOwnerSameValidity(env, h.a, db.roles[k], next.roles[k]);
        case Replace(role) => ReplacementKeepsRow(env, start, db, w, h);
        case _ =>
      }
    }
  }

  lemma AdditionKeepsRow(env: Env, start: Db, db: Db, w: Phase, h: Held)
    requires w.Pending? && w.change.AddTo? && Backed(env, start, db, w) && RowBacked(env, start, db, h)
    requires h.role.pk == w.change.role && db.roles[w.change.role].pk == w.change.role
    ensures RowBacked(env, start, Written(db, w.change), h)
  {
    var prior := db.roles[h.role.pk];
    var next := prior.(perms := prior.perms + w.change.perms);
    SameOwnerSameValidity(env, h.a, prior, next);
    assert Covered(env, start, Held(h.a, prior), w.change.perms - prior.perms);
  }

  lemma ReplacementKeepsRow(env: Env, start: Db, db: Db, w: Phase, h: Held)
    requires w.Pending? && w.change.Replace? && Backed(env, start, db, w) && RowBacked(env, start, db, h)
    requires h.role.pk == w.change.next.pk && Narrows(env, w.change.next, h.role)
    requires Write(db, w.change).Ok?
    ensures RowBacked(env, start, Written(db, w.change), h)
  {
    var prior := db.roles[h.role.pk];
    var next := w.change.next.(perms := prior.perms);
    SameOwnerSameValidity(env, h.a, w.change.next, next);
    if IsValid(env, h) {
      NarrowingOnlyInvalidates(env, h.a, w.change.next, h.role);
    }
    forall p: Permission, t: Target | p in prior.perms && IsValid(env, Held(h.a, next)) && ReachesTarget(env, h.a, t)
      ensures Confers(env, start, p, t)
    {
      if Narrows(env, prior, w.change.next) {
        NarrowingOnlyInvalidates(env, h.a, prior, w.change.next);
      } else {
        assert Covered(env, start, Held(h.a, w.change.next), prior.perms);
      }
    }
  }

  lemma FinishKeepsInv(env: Env, start: Db, s: System, pid: nat)
    requires Inv(env, start, s) && Enabled(s, Finish(pid)) && KeepsReaders(env, s, s.running[pid].change)
    ensures Inv(env, start, Step(env, s, Finish(pid)))
  {
    var w, r := s.running[pid], Step(env, s, Finish(pid));
    assert PhaseBacked(env, start, s.db, w);
    WriteIsSafe(env, start, s.db, w);
    WriteOnlyTouches(env, start, s.db, w);
    forall q | q in r.running ensures PhaseBacked(env, start, r.db, r.running[q]) {
      assert PhaseBacked(env, start, s.db, s.running[q]);
      if s.running[q].Pending? {
        OthersStayBacked(env, start, s.db, r.db, w.lock, s.running[q]);
      } else {
        forall h | h in s.running[q].rows ensures RowBacked(env, start, r.db, h) {
          RowStaysBacked(env, start, s.db, w, h);
        }
      }
    }
  }

  lemma ReadKeepsInv(env: Env, start: Db, s: System, e: Event)
    requires Inv(env, start, s) && e.Read? && Enabled(s, e) && !e.r.actor.superuser
    ensures Inv(env, start, Step(env, s, e))
  {
    ReadBacks(env, start, s.db, e.r.actor.pk, e.r.now);
  }

  lemma DecideKeepsInv(env: Env, start: Db, s: System, pid: nat)
    requires Inv(env, start, s) && Enabled(s, Decide(pid)) && env.grantable == SelfOnly
    requires MovesHarmlessly(env, s.db, s.running[pid].r)
    ensures Inv(env, start, Step(env, s, Decide(pid)))
  {
    var reading := s.running[pid];
    assert PhaseBacked(env, start, s.db, reading);
    RefreshedRowsAreBacked(env, start, s.db, reading.rows);
    if Check(env, s.db, Refreshed(s.db, reading.rows), reading.r).Ok? {
      CheckBacks(env, start, s.db, Refreshed(s.db, reading.rows), reading.r);
    }
  }

  lemma {:induction false} RunKeepsInv(env: Env, start: Db, s: System, es: seq<Event>, end: System)
    requires Inv(env, start, s) && env.grantable == SelfOnly && Leads(env, s, es, end)
    ensures Inv(env, start, end)
    decreases |es|
  {
    if es != [] {
      match es[0] {
        case Read(_, _) => ReadKeepsInv(env, start, s, es[0]);
        case Decide(pid) => DecideKeepsInv(env, start, s, pid);
        case Finish(pid) => FinishKeepsInv(env, start, s, pid);
        case Abort(_) =>
      }
      RunKeepsInv(env, start, Step(env, s, es[0]), es[1..], end);
    }
  }

  /** Main result: however the operations of any number of actors interleave between their reads, checks and
      writes, and although an actor may lose what it held in between, nothing is ever conferred that was not
      conferred at the start. */
  lemma InterleavedNoAmplification(env: Env, db: Db, es: seq<Event>, end: System)
    requires Sound(env, db) && env.grantable == SelfOnly
    requires Leads(env, System(db, map[]), es, end)
    ensures Sound(env, end.db) && NoneAdded(env, db, end.db)
  {
    RunKeepsInv(env, db, System(db, map[]), es, end);
  }
}
