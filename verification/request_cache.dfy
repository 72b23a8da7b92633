/** The request store under nested request blocks and nested transactions.

    One connection is followed: its view of the tables, the stack of blocks it is inside, the store
    and the dirty flag. Events come in any properly nested order; `log` remembers every view so far, and
    `since` is when the outermost request block was entered. */
module RequestCache {
  import opened Wrappers
  import opened Ancestry
  import opened Engine

  /** The memo of one request: a user's ACTIVE rows, and verdicts by assignment key. */
  datatype Memo = Memo(rows: map<nat, set<Held>>, verdicts: map<nat, bool>)

  const EMPTY_MEMO := Memo(map[], map[])

  /** Whose memo a commit hook drops: one user's, or everybody's. */
  type Scope = Option<nat>

  /** A block being executed, with what leaving it restores. `InnerBlock` is a request block that
      found a store already there. */
  datatype Frame = AtomicBlock(snapshot: Db, hooks: seq<Scope>) | RequestBlock(savedDirty: bool) | InnerBlock

  /** A view of the tables; `settled` when it holds no write of this request that is still uncommitted. */
  datatype Moment = Moment(db: Db, settled: bool)

  datatype State = State(db: Db, frames: seq<Frame>, store: Option<Memo>, dirty: bool, log: seq<Moment>, since: nat)

  function Initial(db: Db): State { State(db, [], None, false, [Moment(db, true)], 0) }

  predicate InAtomicBlock(frames: seq<Frame>) {
    exists i: nat :: i < |frames| && frames[i].AtomicBlock?
  }

  // ---- cache.py ---------------------------------------------------------------------------------

  /** `get_store`: bypassed while a dirty transaction is open, emptied once it is over. */
  function GetStore(s: State): (r: State)
    ensures r.store.Some? <==> s.store.Some?
    ensures r == s.(store := r.store, dirty := r.dirty)
    ensures !s.dirty ==> r == s
    ensures s.dirty && Usable(r) ==> r.store == Some(EMPTY_MEMO)
    ensures s.store.Some? ==> (Usable(r) <==> !s.dirty || !InAtomicBlock(s.frames))
  {
    if s.dirty && !InAtomicBlock(s.frames) then
      s.(store := if s.store.Some? then Some(EMPTY_MEMO) else None, dirty := false)
    else s
  }

  predicate Usable(s: State) { !s.dirty && s.store.Some? }

  function MarkDirty(s: State): State {
    if InAtomicBlock(s.frames) then s.(dirty := true) else s
  }

  /** `invalidate_user` and `invalidate_all` */
  function Invalidate(s: State, who: Scope): State {
    var marked := MarkDirty(s);
    match marked.store
    case None => marked
    case Some(memo) =>
      marked.(store := Some(match who
                            case Some(u) => memo.(rows := memo.rows - {u})
                            case None => EMPTY_MEMO))
  }

  /** A hook registered now belongs to the innermost transaction. */
  function OnCommit(frames: seq<Frame>, hooks: seq<Scope>): (r: seq<Frame>)
    ensures |r| == |frames|
    ensures forall i: nat :: i < |frames| ==>
              if frames[i].AtomicBlock? then r[i].AtomicBlock? && r[i].snapshot == frames[i].snapshot else r[i] == frames[i]
  {
    if frames == [] then []
    else
      var top := |frames| - 1;
      if frames[top].AtomicBlock? then frames[top := frames[top].(hooks := frames[top].hooks + hooks)]
      else OnCommit(frames[..top], hooks) + [frames[top]]
  }

  predicate IsInnermostAtomic(frames: seq<Frame>, i: nat) {
    i < |frames| && frames[i].AtomicBlock? && forall j: nat :: i < j < |frames| ==> !frames[j].AtomicBlock?
  }

  /** Hooks go to the end of the innermost transaction's, and nowhere else. */
  lemma {:induction false} HooksJoinInnermost(frames: seq<Frame>, hooks: seq<Scope>, i: nat)
    requires i < |frames|
    ensures OnCommit(frames, hooks)[i] ==
            if IsInnermostAtomic(frames, i) then frames[i].(hooks := frames[i].hooks + hooks) else frames[i]
  {
    var top := |frames| - 1;
    if !frames[top].AtomicBlock? && i < top {
      HooksJoinInnermost(frames[..top], hooks, i);
    }
  }

  function RunHooks(s: State, hooks: seq<Scope>): (r: State)
    ensures r == s.(store := r.store, dirty := r.dirty)
    decreases |hooks|
  {
    if hooks == [] then s else RunHooks(Invalidate(s, hooks[0]), hooks[1..])
  }

  /** The transaction under way has written. */
  predicate Unsettled(s: State) { s.dirty && InAtomicBlock(s.frames) }

  function Seen(s: State, db: Db, settled: bool): State { s.(db := db, log := s.log + [Moment(db, settled)]) }

  // ---- Events -----------------------------------------------------------------------------------

  datatype Event =
    | EnterRequest | ExitRequest
    | EnterAtomic | Commit | Rollback
    | Mutate(view: Db, who: Scope, hooked: bool) // a managed write, its invalidation, perhaps a commit hook
    | TouchRole(view: Db)                      // a role no assignment uses is saved or deleted: nothing is invalidated
    | Fetch(user: nat)                         // `effective_assignments` for now
    | Judge(h: Held)                           // `_assignment_is_valid`
    | Others(view: Db, restores: seq<Frame>)   // other requests commit

  predicate SameAuthority(a: Db, b: Db) {
    a.assignments == b.assignments &&
    forall k :: k in a.assignments && a.assignments[k].role in a.roles + b.roles ==>
      && a.assignments[k].role in a.roles && a.assignments[k].role in b.roles
      && a.roles[a.assignments[k].role] == b.roles[a.assignments[k].role]
  }

  predicate Top(s: State) { s.frames != [] }

  function Innermost(s: State): Frame
    requires Top(s)
  {
    s.frames[|s.frames| - 1]
  }

  /** What proper nesting and the code's own call sites allow. Managed writes are all inside `atomic`;
      a verdict is asked about a row read before, which the store, where it is in use, still hands out. */
  ghost predicate Enabled(s: State, e: Event) {
    match e
    case EnterRequest => true
    case ExitRequest => Top(s) && !Innermost(s).AtomicBlock?
    case EnterAtomic => true
    case Commit => Top(s) && Innermost(s).AtomicBlock?
    case Rollback => Top(s) && Innermost(s).AtomicBlock?
    case Mutate(view, _, _) => InAtomicBlock(s.frames) && Integrity(view)
    case TouchRole(view) => Integrity(view) && SameAuthority(s.db, view)
    case Fetch(_) => true
    case Judge(h) => Usable(GetStore(s)) ==> h in FetchedRows(s, h.a.user)
    case Others(view, restores) =>
      && Integrity(view) && |restores| == |s.frames|
      && forall i: nat :: i < |restores| ==>
           if s.frames[i].AtomicBlock?
           then restores[i].AtomicBlock? && restores[i].hooks == s.frames[i].hooks && Integrity(restores[i].snapshot)
           else restores[i] == s.frames[i]
  }

  /** The rows `Fetch` hands out, before windows are applied, and the store it leaves. */
  function FetchedRows(s: State, user: nat): set<Held> {
    var g := GetStore(s);
    if Usable(g) && user in g.store.value.rows then g.store.value.rows[user] else ActiveRows(s.db, user)
  }

  function Fetched(s: State, user: nat): State {
    var g := GetStore(s);
    if Usable(g) && user !in g.store.value.rows
    then g.(store := Some(g.store.value.(rows := g.store.value.rows[user := ActiveRows(s.db, user)])))
    else g
  }

  ghost predicate Verdict(env: Env, s: State, h: Held) {
    var g := GetStore(s);
    if Usable(g) && h.a.pk in g.store.value.verdicts then g.store.value.verdicts[h.a.pk] else IsValid(env, h)
  }

  ghost function Judged(env: Env, s: State, h: Held): State {
    var g := GetStore(s);
    if Usable(g)
    then g.(store := Some(g.store.value.(verdicts := g.store.value.verdicts[h.a.pk := Verdict(env, s, h)])))
    else g
  }

  function Entered(s: State): State {
    if s.store.Some? then s.(frames := s.frames + [InnerBlock])
    else Seen(s, s.db, true).(frames := s.frames + [RequestBlock(s.dirty)], store := Some(EMPTY_MEMO), dirty := false,
                              since := |s.log|)
  }

  function Exited(s: State): State
    requires Top(s)
  {
    var rest := s.frames[..|s.frames| - 1];
    match Innermost(s)
    case RequestBlock(savedDirty) => s.(frames := rest, store := None, dirty := savedDirty)
    case _ => s.(frames := rest)
  }

  /** Leaving the outermost transaction runs the hooks outside of it; an inner one hands them on. */
  function Committed(s: State): State
    requires Top(s) && Innermost(s).AtomicBlock?
  {
    var rest, hooks := s.frames[..|s.frames| - 1], Innermost(s).hooks;
    if InAtomicBlock(rest) then s.(frames := OnCommit(rest, hooks))
    else RunHooks(Seen(s.(frames := rest), s.db, true), hooks)
  }

  function RolledBack(s: State): State
    requires Top(s) && Innermost(s).AtomicBlock?
  {
    var popped := s.(frames := s.frames[..|s.frames| - 1]);
    Seen(popped, Innermost(s).snapshot, !Unsettled(popped))
  }

  function Hooks(who: Scope, hooked: bool): seq<Scope> { if hooked then [who] else [] }

  function Mutated(s: State, view: Db, who: Scope, hooked: bool): State {
    var written := Invalidate(Seen(s, view, false), who);
    written.(frames := OnCommit(written.frames, Hooks(who, hooked)))
  }

  ghost function Step(env: Env, s: State, e: Event): State
    requires Enabled(s, e)
  {
    match e
    case EnterRequest => Entered(s)
    case ExitRequest => Exited(s)
    case EnterAtomic => s.(frames := s.frames + [AtomicBlock(s.db, [])])
    case Commit => Committed(s)
    case Rollback => RolledBack(s)
    case Mutate(view, who, hooked) => Mutated(s, view, who, hooked)
    case TouchRole(view) => Seen(s, view, !Unsettled(s))
    case Fetch(user) => Fetched(s, user)
    case Judge(h) => Judged(env, s, h)
    case Others(view, restores) => Seen(s.(frames := restores), view, !Unsettled(s))
  }

  /** The states a properly nested sequence of events goes through. */
  ghost predicate Leads(env: Env, s: State, es: seq<Event>, end: State)
    decreases |es|
  {
    if es == [] then s == end
    else Enabled(s, es[0]) && Leads(env, Step(env, s, es[0]), es[1..], end)
  }

  ghost predicate Alone(es: seq<Event>) {
    forall e :: e in es ==> !e.Others?
  }

  // ---- Refinement: alone on the tables, a cached read is a fresh read -----------------------------

  ghost predicate Agrees(env: Env, memo: Memo, db: Db) {
    && (forall u :: u in memo.rows ==> memo.rows[u] == ActiveRows(db, u))
    && (forall h: Held :: h in ActiveRows(db, h.a.user) && h.a.pk in memo.verdicts ==>
          memo.verdicts[h.a.pk] == IsValid(env, h))
  }

  /** Request blocks nest inside at most one that owns the store. */
  ghost predicate WellNested(s: State) {
    && (forall i: nat, j: nat :: i < j < |s.frames| ==> !(s.frames[i].RequestBlock? && s.frames[j].RequestBlock?))
    && (s.store.Some? <==> exists i: nat :: i < |s.frames| && s.frames[i].RequestBlock?)
    && (forall j: nat :: j < |s.frames| && s.frames[j].InnerBlock? ==>
          exists i: nat :: i < j && s.frames[i].RequestBlock?)
  }

  /** What leaving the transactions opened since the store was created would restore. */
  ghost predicate SnapshotsAgree(s: State) {
    forall i: nat, j: nat :: i < j < |s.frames| && s.frames[i].RequestBlock? && s.frames[j].AtomicBlock? ==>
      SameAuthority(s.frames[j].snapshot, s.db)
  }

  ghost predicate SnapshotsWhole(s: State) {
    forall i: nat :: i < |s.frames| && s.frames[i].AtomicBlock? ==> Integrity(s.frames[i].snapshot)
  }

  ghost predicate Inv(env: Env, s: State) {
    && WellNested(s)
    && Integrity(s.db) && SnapshotsWhole(s)
    && (Usable(s) ==> Agrees(env, s.store.value, s.db) && SnapshotsAgree(s))
  }

  lemma AgreementCarries(env: Env, memo: Memo, a: Db, b: Db)
    requires Agrees(env, memo, a) && SameAuthority(a, b)
    ensures Agrees(env, memo, b)
  {
  }

  /** Entering a block that owns no store. */
  lemma PushKeepsNesting(s: State, f: Frame)
    requires WellNested(s) && !f.RequestBlock? && (f.InnerBlock? ==> s.store.Some?)
    ensures WellNested(s.(frames := s.frames + [f]))
  {
    if s.store.Some? {
      var i: nat :| i < |s.frames| && s.frames[i].RequestBlock?;
      assert (s.frames + [f])[i].RequestBlock?;
    }
    forall j: nat | j < |s.frames| && s.frames[j].InnerBlock?
      ensures exists i: nat :: i < j && (s.frames + [f])[i].RequestBlock?
    {
      var i: nat :| i < j && s.frames[i].RequestBlock?;
      assert (s.frames + [f])[i].RequestBlock?;
    }
  }

  lemma EnterAtomicKeepsInv(env: Env, s: State)
    requires Inv(env, s)
    ensures Inv(env, s.(frames := s.frames + [AtomicBlock(s.db, [])]))
  {
    PushKeepsNesting(s, AtomicBlock(s.db, []));
  }

  lemma EnterKeepsInv(env: Env, s: State)
    requires Inv(env, s)
    ensures Inv(env, Entered(s))
  {
    var r := Entered(s);
    if s.store.Some? {
      PushKeepsNesting(s, InnerBlock);
    } else {
      assert r.frames[|s.frames|].RequestBlock?;
      assert forall i: nat :: i < |s.frames| ==> !s.frames[i].InnerBlock?;
    }
  }

  lemma ExitKeepsInv(env: Env, s: State)
    requires Inv(env, s) && Top(s) && !Innermost(s).AtomicBlock?
    ensures Inv(env, Exited(s))
  {
  }

  lemma InvalidateKeepsInv(env: Env, s: State, who: Scope)
    requires Inv(env, s)
    ensures Inv(env, Invalidate(s, who)) && Invalidate(s, who).frames == s.frames
  {
  }

  lemma {:induction false} HooksKeepInv(env: Env, s: State, hooks: seq<Scope>)
    requires Inv(env, s)
    ensures Inv(env, RunHooks(s, hooks))
    decreases |hooks|
  {
    if hooks != [] {
      InvalidateKeepsInv(env, s, hooks[0]);
      HooksKeepInv(env, Invalidate(s, hooks[0]), hooks[1..]);
    }
  }

  /** Dropping the innermost transaction frame keeps the nesting of the others. */
  lemma PopKeepsNesting(s: State)
    requires WellNested(s) && Top(s) && Innermost(s).AtomicBlock?
    ensures WellNested(s.(frames := s.frames[..|s.frames| - 1]))
  {
  }

  lemma HooksOnFramesKeepInv(env: Env, s: State, hooks: seq<Scope>)
    requires Inv(env, s)
    ensures Inv(env, s.(frames := OnCommit(s.frames, hooks)))
  {
    var r := s.(frames := OnCommit(s.frames, hooks));
    forall i: nat | i < |s.frames| ensures s.frames[i].RequestBlock? <==> r.frames[i].RequestBlock? {
    }
    if s.store.Some? {
      var i: nat :| i < |s.frames| && s.frames[i].RequestBlock?;
      assert r.frames[i].RequestBlock?;
    }
    forall j: nat | j < |r.frames| && r.frames[j].InnerBlock? ensures exists i: nat :: i < j && r.frames[i].RequestBlock? {
      assert s.frames[j].InnerBlock?;
      var i: nat :| i < j && s.frames[i].RequestBlock?;
      assert r.frames[i].RequestBlock?;
    }
  }

  lemma CommitKeepsInv(env: Env, s: State)
    requires Inv(env, s) && Top(s) && Innermost(s).AtomicBlock?
    ensures Inv(env, Committed(s))
  {
    var popped := s.(frames := s.frames[..|s.frames| - 1]);
    PopKeepsNesting(s);
    assert Inv(env, popped);
    if InAtomicBlock(popped.frames) {
      HooksOnFramesKeepInv(env, popped, Innermost(s).hooks);
    } else {
      HooksKeepInv(env, Seen(popped, s.db, true), Innermost(s).hooks);
    }
  }

  /** A rollback under an undirtied store restores rows the store still agrees with. */
  lemma RollbackKeepsInv(env: Env, s: State)
    requires Inv(env, s) && Top(s) && Innermost(s).AtomicBlock?
    ensures Inv(env, RolledBack(s))
  {
  }

  lemma MutateKeepsInv(env: Env, s: State, view: Db, who: Scope, hooked: bool)
    requires Inv(env, s) && InAtomicBlock(s.frames) && Integrity(view)
    ensures Inv(env, Mutated(s, view, who, hooked))
  {
    var written := Invalidate(Seen(s, view, false), who);
    assert written.dirty;
    HooksOnFramesKeepInv(env, written, Hooks(who, hooked));
  }

  lemma FetchKeepsInv(env: Env, s: State, user: nat)
    requires Inv(env, s)
    ensures Inv(env, Fetched(s, user)) && FetchedRows(s, user) == ActiveRows(s.db, user)
  {
  }

  lemma JudgeKeepsInv(env: Env, s: State, h: Held)
    requires Inv(env, s) && (Usable(GetStore(s)) ==> h in ActiveRows(s.db, h.a.user))
    ensures Inv(env, Judged(env, s, h)) && (Verdict(env, s, h) <==> IsValid(env, h))
  {
  }

  lemma StepKeepsInv(env: Env, s: State, e: Event)
    requires Inv(env, s) && Enabled(s, e) && !e.Others?
    ensures Inv(env, Step(env, s, e))
  {
    match e {
      case EnterRequest => EnterKeepsInv(env, s);
      case ExitRequest => ExitKeepsInv(env, s);
      case EnterAtomic => EnterAtomicKeepsInv(env, s);
      case Commit => CommitKeepsInv(env, s);
      case Rollback => RollbackKeepsInv(env, s);
      case Mutate(view, who, hooked) => MutateKeepsInv(env, s, view, who, hooked);
      case TouchRole(view) => TouchRoleKeepsInv(env, s, view);
      case Fetch(user) => FetchKeepsInv(env, s, user);
      case Judge(h) =>
        FetchKeepsInv(env, s, h.a.user);
        JudgeKeepsInv(env, s, h);
    }
  }

  lemma TouchRoleKeepsInv(env: Env, s: State, view: Db)
    requires Inv(env, s) && Integrity(view) && SameAuthority(s.db, view)
    ensures Inv(env, Seen(s, view, !Unsettled(s)))
  {
    if Usable(s) {
      AgreementCarries(env, s.store.value, s.db, view);
    }
  }

  lemma {:induction false} RunKeepsInv(env: Env, s: State, es: seq<Event>, end: State)
    requires Inv(env, s) && Alone(es) && Leads(env, s, es, end)
    ensures Inv(env, end)
    decreases |es|
  {
    if es != [] {
      StepKeepsInv(env, s, es[0]);
      RunKeepsInv(env, Step(env, s, es[0]), es[1..], end);
    }
  }

  /** Main result: after any properly nested run of request blocks, transactions, commits, rollbacks,
      managed writes and reads, a read through the store gives what a fresh read of the tables gives:
      the effective rows at any instant, and the validity of each of them. */
  lemma CachedReadIsFresh(env: Env, db: Db, es: seq<Event>, s: State, user: nat, now: int)
    requires Integrity(db) && Alone(es) && Leads(env, Initial(db), es, s)
    ensures InForce(FetchedRows(s, user), now) == EffectiveRows(s.db, user, now)
    ensures forall h: Held :: h in FetchedRows(s, user) ==> (Verdict(env, Fetched(s, user), h) <==> IsValid(env, h))
  {
    RunKeepsInv(env, Initial(db), es, s);
    ReadIsFresh(env, s, user);
  }

  lemma ReadIsFresh(env: Env, s: State, user: nat)
    requires Inv(env, s)
    ensures FetchedRows(s, user) == ActiveRows(s.db, user)
    ensures forall h: Held :: h in FetchedRows(s, user) ==> (Verdict(env, Fetched(s, user), h) <==> IsValid(env, h))
  {
    FetchKeepsInv(env, s, user);
    forall h: Held | h in FetchedRows(s, user)
      ensures Verdict(env, Fetched(s, user), h) <==> IsValid(env, h)
    {
      JudgeKeepsInv(env, Fetched(s, user), h);
    }
  }

  /** A properly nested run that stays inside the block at `depth`. */
  ghost predicate LeadsInside(env: Env, s: State, es: seq<Event>, end: State, depth: nat)
    decreases |es|
  {
    if es == [] then s == end
    else
      && Enabled(s, es[0]) && !es[0].Others? && |Step(env, s, es[0]).frames| > depth
      && LeadsInside(env, Step(env, s, es[0]), es[1..], end, depth)
  }

  /** The transaction at `depth` and what lies around it are the same. */
  predicate SameUpTo(before: seq<Frame>, now: seq<Frame>, depth: nat) {
    && |before| > depth && |now| > depth && before[..depth] == now[..depth]
    && before[depth].AtomicBlock? && now[depth].AtomicBlock? && now[depth].snapshot == before[depth].snapshot
  }

  lemma OnCommitKeepsOuterFrames(frames: seq<Frame>, hooks: seq<Scope>, depth: nat)
    requires |frames| > depth && frames[depth].AtomicBlock?
    ensures SameUpTo(frames, OnCommit(frames, hooks), depth)
  {
    forall i: nat | i < depth ensures OnCommit(frames, hooks)[i] == frames[i] {
      HooksJoinInnermost(frames, hooks, i);
    }
  }

  lemma LongerFramesAgree(frames: seq<Frame>, r: seq<Frame>, depth: nat)
    requires |frames| > depth + 1 && SameUpTo(frames[..|frames| - 1], r, depth)
    ensures SameUpTo(frames, r, depth)
  {
    assert frames[..|frames| - 1][..depth] == frames[..depth];
  }

  /** A commit inside a transaction only hands its hooks on. */
  lemma InnerCommitHandsOn(s: State, depth: nat)
    requires Top(s) && Innermost(s).AtomicBlock? && |s.frames| > depth + 1 && s.frames[depth].AtomicBlock?
    ensures Committed(s) == s.(frames := OnCommit(s.frames[..|s.frames| - 1], Innermost(s).hooks))
  {
    assert s.frames[..|s.frames| - 1][depth].AtomicBlock?;
  }

  lemma CommitKeepsOuterFrames(s: State, depth: nat)
    requires Top(s) && Innermost(s).AtomicBlock? && |s.frames| > depth + 1 && s.frames[depth].AtomicBlock?
    ensures SameUpTo(s.frames, Committed(s).frames, depth)
  {
    var rest, hooks := s.frames[..|s.frames| - 1], Innermost(s).hooks;
    InnerCommitHandsOn(s, depth);
    OnCommitKeepsOuterFrames(rest, hooks, depth);
    LongerFramesAgree(s.frames, OnCommit(rest, hooks), depth);
  }

  /** Nothing that happens inside a transaction changes what leaving it restores. */
  lemma StepKeepsOuterFrames(env: Env, s: State, e: Event, depth: nat)
    requires Enabled(s, e) && !e.Others? && |s.frames| > depth && |Step(env, s, e).frames| > depth
    requires s.frames[depth].AtomicBlock?
    ensures SameUpTo(s.frames, Step(env, s, e).frames, depth)
  {
    match e {
      case Commit => CommitKeepsOuterFrames(s, depth);
      case Mutate(view, who, hooked) => OnCommitKeepsOuterFrames(s.frames, Hooks(who, hooked), depth);
      case _ =>
    }
  }

  lemma {:induction false} InsideRunKeepsOuterFrames(env: Env, s: State, es: seq<Event>, end: State, depth: nat)
    requires Inv(env, s) && LeadsInside(env, s, es, end, depth)
    requires |s.frames| > depth && s.frames[depth].AtomicBlock?
    ensures Inv(env, end) && SameUpTo(s.frames, end.frames, depth)
    decreases |es|
  {
    if es != [] {
      StepKeepsInv(env, s, es[0]);
      StepKeepsOuterFrames(env, s, es[0], depth);
      InsideRunKeepsOuterFrames(env, Step(env, s, es[0]), es[1..], end, depth);
    }
  }

  /** A failed operation leaves no trace, whatever it and its receivers did inside their transaction: write,
      read, commit or roll back savepoints, open request blocks. Rolled back, the tables and blocks are
      those before it, and rows and verdicts read afterwards are theirs. */
  lemma FailedWriteLeavesNoTrace(env: Env, s: State, es: seq<Event>, end: State, user: nat)
    requires Inv(env, s)
    requires LeadsInside(env, s.(frames := s.frames + [AtomicBlock(s.db, [])]), es, end, |s.frames|)
    requires |end.frames| == |s.frames| + 1
    ensures Top(end) && Innermost(end).AtomicBlock?
    ensures RolledBack(end).db == s.db && RolledBack(end).frames == s.frames && Inv(env, RolledBack(end))
    ensures FetchedRows(RolledBack(end), user) == ActiveRows(s.db, user)
    ensures forall h: Held :: h in FetchedRows(RolledBack(end), user) ==>
              (Verdict(env, Fetched(RolledBack(end), user), h) <==> IsValid(env, h))
  {
    var inside := s.(frames := s.frames + [AtomicBlock(s.db, [])]);
    EnterAtomicKeepsInv(env, s);
    InsideRunKeepsOuterFrames(env, inside, es, end, |s.frames|);
    RollbackKeepsInv(env, end);
    ReadIsFresh(env, RolledBack(end), user);
  }

  // ---- Staleness: with other requests committing as well ------------------------------------------

  /** The rows of `user` at some settled moment since the store was opened. */
  ghost predicate SeenSince(s: State, user: nat, rows: set<Held>) {
    exists t: nat :: s.since <= t < |s.log| && s.log[t].settled && rows == ActiveRows(s.log[t].db, user)
  }

  ghost predicate Recent(s: State) {
    && s.log != [] && s.log[|s.log| - 1].db == s.db && s.since < |s.log|
    && (forall t: nat :: t < |s.log| ==> Integrity(s.log[t].db)) && SnapshotsWhole(s)
    && (s.store.Some? && !Unsettled(s) ==> s.log[|s.log| - 1].settled)
    && (s.store.Some? ==> forall u :: u in s.store.value.rows ==> SeenSince(s, u, s.store.value.rows[u]))
  }

  lemma LongerLogIsRecent(s: State, r: State)
    requires Recent(s) && s.store.Some? && r.store.Some? && r.since == s.since
    requires s.log <= r.log && r.log[|r.log| - 1].db == r.db
    requires (forall t: nat :: t < |r.log| ==> Integrity(r.log[t].db)) && SnapshotsWhole(r)
    requires !Unsettled(r) ==> r.log[|r.log| - 1].settled
    requires forall u :: u in r.store.value.rows ==>
               u in s.store.value.rows && r.store.value.rows[u] == s.store.value.rows[u]
    ensures Recent(r)
  {
    forall u | u in r.store.value.rows ensures SeenSince(r, u, r.store.value.rows[u]) {
      var t: nat :| s.since <= t < |s.log| && s.log[t].settled && s.store.value.rows[u] == ActiveRows(s.log[t].db, u);
      assert r.log[t] == s.log[t];
    }
  }

  lemma {:induction false} HooksKeepRecent(s: State, hooks: seq<Scope>)
    requires Recent(s)
    ensures Recent(RunHooks(s, hooks))
    decreases |hooks|
  {
    if hooks != [] {
      var next := Invalidate(s, hooks[0]);
      if s.store.Some? {
        LongerLogIsRecent(s, next);
      }
      HooksKeepRecent(next, hooks[1..]);
    }
  }

  lemma FetchKeepsRecent(s: State, user: nat)
    requires Recent(s)
    ensures Recent(Fetched(s, user))
    ensures if Usable(GetStore(s)) then SeenSince(s, user, FetchedRows(s, user)) else FetchedRows(s, user) == ActiveRows(s.db, user)
  {
    var g := GetStore(s);
    if s.store.Some? {
      LongerLogIsRecent(s, g);
    }
    if Usable(g) {
      assert ActiveRows(s.db, user) == ActiveRows(s.log[|s.log| - 1].db, user);
      assert user !in g.store.value.rows ==> SeenSince(s, user, ActiveRows(s.db, user));
      var f := Fetched(s, user);
      forall u | u in f.store.value.rows ensures SeenSince(f, u, f.store.value.rows[u]) {
        if u in g.store.value.rows {
          assert SeenSince(g, u, g.store.value.rows[u]);
        } else {
          assert SeenSince(s, u, ActiveRows(s.db, user));
        }
      }
    }
  }

  lemma FramesKeepRecent(s: State, frames: seq<Frame>)
    requires Recent(s) && SnapshotsWhole(s.(frames := frames))
    requires InAtomicBlock(s.frames) ==> InAtomicBlock(frames)
    ensures Recent(s.(frames := frames))
  {
    if s.store.Some? {
      LongerLogIsRecent(s, s.(frames := frames));
    }
  }

  /** A new view, under whatever blocks it was reached. */
  lemma SeenKeepsRecent(s: State, frames: seq<Frame>, db: Db, settled: bool)
    requires Recent(s) && Integrity(db) && SnapshotsWhole(s.(frames := frames))
    requires !Unsettled(s.(frames := frames)) ==> settled
    ensures Recent(Seen(s.(frames := frames), db, settled))
  {
    if s.store.Some? {
      LongerLogIsRecent(s, Seen(s.(frames := frames), db, settled));
    }
  }

  lemma MutateKeepsRecent(s: State, view: Db, who: Scope, hooked: bool)
    requires Recent(s) && Integrity(view) && InAtomicBlock(s.frames)
    ensures Recent(Mutated(s, view, who, hooked))
  {
    var r := Mutated(s, view, who, hooked);
    assert r.dirty && SnapshotsWhole(r);
    MutatedStaysInside(s, view, who, hooked);
    if s.store.Some? {
      LongerLogIsRecent(s, r);
    }
  }

  lemma MutatedStaysInside(s: State, view: Db, who: Scope, hooked: bool)
    requires InAtomicBlock(s.frames)
    ensures InAtomicBlock(Mutated(s, view, who, hooked).frames)
  {
    var i: nat :| i < |s.frames| && s.frames[i].AtomicBlock?;
    assert OnCommit(s.frames, Hooks(who, hooked))[i].AtomicBlock?;
  }

  lemma JudgeKeepsRecent(env: Env, s: State, h: Held)
    requires Recent(s)
    ensures Recent(Judged(env, s, h))
  {
    if s.store.Some? {
      LongerLogIsRecent(s, Judged(env, s, h));
    }
  }

  lemma OnCommitKeepsRecent(s: State, frames: seq<Frame>, hooks: seq<Scope>)
    requires Recent(s) && InAtomicBlock(frames) && SnapshotsWhole(s.(frames := frames))
    ensures Recent(s.(frames := OnCommit(frames, hooks)))
  {
    var i: nat :| i < |frames| && frames[i].AtomicBlock?;
    assert OnCommit(frames, hooks)[i].AtomicBlock?;
    FramesKeepRecent(s, OnCommit(frames, hooks));
  }

  lemma CommitKeepsRecent(s: State)
    requires Recent(s) && Top(s) && Innermost(s).AtomicBlock?
    ensures Recent(Committed(s))
  {
    var rest, hooks := s.frames[..|s.frames| - 1], Innermost(s).hooks;
    if InAtomicBlock(rest) {
      OnCommitKeepsRecent(s, rest, hooks);
    } else {
      SeenKeepsRecent(s, rest, s.db, true);
      HooksKeepRecent(Seen(s.(frames := rest), s.db, true), hooks);
    }
  }

  lemma ExitKeepsRecent(s: State)
    requires Recent(s) && Top(s) && !Innermost(s).AtomicBlock?
    ensures Recent(Exited(s))
  {
    var rest := s.frames[..|s.frames| - 1];
    if InAtomicBlock(s.frames) {
      var i: nat :| i < |s.frames| && s.frames[i].AtomicBlock?;
      assert rest[i].AtomicBlock?;
    }
    FramesKeepRecent(s, rest);
  }

  lemma PushKeepsRecent(s: State, f: Frame)
    requires Recent(s) && (f.AtomicBlock? ==> Integrity(f.snapshot))
    ensures Recent(s.(frames := s.frames + [f]))
  {
    if InAtomicBlock(s.frames) {
      var i: nat :| i < |s.frames| && s.frames[i].AtomicBlock?;
      assert (s.frames + [f])[i].AtomicBlock?;
    }
    FramesKeepRecent(s, s.frames + [f]);
  }

  lemma OthersKeepRecent(s: State, view: Db, restores: seq<Frame>)
    requires Recent(s) && Enabled(s, Others(view, restores))
    ensures Recent(Seen(s.(frames := restores), view, !Unsettled(s)))
  {
    assert forall i: nat :: i < |restores| ==> (s.frames[i].AtomicBlock? <==> restores[i].AtomicBlock?);
    SeenKeepsRecent(s, restores, view, !Unsettled(s));
  }

  lemma StepKeepsRecent(env: Env, s: State, e: Event)
    requires Recent(s) && Enabled(s, e)
    ensures Recent(Step(env, s, e))
  {
    match e {
      case EnterRequest =>
        if s.store.Some? {
          PushKeepsRecent(s, InnerBlock);
        }
      case ExitRequest => ExitKeepsRecent(s);
      case EnterAtomic =>
        assert s.db == s.log[|s.log| - 1].db;
        PushKeepsRecent(s, AtomicBlock(s.db, []));
      case Commit => CommitKeepsRecent(s);
      case Rollback =>
        var rest := s.frames[..|s.frames| - 1];
        SeenKeepsRecent(s, rest, Innermost(s).snapshot, !Unsettled(s.(frames := rest)));
      case Mutate(view, who, hooked) => MutateKeepsRecent(s, view, who, hooked);
      case TouchRole(view) => SeenKeepsRecent(s, s.frames, view, !Unsettled(s));
      case Fetch(user) => FetchKeepsRecent(s, user);
      case Judge(h) => JudgeKeepsRecent(env, s, h);
      case Others(view, restores) => OthersKeepRecent(s, view, restores);
    }
  }

  lemma {:induction false} RunKeepsRecent(env: Env, s: State, es: seq<Event>, end: State)
    requires Recent(s) && Leads(env, s, es, end)
    ensures Recent(end)
    decreases |es|
  {
    if es != [] {
      StepKeepsRecent(env, s, es[0]);
      RunKeepsRecent(env, Step(env, s, es[0]), es[1..], end);
    }
  }

  /** Main result: whatever other requests commit meanwhile, the rows behind a read are those of this
      instant, or the table's rows at some moment since the outermost request block was entered, a moment
      free of writes that this request had not committed. */
  lemma ReadsAreNoOlderThanTheRequest(env: Env, db: Db, es: seq<Event>, s: State, user: nat)
    requires Integrity(db) && Leads(env, Initial(db), es, s)
    ensures FetchedRows(s, user) == ActiveRows(s.db, user) || SeenSince(s, user, FetchedRows(s, user))
    ensures Usable(GetStore(s)) ==> SeenSince(s, user, FetchedRows(s, user))
  {
    RunKeepsRecent(env, Initial(db), es, s);
    FetchKeepsRecent(s, user);
  }

  /** So an assignment that was not ACTIVE at any moment since then is never used: a revocation is
      effective by the next request at the latest. */
  lemma RevocationIsEffectiveByNextRequest(env: Env, db: Db, es: seq<Event>, s: State, user: nat, pk: nat)
    requires Integrity(db) && Leads(env, Initial(db), es, s) && s.store.Some?
    requires forall t: nat :: s.since <= t < |s.log| && pk in s.log[t].db.assignments ==>
               s.log[t].db.assignments[pk].status != ACTIVE
    ensures forall h :: h in FetchedRows(s, user) ==> h.a.pk != pk
  {
    RunKeepsRecent(env, Initial(db), es, s);
    FetchKeepsRecent(s, user);
    var t: nat := if Usable(GetStore(s)) then SeenAt(s, user) else |s.log| - 1;
    assert FetchedRows(s, user) == ActiveRows(s.log[t].db, user) && Integrity(s.log[t].db);
  }

  ghost function SeenAt(s: State, user: nat): (t: nat)
    requires SeenSince(s, user, FetchedRows(s, user))
    ensures s.since <= t < |s.log| && s.log[t].settled && FetchedRows(s, user) == ActiveRows(s.log[t].db, user)
  {
    var t: nat :| s.since <= t < |s.log| && s.log[t].settled && FetchedRows(s, user) == ActiveRows(s.log[t].db, user);
    t
  }
}
