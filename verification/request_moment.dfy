/** With other requests committing meanwhile, a whole decision inside a request, rows and verdicts together,
    is the decision of one moment; and inside a transaction that has written it is that of this instant. */
module RequestMoment {
  import opened Wrappers
  import opened Ancestry
  import opened Engine
  import opened RequestCache

  // ---- Transactions that have written -----------------------------------------------------------------

  /** Reads bypass the store: rows and verdicts are those of the tables as they are. */
  lemma UnsettledReadsAreFresh(env: Env, s: State, user: nat, h: Held)
    requires Unsettled(s)
    ensures Fetched(s, user) == s && FetchedRows(s, user) == ActiveRows(s.db, user)
    ensures Judged(env, s, h) == s && (Verdict(env, s, h) <==> IsValid(env, h))
  {
  }

  /** A run in the same request, other requests included, that does not leave its outermost transaction. */
  ghost predicate LeadsOn(env: Env, s: State, es: seq<Event>, end: State)
    decreases |es|
  {
    if es == [] then s == end
    else
      && Enabled(s, es[0]) && !es[0].EnterRequest? && !es[0].ExitRequest? && InAtomicBlock(Step(env, s, es[0]).frames)
      && LeadsOn(env, Step(env, s, es[0]), es[1..], end)
  }

  lemma StepStaysUnsettled(env: Env, s: State, e: Event)
    requires Unsettled(s) && Enabled(s, e) && !e.EnterRequest? && !e.ExitRequest? && InAtomicBlock(Step(env, s, e).frames)
    ensures Unsettled(Step(env, s, e))
  {
    if e.Commit? {
      var rest := s.frames[..|s.frames| - 1];
      HooksKeepDirty(Seen(s.(frames := rest), s.db, true), Innermost(s).hooks);
    }
  }

  lemma {:induction false} HooksKeepDirty(s: State, hooks: seq<Scope>)
    requires s.dirty
    ensures RunHooks(s, hooks).dirty
    decreases |hooks|
  {
    if hooks != [] {
      HooksKeepDirty(Invalidate(s, hooks[0]), hooks[1..]);
    }
  }

  /** Whatever follows an invalidation in its transaction, be it other requests' commits, reads are fresh. An
      operation that has locked and reloaded its role decides on the tables as they are. */
  lemma {:induction false} ReadsAfterInvalidationAreFresh(env: Env, s: State, es: seq<Event>, end: State, user: nat, h: Held)
    requires Unsettled(s) && LeadsOn(env, s, es, end)
    ensures Unsettled(end)
    ensures FetchedRows(end, user) == ActiveRows(end.db, user) && (Verdict(env, end, h) <==> IsValid(env, h))
    decreases |es|
  {
    if es == [] {
      UnsettledReadsAreFresh(env, s, user, h);
    } else {
      StepStaysUnsettled(env, s, es[0]);
      ReadsAfterInvalidationAreFresh(env, Step(env, s, es[0]), es[1..], end, user, h);
    }
  }

  /** `_refresh_for_mutation` is such an invalidation. */
  lemma GuardsReadTheTables(env: Env, s: State, es: seq<Event>, end: State, user: nat, now: int)
    requires InAtomicBlock(s.frames) && LeadsOn(env, Mutated(s, s.db, None, false), es, end)
    ensures InForce(FetchedRows(end, user), now) == EffectiveRows(end.db, user, now)
    ensures forall h :: Verdict(env, end, h) <==> IsValid(env, h)
  {
    MutatedStaysInside(s, s.db, None, false);
    forall h ensures FetchedRows(end, user) == ActiveRows(end.db, user) && (Verdict(env, end, h) <==> IsValid(env, h)) {
      ReadsAfterInvalidationAreFresh(env, Mutated(s, s.db, None, false), es, end, user, h);
    }
    var any: Held :| true;
    ReadsAfterInvalidationAreFresh(env, Mutated(s, s.db, None, false), es, end, user, any);
  }

  // ---- One moment -------------------------------------------------------------------------------------

  /** The user of a committed row never changes, and its key is never given to another row. */
  ghost predicate KeysKeepUsers(log: seq<Moment>) {
    forall i: nat, j: nat, k ::
      i < |log| && j < |log| && log[i].settled && log[j].settled
      && k in log[i].db.assignments && k in log[j].db.assignments ==>
        log[i].db.assignments[k].user == log[j].db.assignments[k].user
  }

  /** Every verdict in the store is that of a row in the store. */
  ghost predicate VerdictsMatch(env: Env, memo: Memo) {
    forall k :: k in memo.verdicts ==>
      exists u, h :: u in memo.rows && h in memo.rows[u] && h.a.pk == k && (memo.verdicts[k] <==> IsValid(env, h))
  }

  /** Commit hooks wait only where the flag is up. */
  ghost predicate HooksAreMarked(s: State) {
    forall i: nat, j: nat :: i < j < |s.frames| && s.frames[i].RequestBlock? && s.frames[j].AtomicBlock? ==>
      s.frames[j].hooks == []
  }

  ghost predicate Coherent(env: Env, s: State) {
    && WellNested(s)
    && (Usable(s) ==> VerdictsMatch(env, s.store.value) && HooksAreMarked(s))
  }

  /** As the engine asks: a row is judged after the read that handed it out, so it is in the store if the
      store is in use. */
  predicate ReadFirst(s: State, e: Event) {
    e.Judge? && Usable(GetStore(s)) ==> e.h.a.user in GetStore(s).store.value.rows
  }

  ghost predicate LeadsReading(env: Env, s: State, es: seq<Event>, end: State)
    decreases |es|
  {
    if es == [] then s == end
    else Enabled(s, es[0]) && ReadFirst(s, es[0]) && LeadsReading(env, Step(env, s, es[0]), es[1..], end)
  }

  lemma GetStoreKeepsCoherent(env: Env, s: State)
    requires Coherent(env, s)
    ensures Coherent(env, GetStore(s))
  {
  }

  lemma FetchKeepsCoherent(env: Env, s: State, user: nat)
    requires Coherent(env, s)
    ensures Coherent(env, Fetched(s, user))
  {
    GetStoreKeepsCoherent(env, s);
    var g, f := GetStore(s), Fetched(s, user);
    if Usable(f) {
      forall k | k in f.store.value.verdicts
        ensures exists u, h :: u in f.store.value.rows && h in f.store.value.rows[u] && h.a.pk == k
                               && (f.store.value.verdicts[k] <==> IsValid(env, h))
      {
        var u, h :| u in g.store.value.rows && h in g.store.value.rows[u] && h.a.pk == k
                    && (g.store.value.verdicts[k] <==> IsValid(env, h));
        assert f.store.value.rows[u] == g.store.value.rows[u];
      }
    }
  }

  lemma JudgeKeepsCoherent(env: Env, s: State, h: Held)
    requires Coherent(env, s) && Enabled(s, Judge(h)) && ReadFirst(s, Judge(h))
    ensures Coherent(env, Judged(env, s, h))
  {
    GetStoreKeepsCoherent(env, s);
    var g, r := GetStore(s), Judged(env, s, h);
    if Usable(r) {
      assert h in g.store.value.rows[h.a.user];
      forall k | k in r.store.value.verdicts
        ensures exists u, x :: u in r.store.value.rows && x in r.store.value.rows[u] && x.a.pk == k
                               && (r.store.value.verdicts[k] <==> IsValid(env, x))
      {
        if k in g.store.value.verdicts {
          var u, x :| u in g.store.value.rows && x in g.store.value.rows[u] && x.a.pk == k
                      && (g.store.value.verdicts[k] <==> IsValid(env, x));
          assert r.store.value.verdicts[k] == g.store.value.verdicts[k];
        } else {
          assert k == h.a.pk;
        }
      }
    }
  }

  /** Blocks of the same kinds nest alike. */
  lemma SameKindsNestAlike(s: State, frames: seq<Frame>)
    requires WellNested(s) && |frames| == |s.frames|
    requires forall i: nat :: i < |frames| ==>
               (s.frames[i].RequestBlock? <==> frames[i].RequestBlock?) && (s.frames[i].InnerBlock? <==> frames[i].InnerBlock?)
    ensures WellNested(s.(frames := frames))
  {
    if s.store.Some? {
      var i: nat :| i < |s.frames| && s.frames[i].RequestBlock?;
      assert frames[i].RequestBlock?;
    }
    forall j: nat | j < |frames| && frames[j].InnerBlock? ensures exists i: nat :: i < j && frames[i].RequestBlock? {
      assert s.frames[j].InnerBlock?;
      var i: nat :| i < j && s.frames[i].RequestBlock?;
      assert frames[i].RequestBlock?;
    }
  }

  lemma OnCommitKeepsCoherent(env: Env, s: State, hooks: seq<Scope>)
    requires Coherent(env, s) && (Usable(s) ==> hooks == [])
    ensures Coherent(env, s.(frames := OnCommit(s.frames, hooks)))
  {
    var r := s.(frames := OnCommit(s.frames, hooks));
    SameKindsNestAlike(s, r.frames);
    if Usable(s) {
      forall i: nat, j: nat | i < j < |r.frames| && r.frames[i].RequestBlock? && r.frames[j].AtomicBlock?
        ensures r.frames[j].hooks == []
      {
        HooksJoinInnermost(s.frames, hooks, j);
      }
    }
  }

  lemma {:induction false} HooksKeepCoherent(env: Env, s: State, hooks: seq<Scope>)
    requires Coherent(env, s) && (Usable(s) ==> hooks == [])
    ensures Coherent(env, RunHooks(s, hooks))
    decreases |hooks|
  {
    if hooks != [] {
      HooksKeepCoherent(env, Invalidate(s, hooks[0]), hooks[1..]);
    }
  }

  lemma CommitKeepsCoherent(env: Env, s: State)
    requires Coherent(env, s) && Top(s) && Innermost(s).AtomicBlock?
    ensures Coherent(env, Committed(s))
  {
    var rest, hooks := s.frames[..|s.frames| - 1], Innermost(s).hooks;
    PopKeepsNesting(s);
    if s.store.Some? {
      var i: nat :| i < |s.frames| && s.frames[i].RequestBlock?;
      assert !s.dirty ==> hooks == [];
    }
    if InAtomicBlock(rest) {
      OnCommitKeepsCoherent(env, s.(frames := rest), hooks);
    } else {
      HooksKeepCoherent(env, Seen(s.(frames := rest), s.db, true), hooks);
    }
  }

  lemma MutateKeepsCoherent(env: Env, s: State, view: Db, who: Scope, hooked: bool)
    requires Coherent(env, s) && InAtomicBlock(s.frames)
    ensures Coherent(env, Mutated(s, view, who, hooked))
  {
    var written := Invalidate(Seen(s, view, false), who);
    assert written.dirty;
    OnCommitKeepsCoherent(env, written, Hooks(who, hooked));
  }

  lemma EnterKeepsCoherent(env: Env, s: State)
    requires Coherent(env, s)
    ensures Coherent(env, Entered(s))
  {
    if s.store.Some? {
      PushKeepsNesting(s, InnerBlock);
    } else {
      assert Entered(s).frames[|s.frames|].RequestBlock?;
      assert forall i: nat :: i < |s.frames| ==> !s.frames[i].InnerBlock?;
    }
  }

  lemma ExitKeepsCoherent(env: Env, s: State)
    requires Coherent(env, s) && Top(s) && !Innermost(s).AtomicBlock?
    ensures Coherent(env, Exited(s))
  {
    var r := Exited(s);
    if Innermost(s).RequestBlock? {
      assert forall i: nat :: i < |r.frames| ==> !r.frames[i].RequestBlock?;
    } else {
      var i: nat :| i < |s.frames| - 1 && s.frames[i].RequestBlock?;
      assert r.frames[i].RequestBlock?;
    }
  }

  lemma RollbackKeepsCoherent(env: Env, s: State)
    requires Coherent(env, s) && Top(s) && Innermost(s).AtomicBlock?
    ensures Coherent(env, RolledBack(s))
  {
    PopKeepsNesting(s);
  }

  lemma StepKeepsCoherent(env: Env, s: State, e: Event)
    requires Coherent(env, s) && Enabled(s, e) && ReadFirst(s, e)
    ensures Coherent(env, Step(env, s, e))
  {
    match e {
      case EnterRequest => EnterKeepsCoherent(env, s);
      case ExitRequest => ExitKeepsCoherent(env, s);
      case EnterAtomic => PushKeepsNesting(s, AtomicBlock(s.db, []));
      case Commit => CommitKeepsCoherent(env, s);
      case Rollback => RollbackKeepsCoherent(env, s);
      case Mutate(view, who, hooked) => MutateKeepsCoherent(env, s, view, who, hooked);
      case TouchRole(_) =>
      case Fetch(user) => FetchKeepsCoherent(env, s, user);
      case Judge(h) => JudgeKeepsCoherent(env, s, h);
      case Others(_, restores) => SameKindsNestAlike(s, restores);
    }
  }

  lemma {:induction false} RunKeepsCoherent(env: Env, s: State, es: seq<Event>, end: State)
    requires Recent(s) && Coherent(env, s) && LeadsReading(env, s, es, end)
    ensures Recent(end) && Coherent(env, end)
    decreases |es|
  {
    if es != [] {
      StepKeepsRecent(env, s, es[0]);
      StepKeepsCoherent(env, s, es[0]);
      RunKeepsCoherent(env, Step(env, s, es[0]), es[1..], end);
    }
  }

  lemma ActiveRowsHaveKeys(db: Db, user: nat, h: Held)
    requires Integrity(db) && h in ActiveRows(db, user)
    ensures h.a.pk in db.assignments && h.a == db.assignments[h.a.pk] && h.a.user == user
    ensures h.a.role in db.roles && h.role == db.roles[h.a.role]
  {
  }

  /** Two rows of the store with one key are one row. */
  lemma StoredRowsHaveOwnKeys(s: State, u: nat, h: Held, v: nat, x: Held)
    requires Recent(s) && KeysKeepUsers(s.log) && s.store.Some?
    requires u in s.store.value.rows && h in s.store.value.rows[u]
    requires v in s.store.value.rows && x in s.store.value.rows[v] && h.a.pk == x.a.pk
    ensures h == x
  {
    var i := StoredSince(s, u);
    var j := StoredSince(s, v);
    ActiveRowsHaveKeys(s.log[i].db, u, h);
    ActiveRowsHaveKeys(s.log[j].db, v, x);
    assert u == v;
    ActiveRowsHaveKeys(s.log[i].db, u, x);
  }

  lemma StoredSince(s: State, u: nat) returns (t: nat)
    requires Recent(s) && s.store.Some? && u in s.store.value.rows
    ensures t < |s.log| && s.log[t].settled && Integrity(s.log[t].db) && s.store.value.rows[u] == ActiveRows(s.log[t].db, u)
  {
    assert SeenSince(s, u, s.store.value.rows[u]);
    t :| s.since <= t < |s.log| && s.log[t].settled && s.store.value.rows[u] == ActiveRows(s.log[t].db, u);
  }

  /** The verdict used with a row that was read is the validity of that row. */
  lemma VerdictIsOfTheRow(env: Env, s: State, user: nat, h: Held)
    requires Recent(s) && Coherent(env, s) && KeysKeepUsers(s.log) && h in FetchedRows(s, user)
    ensures Verdict(env, Fetched(s, user), h) <==> IsValid(env, h)
  {
    FetchKeepsCoherent(env, s, user);
    FetchKeepsRecent(s, user);
    var f := Fetched(s, user);
    assert f.log == s.log && GetStore(f) == f;
    if Usable(f) && h.a.pk in f.store.value.verdicts {
      var v, x :| v in f.store.value.rows && x in f.store.value.rows[v] && x.a.pk == h.a.pk
                  && (f.store.value.verdicts[h.a.pk] <==> IsValid(env, x));
      StoredRowsHaveOwnKeys(f, user, h, v, x);
    }
  }

  /** What the engine uses of the rows it reads: those in force, judged valid. */
  ghost function Admitted(env: Env, s: State, user: nat, now: int): set<Held> {
    set h | h in InForce(FetchedRows(s, user), now) && Verdict(env, Fetched(s, user), h)
  }

  /** Main result: whatever other requests commit meanwhile, the rows a decision uses, validity included, are
      exactly those a fresh decision would have used at one moment since the outermost request block was
      entered, and that moment is settled or is this instant. */
  lemma DecisionIsOfOneMoment(env: Env, db: Db, es: seq<Event>, s: State, user: nat, now: int) returns (t: nat)
    requires Integrity(db) && LeadsReading(env, Initial(db), es, s) && KeysKeepUsers(s.log)
    ensures s.since <= t < |s.log| && (s.log[t].settled || s.log[t].db == s.db)
    ensures Admitted(env, s, user, now) == set h | h in EffectiveRows(s.log[t].db, user, now) && IsValid(env, h)
  {
    RunKeepsCoherent(env, Initial(db), es, s);
    FetchKeepsRecent(s, user);
    t := if Usable(GetStore(s)) then SeenAt(s, user) else |s.log| - 1;
    assert FetchedRows(s, user) == ActiveRows(s.log[t].db, user);
    forall h | h in FetchedRows(s, user) ensures Verdict(env, Fetched(s, user), h) <==> IsValid(env, h) {
      VerdictIsOfTheRow(env, s, user, h);
    }
  }

  // ---- What blocks and hooks leave behind ---------------------------------------------------------------

  /** A commit drops from the store what its hooks name: a user's rows, or everything. */
  lemma {:induction false} HooksDropRows(s: State, hooks: seq<Scope>, user: nat)
    requires s.store.Some? && (Some(user) in hooks || None in hooks || user !in s.store.value.rows)
    ensures RunHooks(s, hooks).store.Some? && user !in RunHooks(s, hooks).store.value.rows
    ensures None in hooks || s.store.value == EMPTY_MEMO ==> RunHooks(s, hooks).store.value == EMPTY_MEMO
    decreases |hooks|
  {
    if hooks != [] {
      HooksDropRows(Invalidate(s, hooks[0]), hooks[1..], user);
    }
  }

  /** So after the outermost commit of a write of a user's assignments, the store has no rows of that user. */
  lemma CommitDropsRows(s: State, user: nat)
    requires Top(s) && Innermost(s).AtomicBlock? && !InAtomicBlock(s.frames[..|s.frames| - 1]) && s.store.Some?
    requires Some(user) in Innermost(s).hooks || None in Innermost(s).hooks
    ensures Committed(s).store.Some? && user !in Committed(s).store.value.rows
  {
    var rest := s.frames[..|s.frames| - 1];
    HooksDropRows(Seen(s.(frames := rest), s.db, true), Innermost(s).hooks, user);
  }

  /** Within a request, rows once handed out are handed out again, whatever other requests commit: the tables
      are not asked twice. */
  lemma RepeatedReadIsStable(s: State, user: nat, view: Db, restores: seq<Frame>)
    requires s.store.Some? && !Unsettled(s) && Enabled(s, Others(view, restores))
    ensures var f := Fetched(s, user);
            var after := Seen(f.(frames := restores), view, !Unsettled(f));
            user in f.store.value.rows && FetchedRows(after, user) == FetchedRows(s, user)
  {
    assert forall i: nat :: i < |restores| ==> (s.frames[i].AtomicBlock? <==> restores[i].AtomicBlock?);
  }

  /** Nor is a row judged twice: a verdict given is given again. */
  lemma RepeatedVerdictIsStable(env: Env, s: State, h: Held, view: Db, restores: seq<Frame>)
    requires s.store.Some? && !Unsettled(s) && Enabled(s, Others(view, restores))
    ensures var j := Judged(env, s, h);
            var after := Seen(j.(frames := restores), view, !Unsettled(j));
            && h.a.pk in j.store.value.verdicts && (j.store.value.verdicts[h.a.pk] <==> Verdict(env, s, h))
            && forall x: Held :: x.a.pk == h.a.pk ==> (Verdict(env, after, x) <==> Verdict(env, s, h))
  {
    assert forall i: nat :: i < |restores| ==> (s.frames[i].AtomicBlock? <==> restores[i].AtomicBlock?);
  }

  /** A properly nested run that stays inside the block at `depth`, other requests included. */
  ghost predicate StaysInside(env: Env, s: State, es: seq<Event>, end: State, depth: nat)
    decreases |es|
  {
    if es == [] then s == end
    else
      && Enabled(s, es[0]) && |Step(env, s, es[0]).frames| > depth
      && StaysInside(env, Step(env, s, es[0]), es[1..], end, depth)
  }

  lemma StepKeepsRequestFrame(env: Env, s: State, e: Event, depth: nat)
    requires Enabled(s, e) && depth < |s.frames| && depth < |Step(env, s, e).frames| && s.frames[depth].RequestBlock?
    ensures Step(env, s, e).frames[depth] == s.frames[depth]
  {
    if e.Commit? {
      var rest := s.frames[..|s.frames| - 1];
      if InAtomicBlock(rest) {
        HooksJoinInnermost(rest, Innermost(s).hooks, depth);
      }
    } else if e.Mutate? {
      HooksJoinInnermost(s.frames, Hooks(e.who, e.hooked), depth);
    }
  }

  lemma {:induction false} RunKeepsRequestFrame(env: Env, s: State, es: seq<Event>, end: State, depth: nat)
    requires StaysInside(env, s, es, end, depth) && depth < |s.frames| && s.frames[depth].RequestBlock?
    ensures depth < |end.frames| && end.frames[depth] == s.frames[depth]
    decreases |es|
  {
    if es != [] {
      StepKeepsRequestFrame(env, s, es[0], depth);
      RunKeepsRequestFrame(env, Step(env, s, es[0]), es[1..], end, depth);
    }
  }

  /** Leaving the outermost request block leaves no store behind, and the dirty flag as it was found, whatever
      happened inside. */
  lemma RequestRestoresTheFlag(env: Env, s: State, es: seq<Event>, end: State)
    requires s.store.None? && StaysInside(env, Entered(s), es, end, |s.frames|) && |end.frames| == |s.frames| + 1
    ensures Top(end) && !Innermost(end).AtomicBlock?
    ensures Exited(end).store.None? && Exited(end).dirty == s.dirty && |Exited(end).frames| == |s.frames|
  {
    RunKeepsRequestFrame(env, Entered(s), es, end, |s.frames|);
  }

  /** A request block inside another shares its store and leaves no trace of itself. */
  lemma NestedRequestIsInvisible(s: State, user: nat)
    requires s.store.Some?
    ensures Entered(s) == s.(frames := s.frames + [InnerBlock]) && Exited(Entered(s)) == s
    ensures FetchedRows(Entered(s), user) == FetchedRows(s, user)
  {
    assert (s.frames + [InnerBlock])[..|s.frames|] == s.frames;
    if i: nat :| i < |s.frames| && s.frames[i].AtomicBlock? {
      assert (s.frames + [InnerBlock])[i].AtomicBlock?;
    }
  }

  /** A write drops from the store what it concerns at once, and leaves its hook with the innermost
      transaction and no other. */
  lemma WriteDropsAndHooks(s: State, view: Db, who: Scope, hooked: bool, i: nat)
    requires InAtomicBlock(s.frames) && i < |s.frames| && s.frames[i].AtomicBlock?
    ensures var r := Mutated(s, view, who, hooked);
            && |r.frames| == |s.frames| && r.frames[i].AtomicBlock? && r.db == view
            && r.frames[i].hooks == s.frames[i].hooks + (if hooked && IsInnermostAtomic(s.frames, i) then [who] else [])
            && (s.store.Some? ==> r.store.Some?)
            && (s.store.Some? && who.None? ==> r.store.value == EMPTY_MEMO)
            && (s.store.Some? && who.Some? ==>
                  && r.store.value.rows == s.store.value.rows - {who.value} && r.store.value.verdicts == s.store.value.verdicts)
  {
    HooksJoinInnermost(s.frames, Hooks(who, hooked), i);
  }

  /** An expired row, or one not yet in force, is never used, memoized or not. */
  lemma MemoizedWindowsAreChecked(s: State, user: nat, now: int, h: Held)
    ensures h in InForce(FetchedRows(s, user), now) <==>
            && h in FetchedRows(s, user)
            && (h.a.validFrom.Some? ==> h.a.validFrom.value <= now) && (h.a.validUntil.Some? ==> now < h.a.validUntil.value)
  {
  }
}
