/** `cache.py` and its readers as the code runs them: context variables set, reset and cleared in place. */
module RequestScope {
  import opened Wrappers
  import opened HostModel
  import opened Ancestry
  import opened Engine
  import opened RequestCache
  import Decisions

  class Context {
    var db: Db                  // this connection's view
    var frames: seq<Frame>      // the blocks it is inside
    var store: Option<Memo>     // _store
    var dirty: bool             // _transaction_dirty
    ghost var log: seq<Moment>
    ghost var since: nat

    constructor (initial: Db)
      ensures View() == Initial(initial)
    {
      db, frames, store, dirty := initial, [], None, false;
      log, since := [Moment(initial, true)], 0;
    }

    ghost function View(): State
      reads this
    {
      State(db, frames, store, dirty, log, since)
    }

    method GetStore() returns (memo: Option<Memo>)
      modifies this
      ensures View() == RequestCache.GetStore(old(View()))
      ensures memo == if Usable(View()) then store else None
    {
      if dirty {
        if InAtomicBlock(frames) {
          return None;
        }
        if store.Some? {
          store := Some(EMPTY_MEMO);
        }
        dirty := false;
      }
      return store;
    }

    method MarkTransactionDirty()
      modifies this
      ensures View() == MarkDirty(old(View()))
    {
      if InAtomicBlock(frames) {
        dirty := true;
      }
    }

    method InvalidateUser(user: nat)
      modifies this
      ensures View() == Invalidate(old(View()), Some(user))
    {
      MarkTransactionDirty();
      if store.Some? {
        store := Some(store.value.(rows := store.value.rows - {user}));
      }
    }

    method InvalidateAll()
      modifies this
      ensures View() == Invalidate(old(View()), None)
    {
      MarkTransactionDirty();
      if store.Some? {
        store := Some(EMPTY_MEMO);
      }
    }

    method EnterRequest()
      modifies this
      ensures View() == Entered(old(View()))
    {
      if store.Some? {
        frames := frames + [InnerBlock];
      } else {
        frames := frames + [RequestBlock(dirty)];
        store, dirty := Some(EMPTY_MEMO), false;
        since, log := |log|, log + [Moment(db, true)];
      }
    }

    method ExitRequest()
      requires Top(View()) && !Innermost(View()).AtomicBlock?
      modifies this
      ensures View() == Exited(old(View()))
    {
      var frame := frames[|frames| - 1];
      frames := frames[..|frames| - 1];
      if frame.RequestBlock? {
        store, dirty := None, frame.savedDirty;
      }
    }

    method EnterAtomic()
      modifies this
      ensures View() == old(View()).(frames := old(frames) + [AtomicBlock(old(db), [])])
    {
      frames := frames + [AtomicBlock(db, [])];
    }

    method Commit()
      requires Top(View()) && Innermost(View()).AtomicBlock?
      modifies this
      ensures View() == Committed(old(View()))
    {
      var hooks := frames[|frames| - 1].hooks;
      frames := frames[..|frames| - 1];
      if InAtomicBlock(frames) {
        frames := OnCommit(frames, hooks);
        return;
      }
      log := log + [Moment(db, true)];
      ghost var popped := View();
      for i := 0 to |hooks|
        invariant RunHooks(View(), hooks[i..]) == RunHooks(popped, hooks)
      {
        assert hooks[i..][0] == hooks[i] && hooks[i..][1..] == hooks[i + 1..];
        match hooks[i] {
          case Some(u) => InvalidateUser(u);
          case None => InvalidateAll();
        }
      }
    }

    method Rollback()
      requires Top(View()) && Innermost(View()).AtomicBlock?
      modifies this
      ensures View() == RolledBack(old(View()))
    {
      db := frames[|frames| - 1].snapshot;
      frames := frames[..|frames| - 1];
      log := log + [Moment(db, !Unsettled(View()))];
    }

    /** A managed write, then its invalidation; grants, transitions and permission edits add a commit hook,
        a role update does not. */
    method Write(view: Db, who: Scope, hooked: bool)
      requires InAtomicBlock(frames)
      modifies this
      ensures View() == Mutated(old(View()), view, who, hooked)
    {
      db := view;
      log := log + [Moment(view, false)];
      match who {
        case Some(u) => InvalidateUser(u);
        case None => InvalidateAll();
      }
      frames := OnCommit(frames, Hooks(who, hooked));
    }

    /** `effective_assignments` for now: windows are applied at the read, over memoized rows. */
    method EffectiveAssignments(user: nat, now: int) returns (rows: set<Held>)
      modifies this
      ensures View() == Fetched(old(View()), user)
      ensures rows == InForce(FetchedRows(old(View()), user), now)
      ensures forall h :: h in rows <==>
                && h in FetchedRows(old(View()), user)
                && (h.a.validFrom.Some? ==> h.a.validFrom.value <= now) && (h.a.validUntil.Some? ==> now < h.a.validUntil.value)
    {
      var memo := GetStore();
      if memo.None? {
        return EffectiveRows(db, user, now);
      }
      if user !in memo.value.rows {
        store := Some(memo.value.(rows := memo.value.rows[user := ActiveRows(db, user)]));
      }
      rows := set h | h in store.value.rows[user] && InWindow(h.a, now);
    }

    /** `_assignment_is_valid`, memoized by key. */
    method AssignmentIsValid(env: Env, h: Held) returns (valid: bool)
      requires Forest(env)
      modifies this
      ensures View() == Judged(env, old(View()), h)
      ensures valid == Verdict(env, old(View()), h)
    {
      var memo := GetStore();
      if memo.Some? && h.a.pk in memo.value.verdicts {
        assert memo.value.verdicts[h.a.pk := memo.value.verdicts[h.a.pk]] == memo.value.verdicts;
        return memo.value.verdicts[h.a.pk];
      }
      valid := Decisions.AssignmentIsValid(env, h);
      if memo.Some? {
        store := Some(memo.value.(verdicts := memo.value.verdicts[h.a.pk := valid]));
      }
    }

    /** The rows a decision may use: effective now, and judged valid. */
    method AdmittedRows(env: Env, user: nat, now: int) returns (admitted: set<Held>)
      requires Forest(env) && Inv(env, View())
      modifies this
      ensures Inv(env, View()) && db == old(db) && frames == old(frames)
      ensures admitted == set h | h in EffectiveRows(db, user, now) && IsValid(env, h)
    {
      FetchKeepsInv(env, View(), user);
      var rows := EffectiveAssignments(user, now);
      admitted := {};
      var todo := rows;
      while todo != {}
        invariant todo <= rows == EffectiveRows(db, user, now)
        invariant Inv(env, View()) && db == old(db) && frames == old(frames)
        invariant forall h :: h in admitted <==> h in rows - todo && IsValid(env, h)
        decreases todo
      {
        var h :| h in todo;
        todo := todo - {h};
        JudgeKeepsInv(env, View(), h);
        var valid := AssignmentIsValid(env, h);
        if valid {
          admitted := admitted + {h};
        }
      }
    }

    /** `user_permissions` and `has_perm` inside a request: exactly the answers of a fresh read, wherever
        the surrounding transactions stand. */
    method UserPermissions(env: Env, user: User, obj: Option<Obj>, now: int) returns (perms: set<Permission>)
      requires Forest(env) && Inv(env, View())
      modifies this
      ensures Inv(env, View()) && db == old(db) && frames == old(frames)
      ensures forall p :: p in perms <==> Holds(env, user, EffectiveRows(db, user.pk, now), p, obj)
    {
      var rows := AdmittedRows(env, user.pk, now);
      perms := Decisions.UserPermissions(env, user, rows, obj);
      ghost var asked := user.(superuser := false);
      forall p ensures HasPerm(env, asked, rows, p, obj) <==> HasPerm(env, asked, EffectiveRows(db, user.pk, now), p, obj) {
        if HasPerm(env, asked, EffectiveRows(db, user.pk, now), p, obj) {
          var h :| h in EffectiveRows(db, user.pk, now) && p in h.role.perms && Covers(env, h, AnchorOf(env, obj));
          assert h in rows;
        }
      }
    }
  }
}
