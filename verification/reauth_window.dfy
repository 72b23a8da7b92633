/** Window mode: electing the one fresh consumer, in real time. */
module ReAuthWindow {
  import opened ReAuth

  /** No used mark is evicted before its deadline, and no consumer lets more than `gap` pass between
      reading the clock for its validity check and adding the mark. */
  predicate Timely(s: State, e: Event, gap: int) {
    match e
    case EvictUsed(t) => t in s.cache.used ==> s.cache.used[t] <= Now(s)
    case Run(pid) => pid in s.procs && s.procs[pid].Marking? ==> Now(s) - s.procs[pid].checkedAt <= gap
    case _ => true
  }

  predicate LeadsTimely(c: Config, s: State, es: seq<Event>, end: State, gap: int)
    decreases |es|
  {
    if es == [] then s == end
    else Enabled(s, es[0]) && Timely(s, es[0], gap) && LeadsTimely(c, Step(c, s, es[0]), es[1..], end, gap)
  }

  ghost predicate Reachable(c: Config, gap: int, s: State) {
    exists now: int, es: seq<Event> :: LeadsTimely(c, Initial(now), es, s, gap)
  }

  // ---- The bound that elects one ------------------------------------------------------------------

  /** A used key outlives the last instant a timely consumer of its token can add a mark. */
  predicate UsedKeysLast(c: Config, s: State) {
    forall t :: t in s.cache.used ==> t in s.issued && s.cache.used[t] >= s.issued[t] + 2 * c.ttl
  }

  /** Once marked, a token stays marked until then. */
  predicate MarkedStayUsed(c: Config, s: State) {
    forall i: nat :: i < |s.marks| ==>
      s.marks[i].token in s.issued
      && (s.marks[i].token in s.cache.used || s.issued[s.marks[i].token] + 2 * c.ttl <= Now(s))
  }

  /** Only the first mark of a token finds it unused. */
  predicate OnlyFirstIsFirst(s: State) {
    forall i: nat, j: nat :: i < j < |s.marks| && s.marks[i].token == s.marks[j].token ==> !s.marks[j].first
  }

  /** A consumer past its check made it in time. */
  predicate CheckedInTime(p: Proc) {
    match p
    case Checking(_, _, _, payload, checkedAt, _) => checkedAt < payload.expires
    case Marking(_, _, _, payload, checkedAt) => checkedAt < payload.expires
    case _ => true
  }

  predicate AllChecked(s: State) {
    forall pid :: pid in s.procs ==> CheckedInTime(s.procs[pid])
  }

  /** Whoever was accepted left a mark, and a fresh acceptance is a first mark. */
  predicate Marked(s: State, pid: Pid, token: Nonce, wantsFresh: bool) {
    exists i: nat :: i < |s.marks| && s.marks[i].pid == pid && s.marks[i].token == token
                     && s.marks[i].wantsFresh == wantsFresh && (wantsFresh ==> s.marks[i].first)
  }

  predicate AcceptedLeftMarks(s: State) {
    forall pid :: pid in s.procs && s.procs[pid].Done? && s.procs[pid].outcome.Accepted? ==>
      Marked(s, pid, s.procs[pid].outcome.token, s.procs[pid].outcome.wantsFresh)
  }

  predicate Inv(c: Config, s: State) {
    && TokensSound(c, s) && UsedKeysLast(c, s) && MarkedStayUsed(c, s) && OnlyFirstIsFirst(s)
    && AllChecked(s) && AcceptedLeftMarks(s)
  }

  lemma ActInWindow(c: Config, cache: Cache, p: Proc)
    requires c.mode.Window? && CheckedInTime(p)
    ensures var act := ActOf(c, cache, p);
            && CheckedInTime(act.next)
            && (act.trace.Marks? <==> p.Marking?)
            && (!p.Marking? ==> act.cache.used == cache.used)
            && (!p.Marking? && act.next.Done? && act.next.outcome.Accepted? ==> act.next == p)
            && act.cache.now == cache.now
  {
  }

  /** A timely consumer adds its mark before the first mark's key can have gone. */
  lemma TimelyMarkSeesEarlier(c: Config, s: State, pid: Pid, i: nat)
    requires TokensSound(c, s) && UsedKeysLast(c, s) && MarkedStayUsed(c, s) && AllChecked(s)
    requires pid in s.procs && s.procs[pid].Marking? && Now(s) - s.procs[pid].checkedAt <= c.ttl
    requires i < |s.marks| && s.marks[i].token == s.procs[pid].token
    ensures MarkVisible(s.cache.used, s.procs[pid].token, Now(s))
  {
  }

  lemma MarkKeepsElection(c: Config, s: State, pid: Pid)
    requires c.mode.Window? && 0 <= c.ttl
    requires TokensSound(c, s) && UsedKeysLast(c, s) && MarkedStayUsed(c, s) && OnlyFirstIsFirst(s) && AllChecked(s)
    requires pid in s.procs && s.procs[pid].Marking? && Now(s) - s.procs[pid].checkedAt <= c.ttl
    ensures UsedKeysLast(c, Advance(c, s, pid)) && MarkedStayUsed(c, Advance(c, s, pid)) && OnlyFirstIsFirst(Advance(c, s, pid))
  {
    var p, r := s.procs[pid], Advance(c, s, pid);
    assert ProcSound(c, s, p);
    assert s.issued[p.token] <= Now(s);
    forall i: nat | i < |s.marks| && s.marks[i].token == p.token ensures !r.marks[|s.marks|].first {
      TimelyMarkSeesEarlier(c, s, pid, i);
    }
  }

  lemma MarkStands(s: State, r: State, pid: Pid, token: Nonce, wantsFresh: bool)
    requires Marked(s, pid, token, wantsFresh) && s.marks <= r.marks
    ensures Marked(r, pid, token, wantsFresh)
  {
  }

  lemma AdvanceKeepsMarks(c: Config, s: State, pid: Pid)
    requires c.mode.Window? && AllChecked(s) && AcceptedLeftMarks(s) && pid in s.procs
    ensures AllChecked(Advance(c, s, pid)) && AcceptedLeftMarks(Advance(c, s, pid))
  {
    var p, r := s.procs[pid], Advance(c, s, pid);
    assert CheckedInTime(p);
    ActInWindow(c, s.cache, p);
    assert s.marks <= r.marks;
    forall q | q in r.procs && r.procs[q].Done? && r.procs[q].outcome.Accepted?
      ensures Marked(r, q, r.procs[q].outcome.token, r.procs[q].outcome.wantsFresh)
    {
      if q == pid && p.Marking? {
        assert r.marks[|s.marks|].pid == pid;
      } else {
        assert r.procs[q] == s.procs[q];
        MarkStands(s, r, q, s.procs[q].outcome.token, s.procs[q].outcome.wantsFresh);
      }
    }
    forall q | q in r.procs ensures CheckedInTime(r.procs[q]) {
      if q != pid {
        assert CheckedInTime(s.procs[q]);
      }
    }
  }

  lemma AdvanceKeepsInv(c: Config, s: State, pid: Pid)
    requires c.mode.Window? && 0 <= c.ttl && Inv(c, s) && pid in s.procs
    requires s.procs[pid].Marking? ==> Now(s) - s.procs[pid].checkedAt <= c.ttl
    ensures Inv(c, Advance(c, s, pid))
  {
    AdvanceKeepsTokensSound(c, s, pid);
    AdvanceKeepsMarks(c, s, pid);
    if s.procs[pid].Marking? {
      MarkKeepsElection(c, s, pid);
    } else {
      OtherStepKeepsElection(c, s, pid);
    }
  }

  /** Only marks touch the used keys. */
  lemma OtherStepKeepsElection(c: Config, s: State, pid: Pid)
    requires c.mode.Window? && AllChecked(s) && pid in s.procs && !s.procs[pid].Marking?
    requires UsedKeysLast(c, s) && MarkedStayUsed(c, s) && OnlyFirstIsFirst(s)
    ensures UsedKeysLast(c, Advance(c, s, pid)) && MarkedStayUsed(c, Advance(c, s, pid)) && OnlyFirstIsFirst(Advance(c, s, pid))
  {
    assert CheckedInTime(s.procs[pid]);
    ActInWindow(c, s.cache, s.procs[pid]);
    AdvanceRecords(c, s, pid);
  }

  lemma OthersKeepMarks(c: Config, s: State, e: Event)
    requires AllChecked(s) && AcceptedLeftMarks(s) && Enabled(s, e) && !e.Run?
    ensures AllChecked(Step(c, s, e)) && AcceptedLeftMarks(Step(c, s, e)) && Step(c, s, e).marks == s.marks
  {
    var r := Step(c, s, e);
    forall q | q in r.procs && r.procs[q].Done? && r.procs[q].outcome.Accepted?
      ensures Marked(r, q, r.procs[q].outcome.token, r.procs[q].outcome.wantsFresh)
    {
      assert r.procs[q] == s.procs[q];
      MarkStands(s, r, q, s.procs[q].outcome.token, s.procs[q].outcome.wantsFresh);
    }
    forall q | q in r.procs ensures CheckedInTime(r.procs[q]) {
      if q in s.procs {
        assert CheckedInTime(s.procs[q]);
      }
    }
  }

  lemma OthersKeepInv(c: Config, s: State, e: Event)
    requires c.mode.Window? && 0 <= c.ttl && Inv(c, s) && Enabled(s, e) && Timely(s, e, c.ttl) && !e.Run?
    ensures Inv(c, Step(c, s, e))
  {
    StepKeepsTokensSound(c, s, e);
    OthersKeepMarks(c, s, e);
    var r := Step(c, s, e);
    assert forall t :: t in s.issued ==> t in r.issued && r.issued[t] == s.issued[t];
  }

  lemma {:induction false} TimelyRunKeepsInv(c: Config, s: State, es: seq<Event>, end: State, gap: int)
    requires c.mode.Window? && 0 <= c.ttl && gap <= c.ttl && Inv(c, s) && LeadsTimely(c, s, es, end, gap)
    ensures Inv(c, end)
    decreases |es|
  {
    if es != [] {
      if es[0].Run? {
        AdvanceKeepsInv(c, s, es[0].pid);
      } else {
        OthersKeepInv(c, s, es[0]);
      }
      TimelyRunKeepsInv(c, Step(c, s, es[0]), es[1..], end, gap);
    }
  }

  /** Main result: with consumers at most `ttl` between check and mark, a fresh acceptance is the only
      one of its token, and its mark comes before the mark of every other accepted consumer. */
  lemma FreshConsumerIsFirstAndOnly(c: Config, now: int, es: seq<Event>, s: State, p: Pid, q: Pid) returns (i: nat, j: nat)
    requires c.mode.Window? && 0 <= c.ttl && LeadsTimely(c, Initial(now), es, s, c.ttl)
    requires p in s.procs && s.procs[p].Done? && s.procs[p].outcome.Accepted? && s.procs[p].outcome.wantsFresh
    requires q in s.procs && s.procs[q].Done? && s.procs[q].outcome.Accepted?
    requires s.procs[p].outcome.token == s.procs[q].outcome.token && p != q
    ensures !s.procs[q].outcome.wantsFresh
    ensures i < j < |s.marks| && s.marks[i].pid == p && s.marks[j].pid == q
    ensures s.marks[i].token == s.marks[j].token == s.procs[p].outcome.token
  {
    TimelyRunKeepsInv(c, Initial(now), es, s, c.ttl);
    var t := s.procs[p].outcome.token;
    assert Marked(s, p, t, true) && Marked(s, q, t, s.procs[q].outcome.wantsFresh);
    i := MarkOf(s, p, t, true);
    j := MarkOf(s, q, t, s.procs[q].outcome.wantsFresh);
  }

  lemma MarkOf(s: State, pid: Pid, token: Nonce, wantsFresh: bool) returns (i: nat)
    requires Marked(s, pid, token, wantsFresh)
    ensures i < |s.marks| && s.marks[i].pid == pid && s.marks[i].token == token && (wantsFresh ==> s.marks[i].first)
  {
    i :| i < |s.marks| && s.marks[i].pid == pid && s.marks[i].token == token
         && s.marks[i].wantsFresh == wantsFresh && (wantsFresh ==> s.marks[i].first);
  }

  // ---- The bound is exact -------------------------------------------------------------------------

  /** Two fresh consumptions of one token both succeed. */
  ghost predicate TwoFresh(s: State) {
    exists p, q :: p in s.procs && q in s.procs && p != q
      && s.procs[p].Done? && s.procs[p].outcome.Accepted? && s.procs[p].outcome.wantsFresh
      && s.procs[q].Done? && s.procs[q].outcome.Accepted? && s.procs[q].outcome.wantsFresh
      && s.procs[p].outcome.token == s.procs[q].outcome.token
  }

  lemma {:induction false} LeadsOneMore(c: Config, s: State, es: seq<Event>, end: State, gap: int, e: Event)
    requires LeadsTimely(c, s, es, end, gap) && Enabled(end, e) && Timely(end, e, gap)
    ensures LeadsTimely(c, s, es + [e], Step(c, end, e), gap)
    decreases |es|
  {
    if es == [] {
      assert ([e])[1..] == [];
    } else {
      assert (es + [e])[0] == es[0] && (es + [e])[1..] == es[1..] + [e];
      LeadsOneMore(c, Step(c, s, es[0]), es[1..], end, gap, e);
    }
  }

  lemma OneMore(c: Config, gap: int, s: State, e: Event)
    requires Reachable(c, gap, s) && Enabled(s, e) && Timely(s, e, gap)
    ensures Reachable(c, gap, Step(c, s, e))
  {
    var now: int, es: seq<Event> :| LeadsTimely(c, Initial(now), es, s, gap);
    LeadsOneMore(c, Initial(now), es, s, gap, e);
  }

  /** User 0 holds token 0, issued and stored at instant 0; process 0 has issued it. */
  function Issued(c: Config): State {
    var entry := Entry(Payload(0, 1, c.ttl), 2 * c.ttl);
    State(Cache(0, 2, map[0 := 1], map[0 := entry], map[], map[]),
          map[0 := Done(Finished)], map[0 := 0], map[0 := entry], map[], {(0, 1)}, [])
  }

  /** The states on the way there: begun, candidate generated, generation stored. */
  function Begun(): State {
    State(Cache(0, 1, map[], map[], map[], map[]), map[0 := Issuing(0, 0, 0, Ask)], map[0 := 0], map[], map[], {}, [])
  }

  function Offering(): State {
    State(Cache(0, 2, map[], map[], map[], map[]), map[0 := Issuing(0, 0, 0, Offer(1))], map[0 := 0], map[], map[], {}, [])
  }

  function Stamped(c: Config): State {
    State(Cache(0, 2, map[0 := 1], map[], map[], map[]), map[0 := Storing(0, Payload(0, 1, c.ttl))],
          map[0 := 0], map[], map[], {(0, 1)}, [])
  }

  lemma OfferingIsReachable(c: Config, gap: int)
    ensures Reachable(c, gap, Offering())
  {
    assert LeadsTimely(c, Initial(0), [], Initial(0), gap);
    OneMore(c, gap, Initial(0), StartIssue(0, 0));
    assert Step(c, Initial(0), StartIssue(0, 0)) == Begun();
    OneMore(c, gap, Begun(), Run(0));
    assert Begun().procs[0 := Issuing(0, 0, 0, Offer(1))] == Offering().procs;
  }

  lemma StampedIsReachable(c: Config, gap: int)
    ensures Reachable(c, gap, Stamped(c))
  {
    OfferingIsReachable(c, gap);
    OneMore(c, gap, Offering(), Run(0));
    assert Offering().procs[0 := Storing(0, Payload(0, 1, c.ttl))] == Stamped(c).procs;
    assert Step(c, Offering(), Run(0)) == Stamped(c);
  }

  lemma IssuedIsReachable(c: Config, gap: int)
    ensures Reachable(c, gap, Issued(c))
  {
    StampedIsReachable(c, gap);
    OneMore(c, gap, Stamped(c), Run(0));
    assert Stamped(c).procs[0 := Done(Finished)] == Issued(c).procs;
    assert Step(c, Stamped(c), Run(0)) == Issued(c);
  }

  /** An operation that changes its own process only. */
  lemma OneMoreSilent(c: Config, gap: int, s: State, pid: Pid, p: Proc, next: Proc)
    requires Reachable(c, gap, Goes(s, pid, p)) && !p.Marking?
    requires ActOf(c, s.cache, p) == Act(s.cache, next, Silent)
    ensures Reachable(c, gap, Goes(s, pid, next))
  {
    OneMore(c, gap, Goes(s, pid, p), Run(pid));
    assert s.procs[pid := p][pid := next] == s.procs[pid := next];
    assert Step(c, Goes(s, pid, p), Run(pid)) == Goes(s, pid, next);
  }

  /** A consumer arriving while the token is valid gets as far as its mark. */
  lemma ReachesMarking(c: Config, gap: int, s: State, pid: Pid)
    requires c.mode.Window? && Reachable(c, gap, s) && pid !in s.procs
    requires Visible(s.cache, 0) && s.cache.tokens[0].payload == Payload(0, 1, c.ttl) && Now(s) < c.ttl
    requires 0 in s.cache.generations && s.cache.generations[0] == 1
    ensures Reachable(c, gap, Goes(s, pid, Marking(0, 0, true, Payload(0, 1, c.ttl), Now(s))))
  {
    var payload := Payload(0, 1, c.ttl);
    OneMore(c, gap, s, StartConsume(pid, 0, 0, true));
    OneMoreSilent(c, gap, s, pid, Arriving(0, 0, true), Validating(0, 0, true, payload));
    OneMoreSilent(c, gap, s, pid, Validating(0, 0, true, payload), Checking(0, 0, true, payload, Now(s), Ask));
    OneMoreSilent(c, gap, s, pid, Checking(0, 0, true, payload, Now(s), Ask), Marking(0, 0, true, payload, Now(s)));
  }

  /** A fresh consumer that finds no live mark: accepted, and its mark is recorded. */
  function FreshlyMarked(c: Config, s: State, pid: Pid): State {
    s.(procs := s.procs[pid := Done(Accepted(0, 0, true, Payload(0, 1, c.ttl)))],
       cache := s.cache.(used := s.cache.used[0 := Now(s) + 2 * c.ttl]),
       marks := s.marks + [Mark(pid, 0, true, Now(s), true)])
  }

  lemma OneMoreMark(c: Config, gap: int, s: State, pid: Pid, checkedAt: int)
    requires Reachable(c, gap, Goes(s, pid, Marking(0, 0, true, Payload(0, 1, c.ttl), checkedAt)))
    requires Now(s) - checkedAt <= gap && !MarkVisible(s.cache.used, 0, Now(s))
    ensures Reachable(c, gap, FreshlyMarked(c, s, pid))
  {
    var p := Marking(0, 0, true, Payload(0, 1, c.ttl), checkedAt);
    var accepted := Done(Accepted(0, 0, true, Payload(0, 1, c.ttl)));
    OneMore(c, gap, Goes(s, pid, p), Run(pid));
    assert s.procs[pid := p][pid := accepted] == s.procs[pid := accepted];
    assert Step(c, Goes(s, pid, p), Run(pid)) == FreshlyMarked(c, s, pid);
  }

  /** The first fresh consumer checks and marks at instant 0. */
  function FirstMarked(c: Config): State {
    var s := Issued(c);
    s.(procs := s.procs[1 := Done(Accepted(0, 0, true, Payload(0, 1, c.ttl)))],
       cache := s.cache.(used := map[0 := 2 * c.ttl]),
       marks := [Mark(1, 0, true, 0, true)])
  }

  lemma FirstMarkedIsReachable(c: Config, gap: int)
    requires c.mode.Window? && 1 <= c.ttl && 0 <= gap
    ensures Reachable(c, gap, FirstMarked(c))
  {
    IssuedIsReachable(c, gap);
    ReachesMarking(c, gap, Issued(c), 1);
    OneMoreMark(c, gap, Issued(c), 1, 0);
    assert Issued(c).cache.used[0 := 2 * c.ttl] == FirstMarked(c).cache.used;
    assert Issued(c).marks + [Mark(1, 0, true, 0, true)] == FirstMarked(c).marks;
  }

  function Later(s: State, elapsed: nat): State {
    s.(cache := s.cache.(now := s.cache.now + elapsed))
  }

  /** The second fresh consumer checks at the token's last valid instant. */
  function SecondMarking(c: Config): State
    requires 1 <= c.ttl
  {
    Goes(Later(FirstMarked(c), c.ttl - 1), 2, Marking(0, 0, true, Payload(0, 1, c.ttl), c.ttl - 1))
  }

  lemma OneMoreTick(c: Config, gap: int, s: State, elapsed: nat)
    requires Reachable(c, gap, s)
    ensures Reachable(c, gap, Later(s, elapsed))
  {
    OneMore(c, gap, s, Tick(elapsed));
  }

  lemma SecondMarkingIsReachable(c: Config, gap: int)
    requires c.mode.Window? && 1 <= c.ttl && 0 <= gap
    ensures Reachable(c, gap, SecondMarking(c))
  {
    FirstMarkedIsReachable(c, gap);
    OneMoreTick(c, gap, FirstMarked(c), c.ttl - 1);
    ReachesMarking(c, gap, Later(FirstMarked(c), c.ttl - 1), 2);
  }

  /** A consumer one tick slower than the bound defeats the election: the second one marks when the used
      key has expired, and is fresh again. */
  lemma SlowerConsumerIsFreshAgain(c: Config, gap: int) returns (s: State)
    requires c.mode.Window? && 1 <= c.ttl < gap
    ensures Reachable(c, gap, s) && TwoFresh(s)
  {
    var elapsed := c.ttl + 1;
    SecondMarkingIsReachable(c, gap);
    OneMoreTick(c, gap, SecondMarking(c), elapsed);
    var slow := Later(Later(FirstMarked(c), c.ttl - 1), elapsed);
    OneMoreMark(c, gap, slow, 2, c.ttl - 1);
    s := FreshlyMarked(c, slow, 2);
    TwoAccepted(s, 0, Payload(0, 1, c.ttl));
  }

  lemma TwoAccepted(s: State, token: Nonce, payload: Payload)
    requires 1 in s.procs && s.procs[1] == Done(Accepted(0, token, true, payload))
    requires 2 in s.procs && s.procs[2] == Done(Accepted(0, token, true, payload))
    ensures TwoFresh(s)
  {
  }

  /** The exact bound: no run lets two fresh consumptions of one token succeed if and only if consumers
      take at most `ttl` between reading the clock and adding the mark. */
  lemma FreshElectionHoldsExactlyUpToTtl(c: Config, gap: int)
    requires c.mode.Window? && 1 <= c.ttl
    ensures (forall s: State :: Reachable(c, gap, s) ==> !TwoFresh(s)) <==> gap <= c.ttl
  {
    if gap <= c.ttl {
      forall s: State | Reachable(c, gap, s) ensures !TwoFresh(s) {
        var now: int, es: seq<Event> :| LeadsTimely(c, Initial(now), es, s, gap);
        if TwoFresh(s) {
          var p, q :| p in s.procs && q in s.procs && p != q
            && s.procs[p].Done? && s.procs[p].outcome.Accepted? && s.procs[p].outcome.wantsFresh
            && s.procs[q].Done? && s.procs[q].outcome.Accepted? && s.procs[q].outcome.wantsFresh
            && s.procs[p].outcome.token == s.procs[q].outcome.token;
          LooserGap(c, Initial(now), es, s, gap, c.ttl);
          var i, j := FreshConsumerIsFirstAndOnly(c, now, es, s, p, q);
          assert false;
        }
      }
    } else {
      var s := SlowerConsumerIsFreshAgain(c, gap);
    }
  }

  lemma {:induction false} LooserGap(c: Config, s: State, es: seq<Event>, end: State, gap: int, more: int)
    requires LeadsTimely(c, s, es, end, gap) && gap <= more
    ensures LeadsTimely(c, s, es, end, more)
    decreases |es|
  {
    if es != [] {
      LooserGap(c, Step(c, s, es[0]), es[1..], end, gap, more);
    }
  }
}
