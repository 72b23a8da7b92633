/** Single-use mode: a token is consumed at most once, on either backend path, in any interleaving and
    under any eviction; and among completed pops it is consumed exactly once when nothing is evicted. */
module ReAuthSingleUse {
  import opened Wrappers
  import opened ReAuth

  /** The token a consumer holds after its pop. */
  function PostPop(p: Proc): Option<Nonce> {
    match p
    case Validating(_, token, _, _) => Some(token)
    case Checking(_, token, _, _, _, _) => Some(token)
    case Marking(_, token, _, _, _) => Some(token)
    case Done(Accepted(_, token, _, _)) => Some(token)
    case _ => None
  }

  /** A taken token has left the cache, and whoever got past the pop is its one taker. */
  predicate Elected(s: State) {
    TakenAreGone(s) && TakersPassed(s)
  }

  lemma ActElects(c: Config, cache: Cache, p: Proc)
    requires c.mode.SingleUse?
    ensures var act := ActOf(c, cache, p);
            && (act.trace.Takes? ==>
                  act.trace.token in cache.tokens && act.trace.token !in act.cache.tokens
                  && PostPop(act.next) == Some(act.trace.token) && Carries(p).Some? && Carries(p).value.0 == act.trace.token)
            && (!act.trace.Takes? && PostPop(act.next).Some? ==> PostPop(act.next) == PostPop(p))
            && (forall t :: t in act.cache.tokens ==>
                  t in cache.tokens || (act.trace.Stores? && act.trace.token == t && Owns(p) == Some(t)))
  {
  }

  /** A taken token has left the cache for good. */
  predicate TakenAreGone(s: State) {
    forall t :: t in s.taken ==> t in s.stored && t !in s.cache.tokens && s.taken[t] in s.procs
  }

  lemma AdvanceKeepsTakenGone(c: Config, s: State, pid: Pid)
    requires c.mode.SingleUse? && TokensSound(c, s) && TakenAreGone(s) && pid in s.procs
    ensures TakenAreGone(Advance(c, s, pid))
  {
    ActElects(c, s.cache, s.procs[pid]);
    AdvanceRecords(c, s, pid);
    assert ProcSound(c, s, s.procs[pid]);
    var r := Advance(c, s, pid);
    forall t | t in r.taken ensures t in r.stored && t !in r.cache.tokens && r.taken[t] in r.procs {
      if t in s.taken {
        assert t in s.stored;
      }
    }
  }

  /** Who has got past the pop is the one taker. */
  predicate TakersPassed(s: State) {
    forall pid :: pid in s.procs && PostPop(s.procs[pid]).Some? ==>
      PostPop(s.procs[pid]).value in s.taken && s.taken[PostPop(s.procs[pid]).value] == pid
  }

  lemma AdvanceKeepsTakers(c: Config, s: State, pid: Pid)
    requires c.mode.SingleUse? && TakenAreGone(s) && TakersPassed(s) && pid in s.procs
    ensures TakersPassed(Advance(c, s, pid))
  {
    var act := ActOf(c, s.cache, s.procs[pid]);
    ActElects(c, s.cache, s.procs[pid]);
    AdvanceRecords(c, s, pid);
    var r := Advance(c, s, pid);
    forall q | q in r.procs && PostPop(r.procs[q]).Some?
      ensures PostPop(r.procs[q]).value in r.taken && r.taken[PostPop(r.procs[q]).value] == q
    {
      if q != pid {
        assert PostPop(s.procs[q]).value in s.taken;
      }
    }
  }

  lemma AdvanceKeepsElected(c: Config, s: State, pid: Pid)
    requires c.mode.SingleUse? && TokensSound(c, s) && Elected(s) && pid in s.procs
    ensures Elected(Advance(c, s, pid))
  {
    AdvanceKeepsTakenGone(c, s, pid);
    AdvanceKeepsTakers(c, s, pid);
  }

  lemma StepKeepsElected(c: Config, s: State, e: Event)
    requires c.mode.SingleUse? && TokensSound(c, s) && Elected(s) && Enabled(s, e)
    ensures Elected(Step(c, s, e))
  {
    if e.Run? {
      AdvanceKeepsElected(c, s, e.pid);
    } else if Environment(e) {
      EnvironmentIsCacheOnly(c, s, e);
    }
  }

  lemma {:induction false} RunKeepsElected(c: Config, s: State, es: seq<Event>, end: State)
    requires c.mode.SingleUse? && TokensSound(c, s) && Elected(s) && Leads(c, s, es, end)
    ensures TokensSound(c, end) && Elected(end)
    decreases |es|
  {
    if es != [] {
      StepKeepsTokensSound(c, s, es[0]);
      StepKeepsElected(c, s, es[0]);
      RunKeepsElected(c, Step(c, s, es[0]), es[1..], end);
    }
  }

  /** Main result: at most one `consume` of a token ever returns true. */
  lemma ConsumedAtMostOnce(c: Config, now: int, es: seq<Event>, s: State, p: Pid, q: Pid)
    requires c.mode.SingleUse? && Leads(c, Initial(now), es, s)
    requires p in s.procs && s.procs[p].Done? && s.procs[p].outcome.Accepted?
    requires q in s.procs && s.procs[q].Done? && s.procs[q].outcome.Accepted?
    requires s.procs[p].outcome.token == s.procs[q].outcome.token
    ensures p == q
  {
    RunKeepsElected(c, Initial(now), es, s);
    assert PostPop(s.procs[p]) == PostPop(s.procs[q]);
  }

  // ---- Nothing is lost without eviction -----------------------------------------------------------

  predicate Keeps(e: Event) { !e.EvictToken? && !e.EvictClaim? }

  predicate Claimed(s: State, t: Nonce) {
    exists pid :: pid in s.procs && s.procs[pid].Deleting? && s.procs[pid].token == t
  }

  predicate HasLost(p: Proc, t: Nonce) { p == Done(Lost(t)) }

  /** A stored token is still there or taken. */
  predicate StillThere(s: State) {
    forall t :: t in s.stored ==> t in s.taken || t in s.cache.tokens
  }

  /** A claim on a token not taken belongs to a pop under way. */
  predicate ClaimsLive(s: State) {
    forall t :: t in s.cache.claims && t !in s.taken ==> Claimed(s, t)
  }

  /** A pop that obtained nothing lost to a taker or a claimant, or came after the physical deadline. */
  predicate LostToSomeone(c: Config, s: State, t: Nonce) {
    || t in s.taken || t in s.cache.claims
    || (c.mode.SingleUse? && c.mode.native && t in s.stored && s.stored[t].deadline <= Now(s))
  }

  ghost predicate LossesExplained(c: Config, s: State) {
    forall pid, t :: pid in s.procs && HasLost(s.procs[pid], t) ==> LostToSomeone(c, s, t)
  }

  ghost predicate NothingLost(c: Config, s: State) {
    StillThere(s) && ClaimsLive(s) && LossesExplained(c, s)
  }

  lemma ActLosesNothing(c: Config, cache: Cache, p: Proc)
    requires c.mode.SingleUse?
    ensures var act := ActOf(c, cache, p);
            && (forall t :: t in cache.tokens ==> t in act.cache.tokens || (act.trace == Takes(t)))
            && (forall t :: t in cache.claims ==> t in act.cache.claims)
            && (forall t :: t in act.cache.claims && t !in cache.claims ==> act.next.Deleting? && act.next.token == t)
            && (p.Deleting? ==> act.trace == Takes(p.token) || (p.token !in cache.tokens && act.next == Done(Lost(p.token))))
            && (act.trace.Stores? ==> act.trace.token in act.cache.tokens)
            && (forall t :: HasLost(act.next, t) && !HasLost(p, t) ==>
                  Carries(p).Some? && Carries(p).value.0 == t &&
                  (t !in cache.tokens || t in cache.claims || (c.mode.native && cache.tokens[t].deadline <= cache.now)))
  {
  }

  lemma AdvanceKeepsTokens(c: Config, s: State, pid: Pid)
    requires c.mode.SingleUse? && TokensSound(c, s) && StillThere(s) && pid in s.procs
    ensures StillThere(Advance(c, s, pid))
  {
    ActLosesNothing(c, s.cache, s.procs[pid]);
  }

  lemma AdvanceKeepsClaims(c: Config, s: State, pid: Pid)
    requires c.mode.SingleUse? && TokensSound(c, s) && StillThere(s) && ClaimsLive(s) && pid in s.procs
    ensures ClaimsLive(Advance(c, s, pid))
  {
    var act, r := ActOf(c, s.cache, s.procs[pid]), Advance(c, s, pid);
    ActLosesNothing(c, s.cache, s.procs[pid]);
    AdvanceRecords(c, s, pid);
    assert ProcSound(c, s, s.procs[pid]);
    forall t | t in r.cache.claims && t !in r.taken ensures Claimed(r, t) {
      if t in s.cache.claims {
        ClaimStaysLive(c, s, pid, t);
      } else {
        assert r.procs[pid] == act.next;
      }
    }
  }

  /** A pop under way stays under way until it takes its token. */
  lemma ClaimStaysLive(c: Config, s: State, pid: Pid, t: Nonce)
    requires c.mode.SingleUse? && StillThere(s) && pid in s.procs && ProcSound(c, s, s.procs[pid])
    requires Claimed(s, t) && t !in Advance(c, s, pid).taken
    ensures Claimed(Advance(c, s, pid), t)
  {
    var q :| q in s.procs && s.procs[q].Deleting? && s.procs[q].token == t;
    AdvanceRecords(c, s, pid);
    ActLosesNothing(c, s.cache, s.procs[pid]);
    assert q != pid;
    assert Advance(c, s, pid).procs[q] == s.procs[q];
  }

  lemma AdvanceExplainsLoss(c: Config, s: State, pid: Pid, t: Nonce)
    requires c.mode.SingleUse? && TokensSound(c, s) && StillThere(s) && pid in s.procs
    requires HasLost(s.procs[pid], t) ==> LostToSomeone(c, s, t)
    requires HasLost(ActOf(c, s.cache, s.procs[pid]).next, t)
    ensures LostToSomeone(c, s, t)
  {
  }

  lemma LossStaysExplained(c: Config, s: State, pid: Pid, t: Nonce)
    requires c.mode.SingleUse? && TokensSound(c, s) && pid in s.procs && LostToSomeone(c, s, t)
    ensures LostToSomeone(c, Advance(c, s, pid), t)
  {
    var p := s.procs[pid];
    ActLosesNothing(c, s.cache, p);
    StoredStands(c, s, pid, t);
    if !p.Storing? {
      ActIsQuiet(c, s.cache, p);
    }
  }

  lemma AdvanceLosesNothing(c: Config, s: State, pid: Pid)
    requires c.mode.SingleUse? && TokensSound(c, s) && NothingLost(c, s) && pid in s.procs
    ensures NothingLost(c, Advance(c, s, pid))
  {
    AdvanceKeepsTokens(c, s, pid);
    AdvanceKeepsClaims(c, s, pid);
    var r := Advance(c, s, pid);
    forall q, t | q in r.procs && HasLost(r.procs[q], t) ensures LostToSomeone(c, r, t) {
      if q == pid {
        AdvanceExplainsLoss(c, s, pid, t);
      } else {
        assert HasLost(s.procs[q], t);
      }
      LossStaysExplained(c, s, pid, t);
    }
  }

  /** A deadline once recorded stands: no token is stored twice. */
  lemma StoredStands(c: Config, s: State, pid: Pid, t: Nonce)
    requires TokensSound(c, s) && pid in s.procs
    ensures t in s.stored ==> t in Advance(c, s, pid).stored && Advance(c, s, pid).stored[t] == s.stored[t]
  {
  }

  lemma StepLosesNothing(c: Config, s: State, e: Event)
    requires c.mode.SingleUse? && TokensSound(c, s) && NothingLost(c, s)
    requires Enabled(s, e) && Keeps(e)
    ensures NothingLost(c, Step(c, s, e))
  {
    if e.Run? {
      AdvanceLosesNothing(c, s, e.pid);
    } else {
      var r := Step(c, s, e);
      forall t | t in r.cache.claims && t !in r.taken ensures Claimed(r, t) {
        var q :| q in s.procs && s.procs[q].Deleting? && s.procs[q].token == t;
        assert r.procs[q] == s.procs[q];
      }
      forall q, t | q in r.procs && HasLost(r.procs[q], t) ensures LostToSomeone(c, r, t) {
        assert q in s.procs && HasLost(s.procs[q], t);
        assert LostToSomeone(c, s, t) && r.stored == s.stored && Now(s) <= Now(r);
      }
    }
  }

  lemma {:induction false} RunLosesNothing(c: Config, s: State, es: seq<Event>, end: State)
    requires c.mode.SingleUse? && TokensSound(c, s) && Elected(s) && NothingLost(c, s)
    requires Leads(c, s, es, end) && forall e :: e in es ==> Keeps(e)
    ensures TokensSound(c, end) && Elected(end) && NothingLost(c, end)
    decreases |es|
  {
    if es != [] {
      StepKeepsTokensSound(c, s, es[0]);
      StepKeepsElected(c, s, es[0]);
      StepLosesNothing(c, s, es[0]);
      RunLosesNothing(c, Step(c, s, es[0]), es[1..], end);
    }
  }

  /** Main result: without eviction, as soon as a pop of a token has completed and no pop is between its
      claim and its delete, exactly one process has obtained the payload. (The native path asks for the
      token's physical deadline not to have passed.) */
  lemma CompletedPopsElectExactlyOne(c: Config, now: int, es: seq<Event>, s: State, t: Nonce, p: Pid)
    requires c.mode.SingleUse? && Leads(c, Initial(now), es, s) && forall e :: e in es ==> Keeps(e)
    requires p in s.procs && (HasLost(s.procs[p], t) || PostPop(s.procs[p]) == Some(t))
    requires !Claimed(s, t)
    requires c.mode.native && t in s.stored ==> Now(s) < s.stored[t].deadline
    ensures t in s.taken && s.taken[t] in s.procs
    ensures forall q :: q in s.procs && PostPop(s.procs[q]) == Some(t) ==> q == s.taken[t]
  {
    RunLosesNothing(c, Initial(now), es, s);
    if HasLost(s.procs[p], t) {
      assert LostToSomeone(c, s, t);
    }
  }
}
