/** Generations: invalidation against racing issuance, and agreement of first-time issuers. */
module ReAuthGeneration {
  import opened Wrappers
  import opened ReAuth

  /** A candidate generated but not yet offered to the cache with success. */
  function Pending(p: Proc): Option<Nonce> {
    match p
    case Issuing(_, _, _, Offer(g)) => Some(g)
    case Checking(_, _, _, _, _, Offer(g)) => Some(g)
    case _ => None
  }

  /** Values in use come from the past, and a pending candidate is known to nobody else. */
  ghost predicate CandidatesPrivate(s: State) {
    && (forall u :: u in s.cache.generations ==> s.cache.generations[u] < s.cache.nonce)
    && (forall u, g :: (u, g) in s.stamped ==> g < s.cache.nonce)
    && (forall pid :: pid in s.procs && Pending(s.procs[pid]).Some? ==>
          Unknown(s, Pending(s.procs[pid]).value))
    && (forall p, q ::
          (p in s.procs && q in s.procs && Pending(s.procs[p]).Some? && Pending(s.procs[p]) == Pending(s.procs[q])) ==>
          p == q)
  }

  ghost predicate Unknown(s: State, g: Nonce) {
    && g < s.cache.nonce
    && (forall u :: u in s.cache.generations ==> s.cache.generations[u] != g)
    && (forall u :: (u, g) !in s.stamped)
  }

  /** The value can never again be what `_generation` returns for the user. */
  predicate Dead(s: State, user: UserId, g: Nonce) {
    && g < s.cache.nonce
    && !(user in s.cache.generations && s.cache.generations[user] == g)
    && forall pid :: pid in s.procs ==> Pending(s.procs[pid]) != Some(g)
  }

  // ---- One operation ------------------------------------------------------------------------------

  /** Where the generations after an operation come from: before, its own candidate, or a new value. */
  lemma ActOnGenerations(c: Config, cache: Cache, p: Proc)
    ensures var act := ActOf(c, cache, p);
            && cache.nonce <= act.cache.nonce
            && (forall u :: u in act.cache.generations ==>
                  || (u in cache.generations && act.cache.generations[u] == cache.generations[u])
                  || (Pending(p) == Some(act.cache.generations[u]) && Pending(act.next).None?)
                  || (act.cache.generations[u] == cache.nonce < act.cache.nonce && Pending(act.next).None?))
            && (Pending(act.next).Some? ==>
                  Pending(act.next).value == cache.nonce < act.cache.nonce && act.cache.generations == cache.generations)
  {
  }

  lemma ActStamps(c: Config, cache: Cache, p: Proc)
    requires ActOf(c, cache, p).trace.Stamps?
    ensures var act := ActOf(c, cache, p);
            && p.Issuing? && act.trace.user == p.user && Pending(act.next).None?
            && (|| (p.user in cache.generations && act.trace.generation == cache.generations[p.user])
                || Pending(p) == Some(act.trace.generation)
                || act.trace.generation == cache.nonce < act.cache.nonce)
  {
  }

  function AcceptedPayload(p: Proc): Option<(UserId, Payload)> {
    match p
    case Marking(user, _, _, payload, _) => Some((user, payload))
    case Done(Accepted(user, _, _, payload)) => Some((user, payload))
    case _ => None
  }

  /** The generation a consumer is accepted with is the stored one, its own candidate or a new value. */
  lemma AcceptedGeneration(c: Config, cache: Cache, p: Proc)
    requires AcceptedPayload(p).None? && AcceptedPayload(ActOf(c, cache, p).next).Some?
    ensures var (user, payload) := AcceptedPayload(ActOf(c, cache, p).next).value;
            || (user in cache.generations && payload.generation == cache.generations[user])
            || Pending(p) == Some(payload.generation)
            || payload.generation == cache.nonce
  {
  }

  lemma AcceptedStays(c: Config, cache: Cache, p: Proc)
    requires AcceptedPayload(p).Some?
    ensures AcceptedPayload(ActOf(c, cache, p).next) == AcceptedPayload(p) || AcceptedPayload(ActOf(c, cache, p).next).None?
  {
  }

  // ---- Candidates stay private --------------------------------------------------------------------

  lemma AdvanceKeepsPrivate(c: Config, s: State, pid: Pid)
    requires CandidatesPrivate(s) && pid in s.procs
    ensures CandidatesPrivate(Advance(c, s, pid))
  {
    var p, act, r := s.procs[pid], ActOf(c, s.cache, s.procs[pid]), Advance(c, s, pid);
    AdvanceRecords(c, s, pid);
    ActOnGenerations(c, s.cache, p);
    AdvanceKeepsValuesPast(c, s, pid);
    forall q | q in r.procs && Pending(r.procs[q]).Some? ensures Unknown(r, Pending(r.procs[q]).value) {
      if q != pid {
        PrivateStays(c, s, pid, q);
      }
    }
  }

  /** Generations stored and stamped come from the past. */
  lemma AdvanceKeepsValuesPast(c: Config, s: State, pid: Pid)
    requires CandidatesPrivate(s) && pid in s.procs
    ensures var r := Advance(c, s, pid);
            && (forall u :: u in r.cache.generations ==> r.cache.generations[u] < r.cache.nonce)
            && (forall u, g :: (u, g) in r.stamped ==> g < r.cache.nonce)
  {
    var p, act := s.procs[pid], ActOf(c, s.cache, s.procs[pid]);
    if Pending(p).Some? {
      assert Unknown(s, Pending(p).value);
    }
    AdvanceRecords(c, s, pid);
    ActOnGenerations(c, s.cache, p);
    if act.trace.Stamps? {
      ActStamps(c, s.cache, p);
    }
  }

  lemma PrivateStays(c: Config, s: State, pid: Pid, q: Pid)
    requires CandidatesPrivate(s) && pid in s.procs && q in s.procs && q != pid && Pending(s.procs[q]).Some?
    ensures Unknown(Advance(c, s, pid), Pending(s.procs[q]).value)
  {
    var p, act, r := s.procs[pid], ActOf(c, s.cache, s.procs[pid]), Advance(c, s, pid);
    var g := Pending(s.procs[q]).value;
    assert Unknown(s, g) && Pending(p) != Some(g);
    ActOnGenerations(c, s.cache, p);
    if act.trace.Stamps? {
      ActStamps(c, s.cache, p);
    }
  }

  lemma StepKeepsPrivate(c: Config, s: State, e: Event)
    requires CandidatesPrivate(s) && Enabled(s, e)
    ensures CandidatesPrivate(Step(c, s, e))
  {
    var r := Step(c, s, e);
    if e.Run? {
      AdvanceKeepsPrivate(c, s, e.pid);
    } else {
      forall q | q in r.procs && Pending(r.procs[q]).Some? ensures Unknown(r, Pending(r.procs[q]).value) {
        assert q in s.procs && r.procs[q] == s.procs[q];
        assert Unknown(s, Pending(s.procs[q]).value);
      }
    }
  }

  lemma {:induction false} RunKeepsPrivate(c: Config, s: State, es: seq<Event>, end: State)
    requires CandidatesPrivate(s) && Leads(c, s, es, end)
    ensures CandidatesPrivate(end)
    decreases |es|
  {
    if es != [] {
      StepKeepsPrivate(c, s, es[0]);
      RunKeepsPrivate(c, Step(c, s, es[0]), es[1..], end);
    }
  }

  // ---- Dead generations never come back -----------------------------------------------------------

  lemma AdvanceLeavesDead(c: Config, s: State, pid: Pid, user: UserId, g: Nonce)
    requires Dead(s, user, g) && pid in s.procs
    ensures Dead(Advance(c, s, pid), user, g)
  {
    ActOnGenerations(c, s.cache, s.procs[pid]);
    var r := Advance(c, s, pid);
    assert Pending(s.procs[pid]) != Some(g);
    forall q | q in r.procs ensures Pending(r.procs[q]) != Some(g) {
      if q != pid {
        assert Pending(s.procs[q]) != Some(g);
      }
    }
  }

  lemma StepLeavesDead(c: Config, s: State, e: Event, user: UserId, g: Nonce)
    requires Dead(s, user, g) && Enabled(s, e)
    ensures Dead(Step(c, s, e), user, g)
  {
    if e.Run? {
      AdvanceLeavesDead(c, s, e.pid, user, g);
    } else {
      var r := Step(c, s, e);
      forall q | q in r.procs ensures Pending(r.procs[q]) != Some(g) {
        if q in s.procs {
          assert Pending(s.procs[q]) != Some(g);
        }
      }
    }
  }

  /** No late consumer of the user has been accepted with one of the dead generations. */
  predicate LateSafe(s: State, user: UserId, g: Nonce, past: set<Pid>) {
    forall q ::
      (q in s.procs && q !in past && AcceptedPayload(s.procs[q]).Some? && AcceptedPayload(s.procs[q]).value.0 == user) ==>
      AcceptedPayload(s.procs[q]).value.1.generation != g
  }

  lemma StepKeepsLateSafe(c: Config, s: State, e: Event, user: UserId, g: Nonce, past: set<Pid>)
    requires Dead(s, user, g) && LateSafe(s, user, g, past) && Enabled(s, e)
    ensures LateSafe(Step(c, s, e), user, g, past)
  {
    var r := Step(c, s, e);
    forall q | q in r.procs && q !in past && AcceptedPayload(r.procs[q]).Some? && AcceptedPayload(r.procs[q]).value.0 == user
      ensures AcceptedPayload(r.procs[q]).value.1.generation != g
    {
      if e.Run? && e.pid == q {
        var p := s.procs[q];
        assert Pending(p) != Some(g);
        assert r.procs[q] == ActOf(c, s.cache, p).next;
        if AcceptedPayload(p).Some? {
          AcceptedStays(c, s.cache, p);
        } else {
          AcceptedGeneration(c, s.cache, p);
        }
      } else {
        assert q in s.procs && r.procs[q] == s.procs[q];
      }
    }
  }

  lemma {:induction false} DeadIsNeverAccepted(c: Config, s: State, es: seq<Event>, end: State, user: UserId, g: Nonce, past: set<Pid>)
    requires Dead(s, user, g) && LateSafe(s, user, g, past) && Leads(c, s, es, end)
    ensures LateSafe(end, user, g, past)
    decreases |es|
  {
    if es != [] {
      StepLeavesDead(c, s, es[0], user, g);
      StepKeepsLateSafe(c, s, es[0], user, g, past);
      DeadIsNeverAccepted(c, Step(c, s, es[0]), es[1..], end, user, g, past);
    }
  }

  /** The consumer has yet to finish reading the generation. */
  predicate HasYetToRead(s: State, q: Pid) {
    q in s.procs ==> AcceptedPayload(s.procs[q]).None?
  }

  /** A consumer that has yet to read is never accepted with a dead generation. */
  lemma LateReaderRefusesDead(c: Config, s: State, es: seq<Event>, end: State, user: UserId, g: Nonce, q: Pid)
    requires Dead(s, user, g) && HasYetToRead(s, q) && Leads(c, s, es, end)
    requires q in end.procs && end.procs[q].Done? && end.procs[q].outcome.Accepted? && end.procs[q].outcome.user == user
    ensures end.procs[q].outcome.payload.generation != g
  {
    var past := (set p | p in s.procs) + (set p | p in end.procs) - {q};
    PastIsLateSafe(s, user, g, past, q);
    DeadIsNeverAccepted(c, s, es, end, user, g, past);
    assert AcceptedPayload(end.procs[q]) == Some((user, end.procs[q].outcome.payload));
  }

  lemma PastIsLateSafe(s: State, user: UserId, g: Nonce, past: set<Pid>, q: Pid)
    requires HasYetToRead(s, q) && forall p :: p in s.procs && p != q ==> p in past
    ensures LateSafe(s, user, g, past)
  {
  }

  // ---- Main results -------------------------------------------------------------------------------

  /** Main result: once an invalidation has written its generation, no consumer that reads the generation
      afterwards accepts a token whose issuer had read it before, even a token stored afterwards. */
  lemma InvalidationBeatsRacingIssuance(
      c: Config, now: int, before: seq<Event>, s: State, pid: Pid, user: UserId, after: seq<Event>, end: State, q: Pid)
    requires Leads(c, Initial(now), before, s)
    requires pid in s.procs && s.procs[pid] == Invalidating(user)
    requires Leads(c, Step(c, s, Run(pid)), after, end)
    requires HasYetToRead(s, q)
    requires q in end.procs && end.procs[q].Done? && end.procs[q].outcome.Accepted? && end.procs[q].outcome.user == user
    ensures (user, end.procs[q].outcome.payload.generation) !in s.stamped
  {
    RunKeepsPrivate(c, Initial(now), before, s);
    var g := end.procs[q].outcome.payload.generation;
    if (user, g) in s.stamped {
      InvalidationKills(c, s, pid, user, g, q);
      LateReaderRefusesDead(c, Step(c, s, Run(pid)), after, end, user, g, q);
      assert false;
    }
  }

  /** The write of an invalidation leaves every stamped generation dead. */
  lemma InvalidationKills(c: Config, s: State, pid: Pid, user: UserId, g: Nonce, q: Pid)
    requires CandidatesPrivate(s) && pid in s.procs && s.procs[pid] == Invalidating(user) && (user, g) in s.stamped
    requires HasYetToRead(s, q)
    ensures Dead(Step(c, s, Run(pid)), user, g) && HasYetToRead(Step(c, s, Run(pid)), q)
  {
    AdvanceRecords(c, s, pid);
    var r := Step(c, s, Run(pid));
    forall p | p in r.procs ensures Pending(r.procs[p]) != Some(g) {
      if p != pid && Pending(s.procs[p]).Some? {
        assert Unknown(s, Pending(s.procs[p]).value);
      }
    }
  }

  /** Main result: losing the generation key, and initializing it again, never revives an old token. */
  lemma EvictionNeverRevives(
      c: Config, now: int, before: seq<Event>, s: State, user: UserId, after: seq<Event>, end: State, q: Pid)
    requires Leads(c, Initial(now), before, s)
    requires Leads(c, Step(c, s, EvictGeneration(user)), after, end)
    requires HasYetToRead(s, q)
    requires q in end.procs && end.procs[q].Done? && end.procs[q].outcome.Accepted? && end.procs[q].outcome.user == user
    ensures (user, end.procs[q].outcome.payload.generation) !in s.stamped
  {
    RunKeepsPrivate(c, Initial(now), before, s);
    var g := end.procs[q].outcome.payload.generation;
    if (user, g) in s.stamped {
      EvictionKills(c, s, user, g);
      LateReaderRefusesDead(c, Step(c, s, EvictGeneration(user)), after, end, user, g, q);
      assert false;
    }
  }

  lemma EvictionKills(c: Config, s: State, user: UserId, g: Nonce)
    requires CandidatesPrivate(s) && (user, g) in s.stamped
    ensures Dead(Step(c, s, EvictGeneration(user)), user, g)
  {
    forall p | p in s.procs ensures Pending(s.procs[p]) != Some(g) {
      if Pending(s.procs[p]).Some? {
        assert Unknown(s, Pending(s.procs[p]).value);
      }
    }
  }

  // ---- Agreement ----------------------------------------------------------------------------------

  /** Events that leave generations alone. */
  predicate Undisturbed(e: Event) { !e.EvictGeneration? && !e.StartInvalidate? }

  function GenPcOf(p: Proc): Option<(UserId, GenPc)> {
    match p
    case Issuing(user, _, _, pc) => Some((user, pc))
    case Checking(user, _, _, _, _, pc) => Some((user, pc))
    case _ => None
  }

  /** Every stamp agrees with the stored generation, and whoever lost the `add` will find it there. */
  predicate Agreed(s: State) {
    && (forall x :: x in s.stamped ==> x.0 in s.cache.generations && s.cache.generations[x.0] == x.1)
    && (forall pid :: pid in s.procs && GenPcOf(s.procs[pid]).Some? && GenPcOf(s.procs[pid]).value.1 == AskAgain ==>
          GenPcOf(s.procs[pid]).value.0 in s.cache.generations)
    && (forall pid :: pid in s.procs ==> !s.procs[pid].Invalidating?)
  }

  lemma ActAgrees(c: Config, cache: Cache, p: Proc)
    requires !p.Invalidating?
    requires GenPcOf(p).Some? && GenPcOf(p).value.1 == AskAgain ==> GenPcOf(p).value.0 in cache.generations
    ensures var act := ActOf(c, cache, p);
            && (forall u :: u in cache.generations ==>
                  u in act.cache.generations && act.cache.generations[u] == cache.generations[u])
            && (act.trace.Stamps? ==>
                  act.trace.user in act.cache.generations && act.cache.generations[act.trace.user] == act.trace.generation)
            && (GenPcOf(act.next).Some? && GenPcOf(act.next).value.1 == AskAgain ==>
                  GenPcOf(act.next).value.0 in act.cache.generations)
            && !act.next.Invalidating?
  {
  }

  lemma AdvanceKeepsAgreed(c: Config, s: State, pid: Pid)
    requires Agreed(s) && pid in s.procs
    ensures Agreed(Advance(c, s, pid))
  {
    ActAgrees(c, s.cache, s.procs[pid]);
    AdvanceRecords(c, s, pid);
  }

  lemma StepKeepsAgreed(c: Config, s: State, e: Event)
    requires Agreed(s) && Enabled(s, e) && Undisturbed(e)
    ensures Agreed(Step(c, s, e))
  {
    match e {
      case Run(pid) => AdvanceKeepsAgreed(c, s, pid);
      case StartIssue(_, _) =>
      case StartConsume(_, _, _, _) =>
      case _ => EnvironmentIsCacheOnly(c, s, e);
    }
  }

  lemma {:induction false} RunKeepsAgreed(c: Config, s: State, es: seq<Event>, end: State)
    requires Agreed(s) && Leads(c, s, es, end) && forall e :: e in es ==> Undisturbed(e)
    ensures Agreed(end)
    decreases |es|
  {
    if es != [] {
      StepKeepsAgreed(c, s, es[0]);
      RunKeepsAgreed(c, Step(c, s, es[0]), es[1..], end);
    }
  }

  /** Main result: undisturbed, any number of concurrent first-time issuers of one user stamp one
      generation, and it is the stored one. */
  lemma IssuersAgree(c: Config, now: int, es: seq<Event>, s: State, user: UserId, g: Nonce, other: Nonce)
    requires Leads(c, Initial(now), es, s) && forall e :: e in es ==> Undisturbed(e)
    requires (user, g) in s.stamped && (user, other) in s.stamped
    ensures g == other && user in s.cache.generations && s.cache.generations[user] == g
  {
    RunKeepsAgreed(c, Initial(now), es, s);
  }
}
