/** The promises of module ReAuthService in every reachable state: what they ask of the cache holds after
    any interleaving of issuers, consumers, invalidators and evictions. */
module ReAuthReachable {
  import opened ReAuth
  import opened ReAuthGeneration
  import opened ReAuthService
  import ReAuthWindow

  /** What the promises ask of a cache; and the physical lifetimes: an entry outlasts its logical expiry by the
      token lifetime, and a claim outlasts the entry it is for. */
  predicate Fit(c: Config, cache: Cache) {
    && (forall u :: u in cache.generations ==> cache.generations[u] < cache.nonce)
    && cache.nonce !in cache.claims && cache.nonce !in cache.used
    && forall t :: t in cache.tokens ==>
         && cache.tokens[t].payload.generation < cache.nonce
         && cache.tokens[t].payload.expires + c.ttl <= cache.tokens[t].deadline
         && cache.tokens[t].payload.expires <= cache.now + c.ttl
         && (t in cache.used ==> cache.tokens[t].payload.expires <= cache.used[t])
         && (t in cache.claims ==> cache.tokens[t].deadline <= cache.claims[t])
  }

  /** Stored entries outlive their logical expiry and carry past generations; marks and claims are on
      tokens stored, and last as long. */
  predicate EntriesFit(c: Config, s: State) {
    && (forall t :: t in s.stored ==>
          s.stored[t].payload.generation < s.cache.nonce && s.stored[t].payload.expires + c.ttl <= s.stored[t].deadline
          && s.stored[t].deadline <= Now(s) + 2 * c.ttl)
    && (forall pid :: pid in s.procs && s.procs[pid].Storing? ==> s.procs[pid].payload.generation < s.cache.nonce)
    && (forall t :: t in s.cache.claims ==> t in s.issued && t in s.stored && s.stored[t].deadline <= s.cache.claims[t])
    && ReAuthWindow.UsedKeysLast(c, s)
  }

  lemma ActFits(c: Config, cache: Cache, p: Proc)
    requires forall u :: u in cache.generations ==> cache.generations[u] < cache.nonce
    requires Pending(p).Some? ==> Pending(p).value < cache.nonce
    ensures var act := ActOf(c, cache, p);
            && cache.nonce <= act.cache.nonce && cache.now == act.cache.now
            && (act.next.Storing? ==> act.next.payload.generation < act.cache.nonce)
            && (act.trace.Stores? ==>
                  p.Storing? && act.trace.token == p.token && act.trace.entry == Entry(p.payload, cache.now + 2 * c.ttl))
            && (forall t :: t in act.cache.claims ==>
                  || (t in cache.claims && act.cache.claims[t] == cache.claims[t])
                  || (Carries(p).Some? && Carries(p).value.0 == t && act.cache.claims[t] == cache.now + 2 * c.ttl))
            && (forall t :: t in act.cache.used ==>
                  || (t in cache.used && act.cache.used[t] == cache.used[t])
                  || (Carries(p).Some? && Carries(p).value.0 == t && act.cache.used[t] == cache.now + 2 * c.ttl))
  {
  }

  /** What is stored stays fit as one operation is recorded. */
  lemma StoreFits(c: Config, s: State, pid: Pid, r: State, act: Act)
    requires 0 <= c.ttl && RecordSound(c, s) && EntriesFit(c, s) && pid in s.procs && ProcSound(c, s, s.procs[pid])
    requires r.cache == act.cache && r.procs == s.procs[pid := act.next]
    requires r.stored == if act.trace.Stores? then s.stored[act.trace.token := act.trace.entry] else s.stored
    requires s.cache.nonce <= act.cache.nonce && act.cache.now == Now(s)
    requires act.next.Storing? ==> act.next.payload.generation < act.cache.nonce
    requires act.trace.Stores? ==>
               && s.procs[pid].Storing? && act.trace.token == s.procs[pid].token
               && act.trace.entry == Entry(s.procs[pid].payload, Now(s) + 2 * c.ttl)
    ensures forall t :: t in r.stored ==>
              && r.stored[t].payload.generation < r.cache.nonce && r.stored[t].payload.expires + c.ttl <= r.stored[t].deadline
              && r.stored[t].deadline <= Now(r) + 2 * c.ttl
    ensures forall q :: q in r.procs && r.procs[q].Storing? ==> r.procs[q].payload.generation < r.cache.nonce
    ensures forall t :: t in s.stored ==> t in r.stored && r.stored[t] == s.stored[t]
  {
    if act.trace.Stores? {
      assert s.issued[s.procs[pid].token] <= Now(s);
    }
  }

  /** Marks and claims are set on stored tokens, and for long enough. */
  lemma MarksFit(c: Config, s: State, r: State, act: Act)
    requires 0 <= c.ttl && RecordSound(c, s) && EntriesFit(c, s) && r.issued == s.issued && r.cache == act.cache
    requires forall t :: t in s.stored ==> t in r.stored && r.stored[t] == s.stored[t]
    requires forall t :: t in act.cache.claims ==>
               || (t in s.cache.claims && act.cache.claims[t] == s.cache.claims[t])
               || (t in s.stored && act.cache.claims[t] == Now(s) + 2 * c.ttl)
    requires forall t :: t in act.cache.used ==>
               || (t in s.cache.used && act.cache.used[t] == s.cache.used[t])
               || (t in s.stored && act.cache.used[t] == Now(s) + 2 * c.ttl)
    ensures forall t :: t in r.cache.claims ==> t in r.issued && t in r.stored && r.stored[t].deadline <= r.cache.claims[t]
    ensures ReAuthWindow.UsedKeysLast(c, r)
  {
  }

  lemma AdvanceKeepsEntriesFit(c: Config, s: State, pid: Pid)
    requires 0 <= c.ttl && TokensSound(c, s) && CandidatesPrivate(s) && EntriesFit(c, s) && pid in s.procs
    ensures EntriesFit(c, Advance(c, s, pid))
  {
    var p, act := s.procs[pid], ActOf(c, s.cache, s.procs[pid]);
    assert ProcSound(c, s, p);
    if Pending(p).Some? {
      assert Unknown(s, Pending(p).value);
    }
    ActFits(c, s.cache, p);
    AdvanceRecords(c, s, pid);
    StoreFits(c, s, pid, Advance(c, s, pid), act);
    MarksFit(c, s, Advance(c, s, pid), act);
  }

  lemma StartKeepsEntriesFit(c: Config, s: State, e: Event)
    requires RecordSound(c, s) && EntriesFit(c, s) && Enabled(s, e) && (e.StartIssue? || e.StartConsume? || e.StartInvalidate?)
    ensures EntriesFit(c, Step(c, s, e))
  {
  }

  /** Time passing counts as the eviction of nothing. */
  lemma EvictionKeepsEntriesFit(c: Config, s: State, e: Event)
    requires EntriesFit(c, s) && Environment(e)
    ensures EntriesFit(c, Step(c, s, e))
  {
    EnvironmentIsCacheOnly(c, s, e);
  }

  lemma StepKeepsEntriesFit(c: Config, s: State, e: Event)
    requires 0 <= c.ttl && TokensSound(c, s) && CandidatesPrivate(s) && EntriesFit(c, s) && Enabled(s, e)
    ensures EntriesFit(c, Step(c, s, e))
  {
    if e.Run? {
      AdvanceKeepsEntriesFit(c, s, e.pid);
    } else if e.StartIssue? || e.StartConsume? || e.StartInvalidate? {
      StartKeepsEntriesFit(c, s, e);
    } else {
      EvictionKeepsEntriesFit(c, s, e);
    }
  }

  lemma {:induction false} RunKeepsEntriesFit(c: Config, s: State, es: seq<Event>, end: State)
    requires 0 <= c.ttl && TokensSound(c, s) && CandidatesPrivate(s) && EntriesFit(c, s) && Leads(c, s, es, end)
    ensures TokensSound(c, end) && CandidatesPrivate(end) && EntriesFit(c, end)
    decreases |es|
  {
    if es != [] {
      StepKeepsTokensSound(c, s, es[0]);
      StepKeepsPrivate(c, s, es[0]);
      StepKeepsEntriesFit(c, s, es[0]);
      RunKeepsEntriesFit(c, Step(c, s, es[0]), es[1..], end);
    }
  }

  /** Every reachable cache is fit, under any eviction and in either mode. */
  lemma ReachableIsFit(c: Config, now: int, es: seq<Event>, s: State)
    requires 0 <= c.ttl && Leads(c, Initial(now), es, s)
    ensures Fit(c, s.cache)
  {
    RunKeepsEntriesFit(c, Initial(now), es, s);
  }

  /** In every reachable state an uninterrupted `consume` succeeds exactly when it should. */
  lemma ConsumeDecidesWhenReached(c: Config, now: int, es: seq<Event>, s: State, user: UserId, token: Nonce, wantsFresh: bool)
    requires 0 <= c.ttl && Leads(c, Initial(now), es, s)
    ensures Consumed(c, s.cache, user, token, wantsFresh).1 <==>
            && Visible(s.cache, token)
            && s.cache.tokens[token].payload.user == user && Now(s) < s.cache.tokens[token].payload.expires
            && user in s.cache.generations && s.cache.generations[user] == s.cache.tokens[token].payload.generation
            && match c.mode
               case SingleUse(native) => native || !MarkVisible(s.cache.claims, token, Now(s))
               case Window => wantsFresh ==> !MarkVisible(s.cache.used, token, Now(s))
  {
    ReachableIsFit(c, now, es, s);
    ConsumeDecides(c, s.cache, user, token, wantsFresh);
  }

  /** In every reachable state a token issued next is accepted exactly until its lifetime has passed. */
  lemma IssuedTokenLastsWhenReached(
      c: Config, now: int, es: seq<Event>, s: State, user: UserId, elapsed: nat, wantsFresh: bool)
    requires 1 <= c.ttl && Leads(c, Initial(now), es, s)
    ensures var later := IssuedTo(c, s.cache, user).(now := Now(s) + elapsed);
            Consumed(c, later, user, s.cache.nonce, wantsFresh).1 <==> elapsed < c.ttl
  {
    ReachableIsFit(c, now, es, s);
    IssuedTokenLastsTtl(c, s.cache, user, elapsed, wantsFresh);
  }

  /** In every reachable state of window mode, a token accepted once keeps verifying exactly until it
      expires, and is never fresh again. */
  lemma WindowKeepsVerifyingWhenReached(
      c: Config, now: int, es: seq<Event>, s: State, user: UserId, token: Nonce, wantsFresh: bool, elapsed: nat)
    requires 0 <= c.ttl && c.mode.Window? && Leads(c, Initial(now), es, s)
    requires Consumed(c, s.cache, user, token, wantsFresh).1
    ensures Visible(s.cache, token)
    ensures var later := Consumed(c, s.cache, user, token, wantsFresh).0;
            && (Consumed(c, later.(now := Now(s) + elapsed), user, token, false).1 <==>
                Now(s) + elapsed < s.cache.tokens[token].payload.expires)
            && !Consumed(c, later.(now := Now(s) + elapsed), user, token, true).1
  {
    ReachableIsFit(c, now, es, s);
    ConsumeDecides(c, s.cache, user, token, wantsFresh);
    WindowKeepsVerifying(c, s.cache, user, token, wantsFresh, elapsed);
  }
}
