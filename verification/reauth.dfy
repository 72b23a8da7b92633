/** Step-up tokens: every issuer, consumer and invalidator takes single atomic steps on one shared
    cache, in any interleaving, while time passes and entries may be evicted. Random values never
    repeat. */
module ReAuth {
  import opened Wrappers

  type Nonce = nat
  type UserId = nat
  type Pid = nat

  datatype Payload = Payload(user: UserId, generation: Nonce, expires: int)

  datatype Entry = Entry(payload: Payload, deadline: int)

  /** `native` is the backend with an atomic get-and-delete. */
  datatype Mode = SingleUse(native: bool) | Window

  datatype Config = Config(ttl: int, mode: Mode)

  /** The shared cache, by key prefix. Generations have no timeout; a key counts as present to `get`
      and `add` before its deadline only. */
  datatype Cache = Cache(
    now: int,
    nonce: Nonce,                       // the next random value
    generations: map<UserId, Nonce>,
    tokens: map<Nonce, Entry>,
    used: map<Nonce, int>,
    claims: map<Nonce, int>)

  // ---- `_generation`, step by step ----------------------------------------------------------------

  datatype GenPc = Ask | Offer(candidate: Nonce) | AskAgain

  datatype GenStep = More(pc: GenPc) | Returned(generation: Nonce)

  /** One cache operation of `_generation`: get; add the candidate; get again. */
  function Generate(c: Cache, user: UserId, pc: GenPc): (Cache, GenStep) {
    match pc
    case Ask =>
      if user in c.generations then (c, Returned(c.generations[user]))
      else (c.(nonce := c.nonce + 1), More(Offer(c.nonce)))
    case Offer(candidate) =>
      if user in c.generations then (c, More(AskAgain))
      else (c.(generations := c.generations[user := candidate]), Returned(candidate))
    case AskAgain =>
      if user in c.generations then (c, Returned(c.generations[user]))
      else (c.(nonce := c.nonce + 1), Returned(c.nonce))
  }

  // ---- Processes ------------------------------------------------------------------------------------

  datatype Outcome =
    | Accepted(user: UserId, token: Nonce, wantsFresh: bool, payload: Payload)
    | Lost(token: Nonce)                // the pop obtained nothing
    | Refused(token: Nonce)             // any other refusal
    | Finished                          // an issuer or invalidator

  datatype Proc =
    | Issuing(user: UserId, token: Nonce, issuedAt: int, pc: GenPc)
    | Storing(token: Nonce, payload: Payload)
    | Arriving(user: UserId, token: Nonce, wantsFresh: bool)
    | Popping(user: UserId, token: Nonce, wantsFresh: bool, payload: Payload)
    | Deleting(user: UserId, token: Nonce, wantsFresh: bool, payload: Payload)
    | Validating(user: UserId, token: Nonce, wantsFresh: bool, payload: Payload)
    | Checking(user: UserId, token: Nonce, wantsFresh: bool, payload: Payload, checkedAt: int, pc: GenPc)
    | Marking(user: UserId, token: Nonce, wantsFresh: bool, payload: Payload, checkedAt: int)
    | Invalidating(user: UserId)
    | Done(outcome: Outcome)

  /** One `add` of a token's used mark. */
  datatype Mark = Mark(pid: Pid, token: Nonce, wantsFresh: bool, at: int, first: bool)

  /** The system, with what has happened so far: issue instants, stored payloads with their deadlines,
      who obtained each token, generations stamped for each user, and the marks in order. */
  datatype State = State(
    cache: Cache,
    procs: map<Pid, Proc>,
    issued: map<Nonce, int>,
    stored: map<Nonce, Entry>,
    taken: map<Nonce, Pid>,
    stamped: set<(UserId, Nonce)>,
    marks: seq<Mark>)

  function Initial(now: int): State {
    State(Cache(now, 0, map[], map[], map[], map[]), map[], map[], map[], map[], {}, [])
  }

  function Now(s: State): int { s.cache.now }

  /** What one operation adds to the record. */
  datatype Trace =
    | Silent
    | Stamps(user: UserId, generation: Nonce)
    | Stores(token: Nonce, entry: Entry)
    | Takes(token: Nonce)
    | Marks(token: Nonce, wantsFresh: bool, first: bool)

  datatype Act = Act(cache: Cache, next: Proc, trace: Trace)

  predicate Visible(c: Cache, token: Nonce) { token in c.tokens && c.now < c.tokens[token].deadline }

  predicate MarkVisible(marks: map<Nonce, int>, token: Nonce, now: int) { token in marks && now < marks[token] }

  /** `atomic_pop`: get-and-delete where the backend has it, else the claim that precedes the delete. */
  function Pop(c: Config, cache: Cache, p: Proc): Act
    requires p.Popping?
  {
    var token := p.token;
    if c.mode.SingleUse? && c.mode.native then
      if Visible(cache, token)
      then Act(cache.(tokens := cache.tokens - {token}),
               Validating(p.user, token, p.wantsFresh, cache.tokens[token].payload), Takes(token))
      else Act(cache, Done(Lost(token)), Silent)
    else if MarkVisible(cache.claims, token, cache.now) then Act(cache, Done(Lost(token)), Silent)
    else Act(cache.(claims := cache.claims[token := cache.now + 2 * c.ttl]),
             Deleting(p.user, token, p.wantsFresh, p.payload), Silent)
  }

  function Delete(cache: Cache, p: Proc): Act
    requires p.Deleting?
  {
    if p.token in cache.tokens
    then Act(cache.(tokens := cache.tokens - {p.token}), Validating(p.user, p.token, p.wantsFresh, p.payload), Takes(p.token))
    else Act(cache, Done(Lost(p.token)), Silent)
  }

  /** The first `get` of `consume`; a foreign principal leaves the token alone. */
  function Arrive(c: Config, cache: Cache, p: Proc): Act
    requires p.Arriving?
  {
    if !Visible(cache, p.token) || cache.tokens[p.token].payload.user != p.user then Act(cache, Done(Refused(p.token)), Silent)
    else
      var payload := cache.tokens[p.token].payload;
      Act(cache,
          if c.mode.Window? then Validating(p.user, p.token, p.wantsFresh, payload)
          else Popping(p.user, p.token, p.wantsFresh, payload), Silent)
  }

  /** The comparison that ends `_still_valid`. */
  function Compared(c: Config, p: Proc, generation: Nonce): Proc
    requires p.Checking?
  {
    if generation != p.payload.generation then Done(Refused(p.token))
    else if c.mode.Window? then Marking(p.user, p.token, p.wantsFresh, p.payload, p.checkedAt)
    else Done(Accepted(p.user, p.token, p.wantsFresh, p.payload))
  }

  function SetUsed(c: Config, cache: Cache, p: Proc): Act
    requires p.Marking?
  {
    var first := !MarkVisible(cache.used, p.token, cache.now);
    Act(if first then cache.(used := cache.used[p.token := cache.now + 2 * c.ttl]) else cache,
        if p.wantsFresh && !first then Done(Refused(p.token)) else Done(Accepted(p.user, p.token, p.wantsFresh, p.payload)),
        Marks(p.token, p.wantsFresh, first))
  }

  /** The next cache operation of a process. */
  function ActOf(c: Config, cache: Cache, p: Proc): Act {
    match p
    case Issuing(user, token, issuedAt, pc) =>
      (match Generate(cache, user, pc)
       case (after, More(next)) => Act(after, Issuing(user, token, issuedAt, next), Silent)
       case (after, Returned(g)) => Act(after, Storing(token, Payload(user, g, issuedAt + c.ttl)), Stamps(user, g)))
    case Storing(token, payload) =>
      var entry := Entry(payload, cache.now + 2 * c.ttl);
      Act(cache.(tokens := cache.tokens[token := entry]), Done(Finished), Stores(token, entry))
    case Arriving(_, _, _) => Arrive(c, cache, p)
    case Popping(_, _, _, _) => Pop(c, cache, p)
    case Deleting(_, _, _, _) => Delete(cache, p)
    case Validating(user, token, wantsFresh, payload) =>
      Act(cache,
          if payload.user != user || payload.expires <= cache.now then Done(Refused(token))
          else Checking(user, token, wantsFresh, payload, cache.now, Ask), Silent)
    case Checking(user, token, wantsFresh, payload, checkedAt, pc) =>
      (match Generate(cache, user, pc)
       case (after, More(next)) => Act(after, Checking(user, token, wantsFresh, payload, checkedAt, next), Silent)
       case (after, Returned(g)) => Act(after, Compared(c, p, g), Silent))
    case Marking(_, _, _, _, _) => SetUsed(c, cache, p)
    case Invalidating(user) =>
      Act(cache.(generations := cache.generations[user := cache.nonce], nonce := cache.nonce + 1), Done(Finished), Silent)
    case Done(_) => Act(cache, p, Silent)
  }

  function Logged(s: State, pid: Pid, trace: Trace): State {
    match trace
    case Silent => s
    case Stamps(user, g) => s.(stamped := s.stamped + {(user, g)})
    case Stores(token, entry) => s.(stored := s.stored[token := entry])
    case Takes(token) => s.(taken := s.taken[token := pid])
    case Marks(token, wantsFresh, first) => s.(marks := s.marks + [Mark(pid, token, wantsFresh, Now(s), first)])
  }

  function Goes(s: State, pid: Pid, p: Proc): State { s.(procs := s.procs[pid := p]) }

  function Advance(c: Config, s: State, pid: Pid): State
    requires pid in s.procs
  {
    var act := ActOf(c, s.cache, s.procs[pid]);
    Logged(Goes(s, pid, act.next).(cache := act.cache), pid, act.trace)
  }

  /** What the record keeps of one operation. */
  lemma AdvanceRecords(c: Config, s: State, pid: Pid)
    requires pid in s.procs
    ensures var act, r := ActOf(c, s.cache, s.procs[pid]), Advance(c, s, pid);
            && r.cache == act.cache && r.issued == s.issued && r.procs == s.procs[pid := act.next]
            && r.stored == (if act.trace.Stores? then s.stored[act.trace.token := act.trace.entry] else s.stored)
            && r.taken == (if act.trace.Takes? then s.taken[act.trace.token := pid] else s.taken)
            && (!act.trace.Marks? ==> r.marks == s.marks)
            && r.stamped == if act.trace.Stamps? then s.stamped + {(act.trace.user, act.trace.generation)} else s.stamped
  {
  }

  // ---- Events ---------------------------------------------------------------------------------------

  datatype Event =
    | Tick(elapsed: nat)
    | StartIssue(pid: Pid, user: UserId)           // the proof has been verified
    | StartConsume(pid: Pid, user: UserId, token: Nonce, wantsFresh: bool)
    | StartInvalidate(pid: Pid, user: UserId)
    | Run(pid: Pid)
    | EvictToken(token: Nonce)
    | EvictGeneration(user: UserId)
    | EvictUsed(token: Nonce)
    | EvictClaim(token: Nonce)

  predicate Enabled(s: State, e: Event) {
    match e
    case StartIssue(pid, _) => pid !in s.procs
    case StartConsume(pid, _, _, _) => pid !in s.procs
    case StartInvalidate(pid, _) => pid !in s.procs
    case Run(pid) => pid in s.procs
    case _ => true
  }

  function Step(c: Config, s: State, e: Event): State
    requires Enabled(s, e)
  {
    match e
    case Tick(elapsed) => s.(cache := s.cache.(now := s.cache.now + elapsed))
    case StartIssue(pid, user) =>
      Goes(s, pid, Issuing(user, s.cache.nonce, Now(s), Ask))
        .(cache := s.cache.(nonce := s.cache.nonce + 1), issued := s.issued[s.cache.nonce := Now(s)])
    case StartConsume(pid, user, token, wantsFresh) => Goes(s, pid, Arriving(user, token, wantsFresh))
    case StartInvalidate(pid, user) => Goes(s, pid, Invalidating(user))
    case Run(pid) => Advance(c, s, pid)
    case EvictToken(token) => s.(cache := s.cache.(tokens := s.cache.tokens - {token}))
    case EvictGeneration(user) => s.(cache := s.cache.(generations := s.cache.generations - {user}))
    case EvictUsed(token) => s.(cache := s.cache.(used := s.cache.used - {token}))
    case EvictClaim(token) => s.(cache := s.cache.(claims := s.cache.claims - {token}))
  }

  predicate Leads(c: Config, s: State, es: seq<Event>, end: State)
    decreases |es|
  {
    if es == [] then s == end
    else Enabled(s, es[0]) && Leads(c, Step(c, s, es[0]), es[1..], end)
  }

  /** The token a process is about to store. */
  function Owns(p: Proc): Option<Nonce> {
    match p
    case Issuing(_, token, _, _) => Some(token)
    case Storing(token, _) => Some(token)
    case _ => None
  }

  /** The token a consumer carries, with the payload it read. */
  function Carries(p: Proc): Option<(Nonce, Payload)> {
    match p
    case Popping(_, token, _, payload) => Some((token, payload))
    case Deleting(_, token, _, payload) => Some((token, payload))
    case Validating(_, token, _, payload) => Some((token, payload))
    case Checking(_, token, _, payload, _, _) => Some((token, payload))
    case Marking(_, token, _, payload, _) => Some((token, payload))
    case Done(Accepted(_, token, _, payload)) => Some((token, payload))
    case _ => None
  }

  // ---- Tokens are stored once -----------------------------------------------------------------------

  /** A process agrees with the record: an issuer's token is its own and not yet stored, a consumer's
      payload is the stored one. */
  predicate ProcSound(c: Config, s: State, p: Proc) {
    && (Owns(p).Some? ==> Owns(p).value in s.issued && Owns(p).value !in s.stored)
    && (p.Issuing? ==> p.issuedAt == s.issued[p.token])
    && (p.Storing? ==> p.payload.expires == s.issued[p.token] + c.ttl)
    && (Carries(p).Some? ==>
          Carries(p).value.0 in s.stored && Carries(p).value.1 == s.stored[Carries(p).value.0].payload)
  }

  predicate RecordSound(c: Config, s: State) {
    && (forall t :: t in s.issued ==> t < s.cache.nonce && s.issued[t] <= Now(s))
    && (forall t :: t in s.stored ==> t in s.issued && s.stored[t].payload.expires == s.issued[t] + c.ttl)
    && (forall t :: t in s.cache.tokens ==> t in s.stored && s.cache.tokens[t] == s.stored[t])
  }

  predicate OwnersDistinct(s: State) {
    forall p, q :: p in s.procs && q in s.procs && Owns(s.procs[p]).Some? && Owns(s.procs[p]) == Owns(s.procs[q]) ==> p == q
  }

  /** Token values are never reused, each is stored by its own issuer at most once, and every payload
      in circulation is the one stored. */
  predicate TokensSound(c: Config, s: State) {
    && RecordSound(c, s) && OwnersDistinct(s)
    && forall pid :: pid in s.procs ==> ProcSound(c, s, s.procs[pid])
  }

  /** One process moved on; the record did not change. */
  predicate Quiet(s: State, r: State, pid: Pid) {
    && pid in r.procs && r.procs == s.procs[pid := r.procs[pid]]
    && r.issued == s.issued && r.stored == s.stored
    && Now(s) <= Now(r) && s.cache.nonce <= r.cache.nonce
    && forall t :: t in r.cache.tokens ==> t in s.cache.tokens && r.cache.tokens[t] == s.cache.tokens[t]
  }

  lemma QuietKeepsTokensSound(c: Config, s: State, r: State, pid: Pid)
    requires TokensSound(c, s) && Quiet(s, r, pid) && ProcSound(c, r, r.procs[pid])
    requires Owns(r.procs[pid]).Some? ==> pid in s.procs && Owns(s.procs[pid]) == Owns(r.procs[pid])
    ensures TokensSound(c, r)
  {
  }

  /** Only storing adds a token to the cache, and time stands still during an operation. */
  lemma ActIsQuiet(c: Config, cache: Cache, p: Proc)
    requires !p.Storing?
    ensures var act := ActOf(c, cache, p);
            && cache.now == act.cache.now && cache.nonce <= act.cache.nonce
            && act.cache.tokens.Keys <= cache.tokens.Keys
            && (forall t :: t in act.cache.tokens ==> act.cache.tokens[t] == cache.tokens[t])
            && (Owns(act.next).Some? ==> Owns(p) == Owns(act.next))
            && !act.trace.Stores?
  {
  }

  lemma ActKeepsProcSound(c: Config, s: State, p: Proc)
    requires !p.Storing? && RecordSound(c, s) && ProcSound(c, s, p)
    ensures ProcSound(c, s, ActOf(c, s.cache, p).next)
  {
  }

  lemma StoringKeepsTokensSound(c: Config, s: State, pid: Pid)
    requires TokensSound(c, s) && pid in s.procs && s.procs[pid].Storing?
    ensures TokensSound(c, Advance(c, s, pid))
  {
    var r := Advance(c, s, pid);
    assert ProcSound(c, s, s.procs[pid]);
    forall q | q in r.procs ensures ProcSound(c, r, r.procs[q]) {
      if q != pid {
        assert ProcSound(c, s, s.procs[q]);
        assert Owns(s.procs[q]) != Owns(s.procs[pid]);
      }
    }
  }

  lemma StartIssueKeepsTokensSound(c: Config, s: State, e: Event)
    requires TokensSound(c, s) && e.StartIssue? && Enabled(s, e)
    ensures TokensSound(c, Step(c, s, e))
  {
    var r := Step(c, s, e);
    forall q | q in r.procs ensures ProcSound(c, r, r.procs[q]) {
      if q != e.pid {
        assert ProcSound(c, s, s.procs[q]);
      }
    }
    forall q | q in s.procs ensures Owns(s.procs[q]) != Some(s.cache.nonce) {
      assert ProcSound(c, s, s.procs[q]);
    }
  }

  lemma AdvanceKeepsTokensSound(c: Config, s: State, pid: Pid)
    requires TokensSound(c, s) && pid in s.procs
    ensures TokensSound(c, Advance(c, s, pid))
  {
    if s.procs[pid].Storing? {
      StoringKeepsTokensSound(c, s, pid);
    } else {
      ActIsQuiet(c, s.cache, s.procs[pid]);
      assert ProcSound(c, s, s.procs[pid]);
      ActKeepsProcSound(c, s, s.procs[pid]);
      var r := Advance(c, s, pid);
      assert r.procs[pid] == ActOf(c, s.cache, s.procs[pid]).next;
      QuietKeepsTokensSound(c, s, r, pid);
    }
  }

  /** Time passes or an entry is evicted: no process and no record changes. */
  predicate CacheOnly(s: State, r: State) {
    && r == s.(cache := r.cache)
    && Now(s) <= Now(r) && s.cache.nonce == r.cache.nonce
    && r.cache.tokens.Keys <= s.cache.tokens.Keys
    && forall t :: t in r.cache.tokens ==> r.cache.tokens[t] == s.cache.tokens[t]
  }

  lemma CacheOnlyKeepsTokensSound(c: Config, s: State, r: State)
    requires TokensSound(c, s) && CacheOnly(s, r)
    ensures TokensSound(c, r)
  {
  }

  predicate Environment(e: Event) {
    e.Tick? || e.EvictToken? || e.EvictGeneration? || e.EvictUsed? || e.EvictClaim?
  }

  lemma EnvironmentIsCacheOnly(c: Config, s: State, e: Event)
    requires Environment(e)
    ensures CacheOnly(s, Step(c, s, e))
  {
  }

  lemma StepKeepsTokensSound(c: Config, s: State, e: Event)
    requires TokensSound(c, s) && Enabled(s, e)
    ensures TokensSound(c, Step(c, s, e))
  {
    match e {
      case Run(pid) => AdvanceKeepsTokensSound(c, s, pid);
      case StartIssue(_, _) => StartIssueKeepsTokensSound(c, s, e);
      case StartConsume(pid, _, _, _) => QuietKeepsTokensSound(c, s, Step(c, s, e), pid);
      case StartInvalidate(pid, _) => QuietKeepsTokensSound(c, s, Step(c, s, e), pid);
      case _ =>
        EnvironmentIsCacheOnly(c, s, e);
        CacheOnlyKeepsTokensSound(c, s, Step(c, s, e));
    }
  }
}
