/** The service as one worker runs it: each call is its process of module ReAuth taken to the end
    without interruption, and keeps what the library promises of tokens. */
module ReAuthService {
  import opened Wrappers
  import opened ReAuth

  /** Operations a process can still make: every call finishes, whatever the others do. */
  function Remaining(p: Proc): nat {
    match p
    case Issuing(_, _, _, Ask) => 4
    case Issuing(_, _, _, Offer(_)) => 3
    case Issuing(_, _, _, AskAgain) => 2
    case Storing(_, _) => 1
    case Arriving(_, _, _) => 8
    case Popping(_, _, _, _) => 7
    case Deleting(_, _, _, _) => 6
    case Validating(_, _, _, _) => 5
    case Checking(_, _, _, _, _, Ask) => 4
    case Checking(_, _, _, _, _, Offer(_)) => 3
    case Checking(_, _, _, _, _, AskAgain) => 2
    case Marking(_, _, _, _, _) => 1
    case Invalidating(_) => 1
    case Done(_) => 0
  }

  /** No interleaving can hold a call up: each of its operations brings it nearer its end. */
  lemma EveryOperationIsProgress(c: Config, cache: Cache, p: Proc)
    ensures !p.Done? ==> Remaining(ActOf(c, cache, p).next) < Remaining(p) <= 8
  {
  }

  /** A process run to its end by itself. */
  function Completed(c: Config, cache: Cache, p: Proc): (r: (Cache, Proc))
    ensures r.1.Done?
    decreases Remaining(p)
  {
    if p.Done? then (cache, p)
    else
      EveryOperationIsProgress(c, cache, p);
      var act := ActOf(c, cache, p);
      Completed(c, act.cache, act.next)
  }

  predicate IsAccepted(p: Proc) { p.Done? && p.outcome.Accepted? }

  /** `_generation` in one go: the stored value, or a new one that is stored now. */
  function Generated(cache: Cache, user: UserId): (Cache, Nonce) {
    if user in cache.generations then (cache, cache.generations[user])
    else (cache.(nonce := cache.nonce + 1, generations := cache.generations[user := cache.nonce]), cache.nonce)
  }

  /** `_still_valid` in one go. */
  function StillValid(cache: Cache, payload: Payload, user: UserId): (Cache, bool) {
    if payload.user != user || payload.expires <= cache.now then (cache, false)
    else var (after, generation) := Generated(cache, user); (after, generation == payload.generation)
  }

  lemma CheckingRuns(c: Config, cache: Cache, p: Proc)
    requires p.Checking? && p.pc == Ask
    ensures var (after, generation) := Generated(cache, p.user);
            Completed(c, cache, p) == Completed(c, after, Compared(c, p, generation))
  {
  }

  /** Validation ends the call in single-use mode, and leads to the mark in window mode. */
  lemma ValidatingRuns(c: Config, cache: Cache, p: Proc)
    requires p.Validating?
    ensures var (after, ok) := StillValid(cache, p.payload, p.user);
            Completed(c, cache, p) ==
            if !ok then (after, Done(Refused(p.token)))
            else if c.mode.Window? then Completed(c, after, Marking(p.user, p.token, p.wantsFresh, p.payload, cache.now))
            else (after, Done(Accepted(p.user, p.token, p.wantsFresh, p.payload)))
  {
    var act := ActOf(c, cache, p);
    assert Completed(c, cache, p) == Completed(c, act.cache, act.next);
    if act.next.Checking? {
      CheckingRuns(c, cache, act.next);
    }
  }

  lemma IssuingRuns(c: Config, cache: Cache, user: UserId, token: Nonce, issuedAt: int)
    ensures var (after, generation) := Generated(cache, user);
            var entry := Entry(Payload(user, generation, issuedAt + c.ttl), cache.now + 2 * c.ttl);
            Completed(c, cache, Issuing(user, token, issuedAt, Ask))
              == (after.(tokens := cache.tokens[token := entry]), Done(Finished))
  {
    var (after, generation) := Generated(cache, user);
    var storing := Storing(token, Payload(user, generation, issuedAt + c.ttl));
    var asking := Issuing(user, token, issuedAt, Ask);
    assert Completed(c, after, storing) == Completed(c, ActOf(c, after, storing).cache, Done(Finished));
    if user !in cache.generations {
      var asked := cache.(nonce := cache.nonce + 1);
      var offering := Issuing(user, token, issuedAt, Offer(cache.nonce));
      assert Completed(c, cache, asking) == Completed(c, asked, offering);
      assert Completed(c, asked, offering) == Completed(c, after, storing);
    }
  }

  /** `consume` in one go. */
  function Consumed(c: Config, cache: Cache, user: UserId, token: Nonce, wantsFresh: bool): (Cache, bool) {
    var (after, end) := Completed(c, cache, Arriving(user, token, wantsFresh));
    (after, IsAccepted(end))
  }

  /** `issue` in one go, once the proof is verified. */
  function IssuedTo(c: Config, cache: Cache, user: UserId): Cache {
    Completed(c, cache.(nonce := cache.nonce + 1), Issuing(user, cache.nonce, cache.now, Ask)).0
  }

  // ---- The code -----------------------------------------------------------------------------------

  class Worker {
    const config: Config
    var cache: Cache

    constructor (config: Config, cache: Cache)
      ensures this.config == config && this.cache == cache
    {
      this.config, this.cache := config, cache;
    }

    /** `secrets.token_urlsafe` */
    method Random() returns (value: Nonce)
      modifies this
      ensures value == old(cache).nonce && cache == old(cache).(nonce := old(cache).nonce + 1)
    {
      value := cache.nonce;
      cache := cache.(nonce := cache.nonce + 1);
    }

    /** `_generation` */
    method Generation(user: UserId) returns (generation: Nonce)
      modifies this
      ensures (cache, generation) == Generated(old(cache), user)
    {
      if user in cache.generations {
        return cache.generations[user];
      }
      var candidate := Random();
      cache := cache.(generations := cache.generations[user := candidate]);
      return candidate;
    }

    /** `issue`: only a verified proof of an active user reaches the cache. */
    method Issue(user: UserId, active: bool, verified: bool) returns (token: Option<Nonce>)
      modifies this
      ensures if active && verified
              then cache == IssuedTo(config, old(cache), user) && token == Some(old(cache).nonce)
              else cache == old(cache) && token.None?
    {
      if !active || !verified {
        return None;
      }
      var issuedAt := cache.now;
      var value := Random();
      ghost var begun := cache;
      var generation := Generation(user);
      var entry := Entry(Payload(user, generation, issuedAt + config.ttl), cache.now + 2 * config.ttl);
      cache := cache.(tokens := cache.tokens[value := entry]);
      IssuingRuns(config, begun, user, value, issuedAt);
      return Some(value);
    }

    /** `_still_valid` */
    method IsStillValid(payload: Payload, user: UserId) returns (valid: bool)
      modifies this
      ensures (cache, valid) == StillValid(old(cache), payload, user)
    {
      if payload.user != user {
        return false;
      }
      if payload.expires <= cache.now {
        return false;
      }
      var generation := Generation(user);
      valid := payload.generation == generation;
    }

    /** `cache.add` of a claim or of a used mark, kept for the token's physical lifetime. */
    method AddClaim(token: Nonce) returns (added: bool)
      modifies this
      ensures added <==> !MarkVisible(old(cache).claims, token, old(cache).now)
      ensures cache == if added then old(cache).(claims := old(cache).claims[token := old(cache).now + 2 * config.ttl]) else old(cache)
    {
      added := !MarkVisible(cache.claims, token, cache.now);
      if added {
        cache := cache.(claims := cache.claims[token := cache.now + 2 * config.ttl]);
      }
    }

    /** `atomic_pop`, called for the consumer `p`. */
    method AtomicPop(token: Nonce, observed: Payload, ghost p: Proc) returns (payload: Option<Payload>)
      requires config.mode.SingleUse?
      requires p.Popping? && p.token == token && p.payload == observed
      modifies this
      ensures Completed(config, old(cache), p) ==
                if payload.None? then (cache, Done(Lost(token)))
                else Completed(config, cache, Validating(p.user, token, p.wantsFresh, payload.value))
    {
      ghost var act := ActOf(config, cache, p);
      assert Completed(config, cache, p) == Completed(config, act.cache, act.next);
      if config.mode.native {
        if token in cache.tokens && cache.now < cache.tokens[token].deadline {
          payload := Some(cache.tokens[token].payload);
          cache := cache.(tokens := cache.tokens - {token});
        } else {
          payload := None;
        }
        return;
      }
      var elected := AddClaim(token);
      if !elected {
        return None;
      }
      assert act == Act(cache, Deleting(p.user, token, p.wantsFresh, observed), Silent);
      ghost var deletion := ActOf(config, cache, act.next);
      assert Completed(config, cache, act.next) == Completed(config, deletion.cache, deletion.next);
      if token !in cache.tokens {
        return None;
      }
      cache := cache.(tokens := cache.tokens - {token});
      return Some(observed);
    }

    /** `consume` */
    method Consume(token: Option<Nonce>, user: UserId, active: bool, wantsFresh: bool) returns (ok: bool)
      modifies this
      ensures if token.Some? && active then (cache, ok) == Consumed(config, old(cache), user, token.value, wantsFresh)
              else cache == old(cache) && !ok
    {
      if token.None? || !active {
        return false;
      }
      var t := token.value;
      ghost var begun := cache;
      ghost var arriving := Arriving(user, t, wantsFresh);
      assert Completed(config, begun, arriving)
               == Completed(config, ActOf(config, begun, arriving).cache, ActOf(config, begun, arriving).next);
      if t !in cache.tokens || cache.tokens[t].deadline <= cache.now {
        return false;
      }
      var payload := cache.tokens[t].payload;
      if payload.user != user {
        return false;
      }
      if config.mode.Window? {
        ok := ConsumeInWindow(t, payload, user, wantsFresh);
        return;
      }
      var popped := AtomicPop(t, payload, Popping(user, t, wantsFresh, payload));
      if popped.None? {
        return false;
      }
      ValidatingRuns(config, cache, Validating(user, t, wantsFresh, popped.value));
      ok := IsStillValid(popped.value, user);
    }

    /** `_consume_in_window`: validity first, so that an expired token never marks itself used. */
    method ConsumeInWindow(token: Nonce, payload: Payload, user: UserId, wantsFresh: bool) returns (ok: bool)
      requires config.mode.Window?
      modifies this
      ensures var (after, end) := Completed(config, old(cache), Validating(user, token, wantsFresh, payload));
              cache == after && ok == IsAccepted(end)
    {
      ValidatingRuns(config, cache, Validating(user, token, wantsFresh, payload));
      var valid := IsStillValid(payload, user);
      if !valid {
        return false;
      }
      var first := !MarkVisible(cache.used, token, cache.now);
      if first {
        cache := cache.(used := cache.used[token := cache.now + 2 * config.ttl]);
      }
      if wantsFresh && !first {
        return false;
      }
      return true;
    }

    /** `invalidate_all_for_user` */
    method InvalidateAllForUser(user: UserId)
      modifies this
      ensures cache == Completed(config, old(cache), Invalidating(user)).0
    {
      var generation := Random();
      cache := cache.(generations := cache.generations[user := generation]);
    }
  }

  // ---- The promises, call by call ----------------------------------------------------------------------

  /** When an uninterrupted `consume` succeeds: exactly when the token is there for this user, has not
      expired, carries the user's generation, and has not been claimed, or used when freshness is asked. */
  lemma ConsumeDecides(c: Config, cache: Cache, user: UserId, token: Nonce, wantsFresh: bool)
    requires Visible(cache, token) ==> cache.tokens[token].payload.generation < cache.nonce
    ensures Consumed(c, cache, user, token, wantsFresh).1 <==>
            && Visible(cache, token)
            && cache.tokens[token].payload.user == user && cache.now < cache.tokens[token].payload.expires
            && user in cache.generations && cache.generations[user] == cache.tokens[token].payload.generation
            && match c.mode
               case SingleUse(native) => native || !MarkVisible(cache.claims, token, cache.now)
               case Window => wantsFresh ==> !MarkVisible(cache.used, token, cache.now)
  {
    var arriving := Arriving(user, token, wantsFresh);
    var act := ActOf(c, cache, arriving);
    assert Completed(c, cache, arriving) == Completed(c, act.cache, act.next);
    if act.next.Validating? {
      ValidatingRuns(c, cache, act.next);
    } else if act.next.Popping? {
      PoppingRuns(c, cache, act.next);
    }
  }

  lemma PoppingRuns(c: Config, cache: Cache, p: Proc)
    requires p.Popping? && c.mode.SingleUse? && Visible(cache, p.token) && cache.tokens[p.token].payload == p.payload
    ensures var (after, end) := Completed(c, cache, p);
            && (IsAccepted(end) <==>
                  && (c.mode.native || !MarkVisible(cache.claims, p.token, cache.now))
                  && StillValid(cache, p.payload, p.user).1)
            && (IsAccepted(end) ==> p.token !in after.tokens)
  {
    var act := ActOf(c, cache, p);
    assert Completed(c, cache, p) == Completed(c, act.cache, act.next);
    if act.next.Deleting? {
      var second := ActOf(c, act.cache, act.next);
      assert Completed(c, act.cache, act.next) == Completed(c, second.cache, second.next);
      ValidatingRuns(c, second.cache, second.next);
    } else if act.next.Validating? {
      ValidatingRuns(c, act.cache, act.next);
    }
  }

  /** A consumption by the wrong principal changes nothing: the token is not burned. */
  lemma ForeignConsumeBurnsNothing(c: Config, cache: Cache, user: UserId, token: Nonce, wantsFresh: bool)
    requires Visible(cache, token) ==> cache.tokens[token].payload.user != user
    ensures Consumed(c, cache, user, token, wantsFresh) == (cache, false)
  {
    var arriving := Arriving(user, token, wantsFresh);
    assert Completed(c, cache, arriving) == Completed(c, cache, Done(Refused(token)));
  }

  /** In single-use mode a success is the last one: the token is gone, for everybody and for good. */
  lemma SingleUseBurns(
      c: Config, cache: Cache, user: UserId, token: Nonce, wantsFresh: bool, other: UserId, again: bool, elapsed: nat)
    requires c.mode.SingleUse? && Consumed(c, cache, user, token, wantsFresh).1
    ensures var left := Consumed(c, cache, user, token, wantsFresh).0;
            token !in left.tokens && !Consumed(c, left.(now := left.now + elapsed), other, token, again).1
  {
    var arriving := Arriving(user, token, wantsFresh);
    var act := ActOf(c, cache, arriving);
    assert Completed(c, cache, arriving) == Completed(c, act.cache, act.next);
    PoppingRuns(c, cache, act.next);
    var left := Consumed(c, cache, user, token, wantsFresh).0;
    ForeignConsumeBurnsNothing(c, left.(now := left.now + elapsed), other, token, again);
  }

  /** A token just issued is accepted from its user until `ttl` has passed, and not from then on. */
  lemma IssuedTokenLastsTtl(c: Config, cache: Cache, user: UserId, elapsed: nat, wantsFresh: bool)
    requires 1 <= c.ttl
    requires user in cache.generations ==> cache.generations[user] < cache.nonce
    requires cache.nonce !in cache.claims && cache.nonce !in cache.used
    ensures var later := IssuedTo(c, cache, user).(now := cache.now + elapsed);
            Consumed(c, later, user, cache.nonce, wantsFresh).1 <==> elapsed < c.ttl
  {
    IssuingRuns(c, cache.(nonce := cache.nonce + 1), user, cache.nonce, cache.now);
    ConsumeDecides(c, IssuedTo(c, cache, user).(now := cache.now + elapsed), user, cache.nonce, wantsFresh);
  }

  /** In window mode a token accepted once keeps being accepted for ordinary actions until it expires,
      use never extends it, and it is never fresh again. */
  lemma WindowKeepsVerifying(c: Config, cache: Cache, user: UserId, token: Nonce, wantsFresh: bool, elapsed: nat)
    requires c.mode.Window? && Consumed(c, cache, user, token, wantsFresh).1
    requires Visible(cache, token) && cache.tokens[token].payload.generation < cache.nonce
    requires cache.tokens[token].payload.expires <= cache.tokens[token].deadline
    requires cache.tokens[token].payload.expires <= cache.now + c.ttl
    requires token in cache.used ==> cache.used[token] >= cache.tokens[token].payload.expires || cache.used[token] <= cache.now
    ensures var later := Consumed(c, cache, user, token, wantsFresh).0;
            && (Consumed(c, later.(now := cache.now + elapsed), user, token, false).1 <==>
                cache.now + elapsed < cache.tokens[token].payload.expires)
            && !Consumed(c, later.(now := cache.now + elapsed), user, token, true).1
  {
    ConsumeDecides(c, cache, user, token, wantsFresh);
    var arriving := Arriving(user, token, wantsFresh);
    var validating := Validating(user, token, wantsFresh, cache.tokens[token].payload);
    assert Completed(c, cache, arriving) == Completed(c, cache, validating);
    ValidatingRuns(c, cache, validating);
    var marking := Marking(user, token, wantsFresh, cache.tokens[token].payload, cache.now);
    var later := Consumed(c, cache, user, token, wantsFresh).0;
    assert later == ActOf(c, cache, marking).cache;
    ConsumeDecides(c, later.(now := cache.now + elapsed), user, token, false);
    ConsumeDecides(c, later.(now := cache.now + elapsed), user, token, true);
  }

  /** Nothing changes but what is kept of this token, and the user's generation if there was none. */
  predicate SameButFor(cache: Cache, left: Cache, user: UserId, token: Nonce) {
    && left.now == cache.now && cache.nonce <= left.nonce
    && left.tokens - {token} == cache.tokens - {token}
    && (token in left.tokens ==> token in cache.tokens && left.tokens[token] == cache.tokens[token])
    && left.claims - {token} == cache.claims - {token} && left.used - {token} == cache.used - {token}
    && left.generations - {user} == cache.generations - {user}
    && (user in cache.generations ==> user in left.generations && left.generations[user] == cache.generations[user])
  }

  /** An uninterrupted consumption touches its own token only. */
  lemma ConsumeTouchesItsTokenOnly(c: Config, cache: Cache, user: UserId, token: Nonce, wantsFresh: bool)
    ensures SameButFor(cache, Consumed(c, cache, user, token, wantsFresh).0, user, token)
  {
    TouchesOnly(c, cache, Arriving(user, token, wantsFresh));
  }

  /** The token a consumer is about. */
  function About(p: Proc): Option<(UserId, Nonce)> {
    match p
    case Arriving(user, token, _) => Some((user, token))
    case Popping(user, token, _, _) => Some((user, token))
    case Deleting(user, token, _, _) => Some((user, token))
    case Validating(user, token, _, _) => Some((user, token))
    case Checking(user, token, _, _, _, _) => Some((user, token))
    case Marking(user, token, _, _, _) => Some((user, token))
    case _ => None
  }

  lemma GenerationTouchesOnly(cache: Cache, user: UserId, token: Nonce, pc: GenPc)
    ensures SameButFor(cache, Generate(cache, user, pc).0, user, token)
  {
    if pc.Offer? && user !in cache.generations {
      assert cache.generations[user := pc.candidate] - {user} == cache.generations - {user};
    }
  }

  lemma OneOperationTouchesOnly(c: Config, cache: Cache, p: Proc)
    requires About(p).Some?
    ensures SameButFor(cache, ActOf(c, cache, p).cache, About(p).value.0, About(p).value.1)
    ensures About(ActOf(c, cache, p).next).Some? ==> About(ActOf(c, cache, p).next) == About(p)
    ensures About(ActOf(c, cache, p).next).None? ==> ActOf(c, cache, p).next.Done?
  {
    if p.Checking? {
      GenerationTouchesOnly(cache, p.user, p.token, p.pc);
    } else {
      assert ActOf(c, cache, p).cache.generations == cache.generations;
    }
  }

  lemma {:induction false} TouchesOnly(c: Config, cache: Cache, p: Proc)
    requires About(p).Some?
    ensures SameButFor(cache, Completed(c, cache, p).0, About(p).value.0, About(p).value.1)
    decreases Remaining(p)
  {
    var act := ActOf(c, cache, p);
    OneOperationTouchesOnly(c, cache, p);
    EveryOperationIsProgress(c, cache, p);
    assert Completed(c, cache, p) == Completed(c, act.cache, act.next);
    if About(act.next).Some? {
      TouchesOnly(c, act.cache, act.next);
    }
  }

  /** An expired or invalidated token never marks itself used. */
  lemma RefusedTokenIsNotMarked(c: Config, cache: Cache, user: UserId, token: Nonce, wantsFresh: bool)
    requires c.mode.Window? && (Visible(cache, token) ==> cache.tokens[token].payload.generation < cache.nonce)
    requires !Consumed(c, cache, user, token, false).1
    ensures Consumed(c, cache, user, token, wantsFresh).0.used == cache.used
    ensures Consumed(c, cache, user, token, wantsFresh).0.tokens == cache.tokens
  {
    var arriving := Arriving(user, token, wantsFresh);
    var act := ActOf(c, cache, arriving);
    ConsumeDecides(c, cache, user, token, false);
    assert Completed(c, cache, arriving) == Completed(c, act.cache, act.next);
    if act.next.Validating? {
      ValidatingRuns(c, cache, act.next);
    }
  }

  /** `invalidate_all_for_user` refuses every token the user has, and leaves those of others as they were. */
  lemma InvalidationIsForOneUser(c: Config, cache: Cache, user: UserId, other: UserId, token: Nonce, wantsFresh: bool)
    requires Visible(cache, token) ==> cache.tokens[token].payload.generation < cache.nonce
    ensures var left := Completed(c, cache, Invalidating(user)).0;
            && !Consumed(c, left, user, token, wantsFresh).1
            && (other != user ==> Consumed(c, left, other, token, wantsFresh).1 == Consumed(c, cache, other, token, wantsFresh).1)
  {
    var invalidating := Invalidating(user);
    var left := Completed(c, cache, invalidating).0;
    assert Completed(c, cache, invalidating) == Completed(c, ActOf(c, cache, invalidating).cache, Done(Finished));
    ConsumeDecides(c, left, user, token, wantsFresh);
    ConsumeDecides(c, left, other, token, wantsFresh);
    ConsumeDecides(c, cache, other, token, wantsFresh);
  }
}
