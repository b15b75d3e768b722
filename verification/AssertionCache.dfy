/** The cached client assertion: a read-locked fast path, a write-locked double check, and the expiry
    arithmetic in nanoseconds. */
module AssertionCache {
  import opened Wrappers

  /** A signed JWT; `serial` makes two signings distinct. */
  datatype Token = Token(serial: nat, issuedAt: int)

  /** The constructor refuses a non-positive lifetime and a negative leeway. */
  datatype Config = Config(expiration: int, refreshBefore: int)

  predicate ValidConfig(c: Config) { c.expiration > 0 && c.refreshBefore >= 0 }

  /** What the mutex guards. */
  datatype Cache = Cache(token: Option<Token>, expiresAt: int)

  predicate Fresh(c: Config, cache: Cache, now: int) {
    cache.token.Some? && now + c.refreshBefore < cache.expiresAt
  }

  class Introspector {
    const config: Config
    var cachedAssertion: Option<Token>
    var assertionExpiresAt: int
    var signed: nat

    constructor (config: Config)
      ensures this.config == config && cachedAssertion == None && signed == 0
    {
      this.config, cachedAssertion, assertionExpiresAt, signed := config, None, 0, 0;
    }

    function Guarded(): Cache
      reads this
    {
      Cache(cachedAssertion, assertionExpiresAt)
    }

    method GetCachedAssertion(now: int) returns (token: Option<Token>)
      ensures token == if Fresh(config, Guarded(), now) then cachedAssertion else None
    {
      if cachedAssertion.Some? && now + config.refreshBefore < assertionExpiresAt {
        return cachedAssertion;
      }
      return None;
    }

    /** Nothing to return means that the signing failed; the cache is then as it was. */
    method CreateAndCacheAssertion(now: int, signOk: bool) returns (token: Option<Token>)
      modifies this
      ensures (Guarded(), signed, token) == LockedSection(config, old(Guarded()), old(signed), now, signOk)
    {
      if cachedAssertion.Some? && now + config.refreshBefore < assertionExpiresAt {
        return cachedAssertion;
      }
      if !signOk {
        return None;
      }
      token := Some(Token(signed, now));
      signed := signed + 1;
      cachedAssertion := token;
      assertionExpiresAt := now + config.expiration;
    }

    /** One call with nobody else around: what it returns outlives the leeway, or was just signed. */
    method CreateClientAssertion(now: int, later: int, signOk: bool) returns (token: Option<Token>)
      requires now <= later
      modifies this
      ensures token.Some? ==>
        && token == cachedAssertion
        && (assertionExpiresAt - now > config.refreshBefore || assertionExpiresAt == later + config.expiration)
      ensures token == None ==> !signOk && Guarded() == old(Guarded()) && signed == old(signed)
      ensures Fresh(config, old(Guarded()), now) || Fresh(config, old(Guarded()), later) ==>
        signed == old(signed) && token == old(cachedAssertion)
    {
      token := GetCachedAssertion(now);
      if token == None {
        token := CreateAndCacheAssertion(later, signOk);
      }
    }
  }

  /** The double check, the signing and the store, all under the write lock. */
  function LockedSection(c: Config, cache: Cache, signed: nat, now: int, signOk: bool): (Cache, nat, Option<Token>) {
    if Fresh(c, cache, now) then (cache, signed, cache.token)
    else if !signOk then (cache, signed, None)
    else (Cache(Some(Token(signed, now)), now + c.expiration), signed + 1, Some(Token(signed, now)))
  }

  // ----- Any number of callers -----

  /** A caller samples the clock before it takes the read lock, and again once it holds the write lock. */
  datatype Caller = Sampled(at: int) | Waiting

  /** What one call handed out: the clock it judged by, and the expiry that went with the token. */
  datatype Handed = Handed(token: Token, expiresAt: int, sample: int, justSigned: bool)

  datatype State = State(cache: Cache, signings: seq<int>, clock: int, callers: map<nat, Caller>, handed: seq<Handed>)

  datatype Action = Advance(nanos: nat) | Call(caller: nat) | ReadCache(caller: nat) | Locked(caller: nat, signOk: bool)

  const Init: State := State(Cache(None, 0), [], 0, map[], [])

  function Step(c: Config, s: State, a: Action): State {
    match a
    case Advance(nanos) => s.(clock := s.clock + nanos)
    case Call(n) => if n in s.callers then s else s.(callers := s.callers[n := Sampled(s.clock)])
    case ReadCache(n) =>
      if n !in s.callers || !s.callers[n].Sampled? then s
      else if Fresh(c, s.cache, s.callers[n].at) then
        s.(callers := s.callers - {n},
           handed := s.handed + [Handed(s.cache.token.value, s.cache.expiresAt, s.callers[n].at, false)])
      else s.(callers := s.callers[n := Waiting])
    case Locked(n, signOk) =>
      if n !in s.callers || !s.callers[n].Waiting? then s
      else
        var (cache, count, token) := LockedSection(c, s.cache, |s.signings|, s.clock, signOk);
        State(cache,
              if count == |s.signings| then s.signings else s.signings + [s.clock],
              s.clock, s.callers - {n},
              if token == None then s.handed
              else s.handed + [Handed(token.value, cache.expiresAt, s.clock, count > |s.signings|)])
  }

  function Exec(c: Config, acts: seq<Action>): State {
    if acts == [] then Init else Step(c, Exec(c, acts[..|acts| - 1]), acts[|acts| - 1])
  }

  /** The cache holds the last signing, and signings keep their distance. */
  ghost predicate CacheOk(c: Config, s: State) {
    && (s.cache.token == None <==> s.signings == [])
    && (s.signings != [] ==>
          var last := s.signings[|s.signings| - 1];
          s.cache == Cache(Some(Token(|s.signings| - 1, last)), last + c.expiration) && last <= s.clock)
    && (forall i :: 0 < i < |s.signings| ==> s.signings[i] - s.signings[i - 1] >= c.expiration - c.refreshBefore)
    && (forall i :: 0 < i < |s.signings| ==> s.signings[i] >= s.signings[i - 1])
  }

  ghost predicate HandedOk(c: Config, s: State, h: Handed) {
    && h.expiresAt == h.token.issuedAt + c.expiration
    && h.token.serial < |s.signings| && s.signings[h.token.serial] == h.token.issuedAt
    && (if h.justSigned then h.expiresAt - h.sample == c.expiration else h.expiresAt - h.sample > c.refreshBefore)
  }

  ghost predicate Inv(c: Config, s: State) {
    CacheOk(c, s) && forall h :: h in s.handed ==> HandedOk(c, s, h)
  }

  lemma StepKeeps(c: Config, s: State, a: Action)
    requires ValidConfig(c) && Inv(c, s)
    ensures Inv(c, Step(c, s, a))
    ensures Step(c, s, a).cache.expiresAt >= s.cache.expiresAt || s.cache.token == None
  {
    var t := Step(c, s, a);
    forall h | h in t.handed ensures HandedOk(c, t, h) {
      if h in s.handed { assert HandedOk(c, s, h); }
    }
  }

  lemma {:induction false} RunKeeps(c: Config, acts: seq<Action>)
    requires ValidConfig(c)
    ensures Inv(c, Exec(c, acts))
  {
    if acts != [] {
      RunKeeps(c, acts[..|acts| - 1]);
      StepKeeps(c, Exec(c, acts[..|acts| - 1]), acts[|acts| - 1]);
    }
  }

  /** Any two signings of a run, i and j, are at least (j - i) times expiration - refreshBefore apart. */
  lemma SigningRate(c: Config, acts: seq<Action>, i: nat, j: nat)
    requires ValidConfig(c) && i <= j < |Exec(c, acts).signings|
    ensures var signings := Exec(c, acts).signings;
      signings[j] - signings[i] >= (j - i) * (c.expiration - c.refreshBefore)
  {
    RunKeeps(c, acts);
    Spread(Exec(c, acts).signings, c.expiration - c.refreshBefore, i, j);
  }

  lemma {:induction false} Spread(times: seq<int>, gap: int, i: nat, j: nat)
    requires i <= j < |times|
    requires forall k :: 0 < k < |times| ==> times[k] - times[k - 1] >= gap
    ensures times[j] - times[i] >= (j - i) * gap
  {
    if i < j {
      Spread(times, gap, i, j - 1);
      assert (j - i) * gap == (j - 1 - i) * gap + gap;
    }
  }

  /** Every token handed out was signed by the run; a cached one has more than the leeway left at the
      caller's own clock sample, a fresh one its whole lifetime. */
  lemma HandedLifetime(c: Config, acts: seq<Action>)
    requires ValidConfig(c)
    ensures var s := Exec(c, acts);
      forall h :: h in s.handed ==>
        && h.token.serial < |s.signings| && s.signings[h.token.serial] == h.token.issuedAt
        && (if h.justSigned then h.expiresAt - h.sample == c.expiration else h.expiresAt - h.sample > c.refreshBefore)
  {
    RunKeeps(c, acts);
    var s := Exec(c, acts);
    forall h | h in s.handed
      ensures h.token.serial < |s.signings| && s.signings[h.token.serial] == h.token.issuedAt
      ensures if h.justSigned then h.expiresAt - h.sample == c.expiration else h.expiresAt - h.sample > c.refreshBefore
    {
      assert HandedOk(c, s, h);
    }
  }

  /** Once something is cached the cached expiry never moves back, however the run goes on. */
  lemma {:induction false} ExpiryNeverMovesBack(c: Config, acts: seq<Action>, n: nat)
    requires ValidConfig(c) && n <= |acts| && Exec(c, acts[..n]).cache.token.Some?
    ensures Exec(c, acts).cache.token.Some? && Exec(c, acts).cache.expiresAt >= Exec(c, acts[..n]).cache.expiresAt
  {
    if n < |acts| {
      var front := acts[..|acts| - 1];
      assert front[..n] == acts[..n];
      ExpiryNeverMovesBack(c, front, n);
      RunKeeps(c, front);
      StepKeeps(c, Exec(c, front), acts[|acts| - 1]);
    } else {
      assert acts[..n] == acts;
    }
  }

  /** In every run a caller that gets the write lock less than expiration - refreshBefore after the last
      signing signs nothing and is handed that signing's token. */
  lemma WaitersReuse(c: Config, acts: seq<Action>, caller: nat, signOk: bool)
    requires ValidConfig(c)
    requires var s := Exec(c, acts);
      && caller in s.callers && s.callers[caller].Waiting? && s.signings != []
      && s.clock - s.signings[|s.signings| - 1] < c.expiration - c.refreshBefore
    ensures var s := Exec(c, acts);
      var t := Exec(c, acts + [Locked(caller, signOk)]);
      var last := s.signings[|s.signings| - 1];
      && t.signings == s.signings && t.cache == s.cache
      && t.handed == s.handed + [Handed(Token(|s.signings| - 1, last), last + c.expiration, s.clock, false)]
  {
    RunKeeps(c, acts);
    assert (acts + [Locked(caller, signOk)])[..|acts|] == acts;
  }

  /** In every run a caller whose clock sample is less than expiration - refreshBefore after the last signing is
      served from the cache at once. */
  lemma ReadersReuse(c: Config, acts: seq<Action>, caller: nat)
    requires ValidConfig(c)
    requires var s := Exec(c, acts);
      && caller in s.callers && s.callers[caller].Sampled? && s.signings != []
      && s.callers[caller].at - s.signings[|s.signings| - 1] < c.expiration - c.refreshBefore
    ensures var s := Exec(c, acts);
      var t := Exec(c, acts + [ReadCache(caller)]);
      var last := s.signings[|s.signings| - 1];
      && t.signings == s.signings && t.cache == s.cache && t.callers == s.callers - {caller}
      && t.handed
         == s.handed + [Handed(Token(|s.signings| - 1, last), last + c.expiration, s.callers[caller].at, false)]
  {
    RunKeeps(c, acts);
    assert (acts + [ReadCache(caller)])[..|acts|] == acts;
  }

  /** In every run a caller that holds the lock later than that signs, and is handed the new token. */
  lemma StaleIsRenewed(c: Config, acts: seq<Action>, caller: nat)
    requires ValidConfig(c)
    requires var s := Exec(c, acts);
      && caller in s.callers && s.callers[caller].Waiting?
      && (s.signings == [] || s.clock - s.signings[|s.signings| - 1] >= c.expiration - c.refreshBefore)
    ensures var s := Exec(c, acts);
      var t := Exec(c, acts + [Locked(caller, true)]);
      && t.signings == s.signings + [s.clock]
      && t.handed == s.handed + [Handed(Token(|s.signings|, s.clock), s.clock + c.expiration, s.clock, true)]
  {
    RunKeeps(c, acts);
    assert (acts + [Locked(caller, true)])[..|acts|] == acts;
  }

  // ----- The whole-second exp claim -----

  const SECOND: int := 1_000_000_000

  /** Time.Unix: whole seconds, rounded down. */
  function Unix(nanos: int): int { nanos / SECOND }

  predicate ClaimAhead(now: int, expiresAt: int) { Unix(expiresAt) * SECOND > now }

  /** A cached token's exp claim is ahead of the clock at every use exactly when the leeway is at least
      one second less a nanosecond. */
  lemma CachedClaimInFuture(c: Config)
    requires ValidConfig(c)
    ensures (forall now, expiresAt :: now + c.refreshBefore < expiresAt ==> ClaimAhead(now, expiresAt))
       <==> c.refreshBefore >= SECOND - 1
  {
    if c.refreshBefore < SECOND - 1 {
      var now := SECOND - 2 - c.refreshBefore;
      assert now + c.refreshBefore < SECOND - 1 && !ClaimAhead(now, SECOND - 1);
    }
  }

  /** A fresh token's exp claim is ahead of its signing time exactly when the lifetime is a second or more. */
  lemma FreshClaimInFuture(c: Config)
    requires ValidConfig(c)
    ensures (forall now, expiresAt :: expiresAt == now + c.expiration ==> ClaimAhead(now, expiresAt))
       <==> c.expiration >= SECOND
  {
    if c.expiration < SECOND {
      var now := SECOND - 1 - c.expiration;
      assert now + c.expiration == SECOND - 1 && !ClaimAhead(now, SECOND - 1);
    }
  }
}
