/** The recovery-mail budget. Requests of both triggers list, decide and create in separate steps,
    interleaved in any order; the mails themselves are the only record of what was sent. */
module RecoveryBudget {
  import opened Wrappers

  datatype Trigger = Self | Support

  /** The label pair the list selects on: the budget is per user and per trigger. */
  datatype Key = Key(user: string, trigger: Trigger)

  datatype Mail = Mail(key: Key, at: int)

  /** Nanoseconds; a non-positive value disables that half of the check. */
  datatype Config = Config(cooldown: int, maxPerHour: int)

  const CAP_WINDOW: int := 3_600_000_000_000

  function Of(mails: seq<Mail>, key: Key): seq<Mail> {
    if mails == [] then []
    else
      var last := mails[|mails| - 1];
      Of(mails[..|mails| - 1], key) + if last.key == key then [last] else []
  }

  /** How many of `mails` are younger than `span` at `now`. */
  function Younger(mails: seq<Mail>, now: int, span: int): nat {
    if mails == [] then 0
    else
      Younger(mails[..|mails| - 1], now, span) + if now - mails[|mails| - 1].at < span then 1 else 0
  }

  predicate TooSoonAt(c: Config, sent: seq<Mail>, now: int) {
    || (c.cooldown > 0 && exists m :: m in sent && now - m.at < c.cooldown)
    || (c.maxPerHour > 0 && Younger(sent, now, CAP_WINDOW) >= c.maxPerHour)
  }

  // ----- What the budget means, mail by mail -----

  /** The mails of the pair that are less than one hour old. */
  function Recent(mails: seq<Mail>, key: Key, now: int): set<int> {
    set i | 0 <= i < |mails| && mails[i].key == key && now - mails[i].at < 3_600_000_000_000
  }

  /** There is room for another mail: every one of the pair's is at least the cooldown old, and fewer than the
      cap are less than one hour old. A limit that is not positive is no limit. */
  predicate Room(c: Config, mails: seq<Mail>, key: Key, now: int) {
    && (c.cooldown <= 0 || forall i :: 0 <= i < |mails| && mails[i].key == key ==> now - mails[i].at >= c.cooldown)
    && (c.maxPerHour <= 0 || |Recent(mails, key, now)| < c.maxPerHour)
  }

  lemma OfAppend(mails: seq<Mail>, m: Mail, key: Key)
    ensures Of(mails + [m], key) == Of(mails, key) + if m.key == key then [m] else []
  {
    assert (mails + [m])[..|mails|] == mails;
  }

  lemma RecentMore(mails: seq<Mail>, m: Mail, key: Key, now: int)
    ensures |Recent(mails + [m], key, now)|
         == |Recent(mails, key, now)| + if m.key == key && now - m.at < CAP_WINDOW then 1 else 0
  {
    var young := m.key == key && now - m.at < CAP_WINDOW;
    assert Recent(mails + [m], key, now) == Recent(mails, key, now) + if young then {|mails|} else {};
  }

  lemma {:induction false} YoungerIsRecent(mails: seq<Mail>, key: Key, now: int)
    ensures Younger(Of(mails, key), now, CAP_WINDOW) == |Recent(mails, key, now)|
  {
    if mails == [] {
      assert Recent(mails, key, now) == {};
    } else {
      var front, last := mails[..|mails| - 1], mails[|mails| - 1];
      assert mails == front + [last];
      YoungerIsRecent(front, key, now);
      RecentMore(front, last, key, now);
      OfAppend(front, last, key);
      if last.key == key {
        YoungerMore(Of(front, key), last, now, CAP_WINDOW);
      } else {
        assert Of(mails, key) == Of(front, key);
      }
    }
  }

  lemma YoungerMore(mails: seq<Mail>, m: Mail, now: int, span: int)
    ensures Younger(mails + [m], now, span) == Younger(mails, now, span) + if now - m.at < span then 1 else 0
  {
    assert (mails + [m])[..|mails|] == mails;
  }

  lemma {:induction false} OfMembers(mails: seq<Mail>, key: Key, m: Mail)
    ensures m in Of(mails, key) <==> m in mails && m.key == key
  {
    if mails != [] {
      OfMembers(mails[..|mails| - 1], key, m);
      assert mails == mails[..|mails| - 1] + [mails[|mails| - 1]];
    }
  }

  /** The check says "too soon" exactly when there is no room: it neither lets through nor holds back more. */
  lemma TooSoonIffNoRoom(c: Config, mails: seq<Mail>, key: Key, now: int)
    ensures TooSoonAt(c, Of(mails, key), now) <==> !Room(c, mails, key, now)
  {
    YoungerIsRecent(mails, key, now);
    forall m ensures m in Of(mails, key) <==> m in mails && m.key == key { OfMembers(mails, key, m); }
    if i :| 0 <= i < |mails| && mails[i].key == key && now - mails[i].at < c.cooldown {
      assert mails[i] in Of(mails, key);
    }
    assert forall m :: m in Of(mails, key) ==> exists i :: 0 <= i < |mails| && mails[i] == m;
  }

  // ----- The handler, from the verified gate to the Email create -----

  datatype Reply =
    | Sent
    | UserNotFound
    | UserUnreadable
    | NotVerified
    | BudgetUnknown
    | TooMany
    | MintFailed
    | CreateFailed

  /** What reading the User gives. */
  datatype Lookup = Found | NotFound | Unreadable

  /** What creating the Email gives: one of that name may be there already, which is as good as a success. */
  datatype Creation = Answered(outcome: Outcome) | AlreadyExists {
    predicate TookEffect() { Answered? && outcome.TookEffect() }
    predicate ReportedOk() { AlreadyExists? || outcome.ReportedOk() }
  }

  /** What the environment answers one request, and the two moments that matter to it. */
  datatype Answers = Answers(user: Lookup, verified: bool, listOk: bool, readAt: int,
                             mintOk: bool, create: Creation, createdAt: int)

  class RecoveryService {
    const config: Config
    var mails: seq<Mail>
    var minted: nat

    constructor (config: Config)
      ensures this.config == config && mails == [] && minted == 0
    {
      this.config, mails, minted := config, [], 0;
    }

    /** Lists and scans; an unreadable list is reported, never read as "nothing sent". */
    method TooSoon(key: Key, listOk: bool, now: int) returns (tooSoon: bool, ok: bool)
      ensures ok == (listOk || (config.cooldown <= 0 && config.maxPerHour <= 0))
      ensures ok ==> (tooSoon <==> !Room(config, mails, key, now))
    {
      TooSoonIffNoRoom(config, mails, key, now);
      if config.cooldown <= 0 && config.maxPerHour <= 0 {
        return false, true;
      }
      if !listOk {
        return false, false;
      }
      var sent := Of(mails, key);
      var inWindow := 0;
      for i := 0 to |sent|
        invariant inWindow == Younger(sent[..i], now, CAP_WINDOW)
        invariant config.cooldown > 0 ==> forall m :: m in sent[..i] ==> now - m.at >= config.cooldown
      {
        assert sent[..i + 1] == sent[..i] + [sent[i]];
        assert sent[..i + 1][..i] == sent[..i];
        var age := now - sent[i].at;
        if config.cooldown > 0 && age < config.cooldown {
          return true, true;
        }
        if age < CAP_WINDOW {
          inWindow := inWindow + 1;
        }
      }
      assert sent[..|sent|] == sent;
      return config.maxPerHour > 0 && inWindow >= config.maxPerHour, true;
    }

    /** The budget question can be answered: it is off, or the list was readable. */
    predicate Answerable(a: Answers) { a.listOk || (config.cooldown <= 0 && config.maxPerHour <= 0) }

    /** Nothing is minted for an unverified or over-budget user, and nothing is mailed unminted; the first
        thing that stands in the way names the reply. */
    method Serve(key: Key, a: Answers) returns (reply: Reply)
      modifies this
      ensures var tooSoon := !Room(config, old(mails), key, a.readAt);
        var allowed := a.user.Found? && a.verified && Answerable(a) && !tooSoon;
        && minted == old(minted) + (if allowed && a.mintOk then 1 else 0)
        && mails == old(mails) + (if allowed && a.mintOk && a.create.TookEffect() then [Mail(key, a.createdAt)] else [])
        && (reply == UserNotFound <==> a.user.NotFound?)
        && (reply == UserUnreadable <==> a.user.Unreadable?)
        && (reply == NotVerified <==> a.user.Found? && !a.verified)
        && (reply == BudgetUnknown <==> a.user.Found? && a.verified && !Answerable(a))
        && (reply == TooMany <==> a.user.Found? && a.verified && Answerable(a) && tooSoon)
        && (reply == MintFailed <==> allowed && !a.mintOk)
        && (reply == CreateFailed <==> allowed && a.mintOk && !a.create.ReportedOk())
        && (reply == Sent <==> allowed && a.mintOk && a.create.ReportedOk())
    {
      match a.user
      case NotFound => return UserNotFound;
      case Unreadable => return UserUnreadable;
      case Found =>
      if !a.verified { return NotVerified; }
      var tooSoon, ok := TooSoon(key, a.listOk, a.readAt);
      if !ok { return BudgetUnknown; }
      if tooSoon { return TooMany; }
      if !a.mintOk { return MintFailed; }
      minted := minted + 1;
      if a.create.TookEffect() {
        mails := mails + [Mail(key, a.createdAt)];
      }
      return if a.create.ReportedOk() then Sent else CreateFailed;
    }
  }

  // ----- Interleaved requests -----

  datatype RequestId = RequestId(key: Key, n: nat)

  /** Listed: the list has been read. Allowed: the clock was read and the budget found room. */
  datatype Phase = Listed(seen: seq<Mail>) | Allowed(seen: seq<Mail>, readAt: int)

  type Requests = map<RequestId, Phase>

  datatype State = State(mails: seq<Mail>, clock: int, requests: Requests)

  /** GiveUp covers a failed mint; Create with `stored` false a refused or duplicate Email. */
  datatype Action = Advance(nanos: nat) | List(id: RequestId) | Decide(id: RequestId) | GiveUp(id: RequestId)
                  | Create(id: RequestId, stored: bool)

  function Decided(c: Config, requests: Requests, id: RequestId, clock: int): Requests {
    if id !in requests || !requests[id].Listed? then requests
    else if TooSoonAt(c, requests[id].seen, clock) then requests - {id}
    else requests[id := Allowed(requests[id].seen, clock)]
  }

  predicate MayCreate(requests: Requests, id: RequestId) { id in requests && requests[id].Allowed? }

  function Step(c: Config, s: State, a: Action): State {
    match a
    case Advance(nanos) => s.(clock := s.clock + nanos)
    case List(id) => if id in s.requests then s else s.(requests := s.requests[id := Listed(Of(s.mails, id.key))])
    case Decide(id) => s.(requests := Decided(c, s.requests, id, s.clock))
    case GiveUp(id) => s.(requests := s.requests - {id})
    case Create(id, stored) =>
      if !MayCreate(s.requests, id) then s
      else State(if stored then s.mails + [Mail(id.key, s.clock)] else s.mails, s.clock, s.requests - {id})
  }

  function Exec(c: Config, acts: seq<Action>): State {
    if acts == [] then State([], 0, map[]) else Step(c, Exec(c, acts[..|acts| - 1]), acts[|acts| - 1])
  }

  /** The requests for `key` between their list and their create. */
  function InFlight(requests: Requests, key: Key): set<RequestId> {
    set id | id in requests && id.key == key
  }

  ghost predicate AtMostInFlight(c: Config, acts: seq<Action>, key: Key, k: nat) {
    |InFlight(Exec(c, acts).requests, key)| <= k && (acts == [] || AtMostInFlight(c, acts[..|acts| - 1], key, k))
  }

  // ----- The sliding-window bound -----

  /** How many mails of `key` were created in the half-open window [w, w + span). */
  function CountIn(mails: seq<Mail>, key: Key, w: int, span: int): nat {
    if mails == [] then 0
    else
      var m := mails[|mails| - 1];
      CountIn(mails[..|mails| - 1], key, w, span) + if m.key == key && w <= m.at < w + span then 1 else 0
  }

  /** The half of the check that limits windows of length `span` to fewer than `limit` seen mails. */
  ghost predicate Enforces(c: Config, span: int, limit: nat) {
    || (c.maxPerHour > 0 && span == CAP_WINDOW && limit == c.maxPerHour)
    || (c.cooldown > 0 && span == c.cooldown && limit == 1)
  }

  lemma {:induction false} YoungerBound(sent: seq<Mail>, now: int, span: int)
    ensures (forall m :: m in sent ==> now - m.at >= span) ==> Younger(sent, now, span) == 0
  {
    if sent != [] { YoungerBound(sent[..|sent| - 1], now, span); }
  }

  lemma AllowedSeesFew(c: Config, sent: seq<Mail>, now: int, span: int, limit: nat)
    requires Enforces(c, span, limit) && !TooSoonAt(c, sent, now)
    ensures Younger(sent, now, span) < limit
  {
    YoungerBound(sent, now, span);
  }

  /** Mails of a window that is still open at `now` are young at `now`. */
  lemma {:induction false} WindowIsYoung(sent: seq<Mail>, key: Key, w: int, span: int, now: int)
    requires now < w + span
    ensures CountIn(sent, key, w, span) <= Younger(sent, now, span)
  {
    if sent != [] { WindowIsYoung(sent[..|sent| - 1], key, w, span, now); }
  }

  lemma {:induction false} CountOf(mails: seq<Mail>, key: Key, w: int, span: int)
    ensures CountIn(Of(mails, key), key, w, span) == CountIn(mails, key, w, span)
  {
    if mails != [] {
      var front, last := mails[..|mails| - 1], mails[|mails| - 1];
      CountOf(front, key, w, span);
      if last.key == key {
        assert Of(mails, key)[..|Of(mails, key)| - 1] == Of(front, key);
      } else {
        assert Of(mails, key) == Of(front, key);
      }
    }
  }

  /** The in-flight requests for `key` whose list showed fewer than `limit` mails of the window: the
      only ones that can still add to it. */
  ghost function Contenders(requests: Requests, key: Key, w: int, span: int, limit: nat): set<RequestId> {
    set id | id in InFlight(requests, key) && CountIn(requests[id].seen, key, w, span) < limit
  }

  ghost predicate DecisionSound(p: Phase, clock: int, span: int, limit: nat) {
    p.Allowed? ==> p.readAt <= clock && Younger(p.seen, p.readAt, span) < limit
  }

  ghost predicate DecisionsSound(requests: Requests, clock: int, span: int, limit: nat) {
    forall id :: id in requests ==> DecisionSound(requests[id], clock, span, limit)
  }

  /** A window with `n` mails and `open` contenders. */
  ghost predicate Bounded(n: nat, open: nat, limit: nat, k: nat) { n >= limit ==> n + open <= limit + k - 1 }

  ghost predicate WindowInv(s: State, key: Key, w: int, span: int, limit: nat, k: nat) {
    Bounded(CountIn(s.mails, key, w, span), |Contenders(s.requests, key, w, span, limit)|, limit, k)
  }

  lemma Smaller(a: set<RequestId>, b: set<RequestId>)
    requires a <= b
    ensures |a| <= |b|
  {
    assert b == a + (b - a);
  }

  lemma CountAppend(mails: seq<Mail>, m: Mail, key: Key, w: int, span: int)
    ensures CountIn(mails + [m], key, w, span)
         == CountIn(mails, key, w, span) + if m.key == key && w <= m.at < w + span then 1 else 0
  {
    assert (mails + [m])[..|mails|] == mails;
  }

  lemma ContendersDrop(requests: Requests, id: RequestId, key: Key, w: int, span: int, limit: nat)
    ensures Contenders(requests - {id}, key, w, span, limit) == Contenders(requests, key, w, span, limit) - {id}
  {
  }

  lemma ContendersPut(requests: Requests, id: RequestId, p: Phase, key: Key, w: int, span: int, limit: nat)
    ensures Contenders(requests[id := p], key, w, span, limit)
         == Contenders(requests, key, w, span, limit) - {id}
            + if id.key == key && CountIn(p.seen, key, w, span) < limit then {id} else {}
  {
  }

  lemma OneFewer(a: set<RequestId>, id: RequestId)
    ensures |a - {id}| == |a| - if id in a then 1 else 0
  {
    if id !in a { assert a - {id} == a; }
  }

  lemma ContendersInFlight(requests: Requests, key: Key, w: int, span: int, limit: nat)
    ensures |Contenders(requests, key, w, span, limit)| <= |InFlight(requests, key)|
  {
    Smaller(Contenders(requests, key, w, span, limit), InFlight(requests, key));
  }

  /** A request that creates inside the window saw it below the limit. */
  lemma CreatorContends(requests: Requests, id: RequestId, clock: int, w: int, span: int, limit: nat)
    requires DecisionsSound(requests, clock, span, limit) && MayCreate(requests, id) && clock < w + span
    ensures id in Contenders(requests, id.key, w, span, limit)
  {
    assert DecisionSound(requests[id], clock, span, limit);
    WindowIsYoung(requests[id].seen, id.key, w, span, requests[id].readAt);
  }

  /** A create inside the window spends a contender; the first one past the limit leaves at most k - 1. */
  lemma CreateKeeps(mails: seq<Mail>, clock: int, requests: Requests, id: RequestId,
                  w: int, span: int, limit: nat, k: nat)
    requires DecisionsSound(requests, clock, span, limit) && |InFlight(requests, id.key)| <= k
    requires WindowInv(State(mails, clock, requests), id.key, w, span, limit, k) && MayCreate(requests, id)
    ensures WindowInv(State(mails + [Mail(id.key, clock)], clock, requests - {id}), id.key, w, span, limit, k)
  {
    CountAppend(mails, Mail(id.key, clock), id.key, w, span);
    ContendersDrop(requests, id, id.key, w, span, limit);
    OneFewer(Contenders(requests, id.key, w, span, limit), id);
    ContendersInFlight(requests, id.key, w, span, limit);
    if clock < w + span { CreatorContends(requests, id, clock, w, span, limit); }
  }

  /** A request that goes, whoever's it is. */
  lemma DropKeeps(s: State, id: RequestId, key: Key, w: int, span: int, limit: nat, k: nat)
    requires WindowInv(s, key, w, span, limit, k)
    ensures WindowInv(State(s.mails, s.clock, s.requests - {id}), key, w, span, limit, k)
  {
    ContendersDrop(s.requests, id, key, w, span, limit);
    OneFewer(Contenders(s.requests, key, w, span, limit), id);
  }

  /** A request that moves to a phase in which it contends no more than before, or with a full window. */
  lemma PutKeeps(s: State, id: RequestId, p: Phase, key: Key, w: int, span: int, limit: nat, k: nat)
    requires WindowInv(s, key, w, span, limit, k)
    requires id.key == key && CountIn(p.seen, key, w, span) < limit ==>
      CountIn(s.mails, key, w, span) < limit || (id in s.requests && s.requests[id].seen == p.seen)
    ensures WindowInv(State(s.mails, s.clock, s.requests[id := p]), key, w, span, limit, k)
  {
    ContendersPut(s.requests, id, p, key, w, span, limit);
    if CountIn(s.mails, key, w, span) >= limit {
      Smaller(Contenders(s.requests[id := p], key, w, span, limit), Contenders(s.requests, key, w, span, limit));
    }
  }

  lemma MailKeeps(s: State, m: Mail, key: Key, w: int, span: int, limit: nat, k: nat)
    requires WindowInv(s, key, w, span, limit, k) && m.key != key
    ensures WindowInv(State(s.mails + [m], s.clock, s.requests), key, w, span, limit, k)
  {
    CountAppend(s.mails, m, key, w, span);
  }

  lemma DecideKeeps(c: Config, s: State, id: RequestId, key: Key, w: int, span: int, limit: nat, k: nat)
    requires WindowInv(s, key, w, span, limit, k)
    ensures WindowInv(State(s.mails, s.clock, Decided(c, s.requests, id, s.clock)), key, w, span, limit, k)
  {
    if id in s.requests && s.requests[id].Listed? {
      DropKeeps(s, id, key, w, span, limit, k);
      PutKeeps(s, id, Allowed(s.requests[id].seen, s.clock), key, w, span, limit, k);
    }
  }

  lemma ListKeeps(s: State, id: RequestId, key: Key, w: int, span: int, limit: nat, k: nat)
    requires WindowInv(s, key, w, span, limit, k)
    ensures WindowInv(State(s.mails, s.clock, s.requests[id := Listed(Of(s.mails, id.key))]), key, w, span, limit, k)
  {
    CountOf(s.mails, key, w, span);
    PutKeeps(s, id, Listed(Of(s.mails, id.key)), key, w, span, limit, k);
  }

  lemma CreatedKeeps(s: State, id: RequestId, stored: bool, key: Key, w: int, span: int, limit: nat, k: nat)
    requires DecisionsSound(s.requests, s.clock, span, limit) && |InFlight(s.requests, key)| <= k
    requires WindowInv(s, key, w, span, limit, k) && MayCreate(s.requests, id)
    ensures var mails := if stored then s.mails + [Mail(id.key, s.clock)] else s.mails;
      WindowInv(State(mails, s.clock, s.requests - {id}), key, w, span, limit, k)
  {
    if stored && id.key == key {
      CreateKeeps(s.mails, s.clock, s.requests, id, w, span, limit, k);
    } else {
      DropKeeps(s, id, key, w, span, limit, k);
      if stored {
        MailKeeps(State(s.mails, s.clock, s.requests - {id}), Mail(id.key, s.clock), key, w, span, limit, k);
      }
    }
  }

  lemma WindowKeeps(c: Config, s: State, a: Action, key: Key, w: int, span: int, limit: nat, k: nat)
    requires DecisionsSound(s.requests, s.clock, span, limit) && |InFlight(s.requests, key)| <= k
    requires WindowInv(s, key, w, span, limit, k)
    ensures WindowInv(Step(c, s, a), key, w, span, limit, k)
  {
    match a
    case Advance(_) =>
    case List(id) => if id !in s.requests { ListKeeps(s, id, key, w, span, limit, k); }
    case Decide(id) => DecideKeeps(c, s, id, key, w, span, limit, k);
    case GiveUp(id) => DropKeeps(s, id, key, w, span, limit, k);
    case Create(id, stored) => if MayCreate(s.requests, id) { CreatedKeeps(s, id, stored, key, w, span, limit, k); }
  }

  lemma DecidedSound(c: Config, requests: Requests, id: RequestId, clock: int, span: int, limit: nat)
    requires Enforces(c, span, limit) && DecisionsSound(requests, clock, span, limit)
    ensures DecisionsSound(Decided(c, requests, id, clock), clock, span, limit)
  {
    if id in requests && requests[id].Listed? && !TooSoonAt(c, requests[id].seen, clock) {
      AllowedSeesFew(c, requests[id].seen, clock, span, limit);
    }
  }

  lemma DecisionsKeep(c: Config, s: State, a: Action, span: int, limit: nat)
    requires Enforces(c, span, limit) && DecisionsSound(s.requests, s.clock, span, limit)
    ensures DecisionsSound(Step(c, s, a).requests, Step(c, s, a).clock, span, limit)
  {
    if a.Decide? { DecidedSound(c, s.requests, a.id, s.clock, span, limit); }
  }

  lemma {:induction false} RunKeeps(c: Config, acts: seq<Action>, key: Key, w: int, span: int, limit: nat, k: nat)
    requires Enforces(c, span, limit) && AtMostInFlight(c, acts, key, k)
    ensures DecisionsSound(Exec(c, acts).requests, Exec(c, acts).clock, span, limit)
    ensures WindowInv(Exec(c, acts), key, w, span, limit, k)
  {
    if acts != [] {
      var front := acts[..|acts| - 1];
      RunKeeps(c, front, key, w, span, limit, k);
      WindowKeeps(c, Exec(c, front), acts[|acts| - 1], key, w, span, limit, k);
      DecisionsKeep(c, Exec(c, front), acts[|acts| - 1], span, limit);
    }
  }

  lemma WindowBound(c: Config, acts: seq<Action>, key: Key, w: int, span: int, limit: nat, k: nat)
    requires Enforces(c, span, limit) && AtMostInFlight(c, acts, key, k) && k > 0
    ensures CountIn(Exec(c, acts).mails, key, w, span) <= limit + k - 1
  {
    RunKeeps(c, acts, key, w, span, limit, k);
  }

  /** With at most k requests of a pair in flight at once, every one-hour window holds at most
      maxPerHour + k - 1 of its mails, and every cooldown window at most k. */
  lemma HourlyCap(c: Config, acts: seq<Action>, key: Key, k: nat)
    requires AtMostInFlight(c, acts, key, k) && k > 0
    ensures c.maxPerHour > 0 ==> forall w :: CountIn(Exec(c, acts).mails, key, w, CAP_WINDOW) <= c.maxPerHour + k - 1
    ensures c.cooldown > 0 ==> forall w :: CountIn(Exec(c, acts).mails, key, w, c.cooldown) <= k
  {
    forall w ensures c.maxPerHour > 0 ==> CountIn(Exec(c, acts).mails, key, w, CAP_WINDOW) <= c.maxPerHour + k - 1 {
      if c.maxPerHour > 0 { WindowBound(c, acts, key, w, CAP_WINDOW, c.maxPerHour, k); }
    }
    forall w ensures c.cooldown > 0 ==> CountIn(Exec(c, acts).mails, key, w, c.cooldown) <= k {
      if c.cooldown > 0 { WindowBound(c, acts, key, w, c.cooldown, 1, k); }
    }
  }

  lemma {:induction false} CountAtLeast(mails: seq<Mail>, key: Key, w: int, span: int, i: nat, j: nat)
    requires i < j < |mails| && mails[i].key == mails[j].key == key
    requires w <= mails[i].at < w + span && w <= mails[j].at < w + span
    ensures CountIn(mails, key, w, span) >= 2
  {
    if j < |mails| - 1 {
      CountAtLeast(mails[..|mails| - 1], key, w, span, i, j);
    } else {
      CountOne(mails[..j], key, w, span, i);
    }
  }

  lemma {:induction false} CountOne(mails: seq<Mail>, key: Key, w: int, span: int, i: nat)
    requires i < |mails| && mails[i].key == key && w <= mails[i].at < w + span
    ensures CountIn(mails, key, w, span) >= 1
  {
    if i < |mails| - 1 { CountOne(mails[..|mails| - 1], key, w, span, i); }
  }

  /** One request of a pair at a time: any two of its mails are at least the cooldown apart. */
  lemma SequentialSpacing(c: Config, acts: seq<Action>, key: Key, i: nat, j: nat)
    requires c.cooldown > 0 && AtMostInFlight(c, acts, key, 1)
    requires var mails := Exec(c, acts).mails; i < j < |mails| && mails[i].key == mails[j].key == key
    ensures Exec(c, acts).mails[j].at - Exec(c, acts).mails[i].at >= c.cooldown
  {
    var mails := Exec(c, acts).mails;
    MailsInOrder(c, acts);
    WindowBound(c, acts, key, mails[i].at, c.cooldown, 1, 1);
    if mails[j].at < mails[i].at + c.cooldown {
      CountAtLeast(mails, key, mails[i].at, c.cooldown, i, j);
    }
  }

  ghost predicate InOrder(s: State) {
    && (forall i, j :: 0 <= i < j < |s.mails| ==> s.mails[i].at <= s.mails[j].at)
    && (forall i :: 0 <= i < |s.mails| ==> s.mails[i].at <= s.clock)
  }

  lemma {:induction false} MailsInOrder(c: Config, acts: seq<Action>)
    ensures InOrder(Exec(c, acts))
  {
    if acts != [] {
      var s, a := Exec(c, acts[..|acts| - 1]), acts[|acts| - 1];
      MailsInOrder(c, acts[..|acts| - 1]);
      assert InOrder(s);
      assert Exec(c, acts) == Step(c, s, a);
      assert Step(c, s, a).mails == s.mails
          || (a.Create? && Step(c, s, a).mails == s.mails + [Mail(a.id.key, s.clock)]);
    }
  }

  // ----- The bound is reached -----

  function Copies(key: Key, n: nat): seq<Mail> {
    if n == 0 then [] else Copies(key, n - 1) + [Mail(key, 0)]
  }

  lemma {:induction false} CopiesCount(key: Key, n: nat)
    ensures CountIn(Copies(key, n), key, 0, CAP_WINDOW) == n
    ensures Younger(Copies(key, n), 0, CAP_WINDOW) == n
    ensures Of(Copies(key, n), key) == Copies(key, n)
  {
    if n > 0 {
      var front, m := Copies(key, n - 1), Mail(key, 0);
      CopiesCount(key, n - 1);
      CountAppend(front, m, key, 0, CAP_WINDOW);
      YoungerMore(front, m, 0, CAP_WINDOW);
      OfAppend(front, m, key);
    }
  }

  ghost function FirstIds(key: Key, k: nat): set<RequestId> {
    set i: nat | i < k :: RequestId(key, i)
  }

  lemma {:induction false} FirstIdsSize(key: Key, k: nat)
    ensures |FirstIds(key, k)| == k
  {
    if k > 0 {
      FirstIdsSize(key, k - 1);
      assert FirstIds(key, k) == FirstIds(key, k - 1) + {RequestId(key, k - 1)};
    } else {
      assert FirstIds(key, k) == {};
    }
  }

  lemma FlightSize(s: State, key: Key, k: nat)
    requires s.requests.Keys <= FirstIds(key, k)
    ensures |InFlight(s.requests, key)| <= k
  {
    FirstIdsSize(key, k);
    Smaller(InFlight(s.requests, key), FirstIds(key, k));
  }

  lemma Extend(c: Config, acts: seq<Action>, a: Action, key: Key, k: nat) returns (acts': seq<Action>)
    requires AtMostInFlight(c, acts, key, k) && Step(c, Exec(c, acts), a).requests.Keys <= FirstIds(key, k)
    ensures Exec(c, acts') == Step(c, Exec(c, acts), a) && AtMostInFlight(c, acts', key, k)
  {
    FlightSize(Step(c, Exec(c, acts), a), key, k);
    acts' := acts + [a];
    assert acts'[..|acts|] == acts;
  }

  /** `ids` from lo to hi have seen n mails and may create. */
  ghost function Waiting(key: Key, n: nat, lo: nat, hi: nat): map<RequestId, Phase> {
    map id: RequestId | id in FirstIds(key, hi) && id.n >= lo :: Allowed(Copies(key, n), 0)
  }

  lemma RoomLeft(c: Config, key: Key, n: nat)
    requires c.cooldown <= 0 && n < c.maxPerHour
    ensures Of(Copies(key, n), key) == Copies(key, n) && !TooSoonAt(c, Copies(key, n), 0)
  {
    CopiesCount(key, n);
  }

  lemma WaitingGrows(key: Key, n: nat, j: nat, k: nat)
    requires j < k
    ensures var id, before := RequestId(key, j), Waiting(key, n, 0, j);
      && id !in before && before.Keys + {id} <= FirstIds(key, k)
      && before[id := Allowed(Copies(key, n), 0)] == Waiting(key, n, 0, j + 1)
  {
    assert FirstIds(key, j + 1) == FirstIds(key, j) + {RequestId(key, j)};
    assert Waiting(key, n, 0, j)[RequestId(key, j) := Allowed(Copies(key, n), 0)] == Waiting(key, n, 0, j + 1);
  }

  /** With n mails on record, one more request lists and is allowed while n is below the cap. */
  lemma OneMoreWaits(c: Config, acts: seq<Action>, key: Key, n: nat, j: nat, k: nat) returns (acts': seq<Action>)
    requires c.cooldown <= 0 && n < c.maxPerHour && j < k && AtMostInFlight(c, acts, key, k)
    requires Exec(c, acts) == State(Copies(key, n), 0, Waiting(key, n, 0, j))
    ensures AtMostInFlight(c, acts', key, k) && Exec(c, acts') == State(Copies(key, n), 0, Waiting(key, n, 0, j + 1))
  {
    var id, sent, before := RequestId(key, j), Copies(key, n), Waiting(key, n, 0, j);
    RoomLeft(c, key, n);
    WaitingGrows(key, n, j, k);
    var listed := before[id := Listed(sent)];
    assert Step(c, State(sent, 0, before), List(id)) == State(sent, 0, listed);
    acts' := Extend(c, acts, List(id), key, k);
    assert listed[id := Allowed(sent, 0)] == before[id := Allowed(sent, 0)];
    assert Step(c, State(sent, 0, listed), Decide(id)) == State(sent, 0, listed[id := Allowed(sent, 0)]);
    acts' := Extend(c, acts', Decide(id), key, k);
  }

  lemma OneCreates(c: Config, acts: seq<Action>, key: Key, n: nat, lo: nat, hi: nat, k: nat)
    returns (acts': seq<Action>)
    requires lo < hi <= k && AtMostInFlight(c, acts, key, k)
    requires Exec(c, acts) == State(Copies(key, n + lo), 0, Waiting(key, n, lo, hi))
    ensures AtMostInFlight(c, acts', key, k)
         && Exec(c, acts') == State(Copies(key, n + lo + 1), 0, Waiting(key, n, lo + 1, hi))
  {
    var id := RequestId(key, lo);
    assert id in Waiting(key, n, lo, hi);
    acts' := Extend(c, acts, Create(id, true), key, k);
    assert Exec(c, acts').requests == Waiting(key, n, lo + 1, hi);
  }

  /** n requests one after the other leave n mails while n is below the cap. */
  lemma {:induction false} OneAfterTheOther(c: Config, key: Key, n: nat, k: nat) returns (acts: seq<Action>)
    requires c.cooldown <= 0 && n < c.maxPerHour && k > 0
    ensures AtMostInFlight(c, acts, key, k) && Exec(c, acts) == State(Copies(key, n), 0, Waiting(key, n, 0, 0))
  {
    if n == 0 {
      acts := [];
      FlightSize(Exec(c, acts), key, k);
      assert Waiting(key, 0, 0, 0) == map[];
    } else {
      acts := OneAfterTheOther(c, key, n - 1, k);
      acts := OneMoreWaits(c, acts, key, n - 1, 0, k);
      acts := OneCreates(c, acts, key, n - 1, 0, 1, k);
      assert Waiting(key, n - 1, 1, 1) == map[] == Waiting(key, n, 0, 0);
    }
  }

  lemma {:induction false} AllWait(c: Config, key: Key, n: nat, j: nat, k: nat) returns (acts: seq<Action>)
    requires c.cooldown <= 0 && n < c.maxPerHour && j <= k && k > 0
    ensures AtMostInFlight(c, acts, key, k) && Exec(c, acts) == State(Copies(key, n), 0, Waiting(key, n, 0, j))
  {
    if j == 0 {
      acts := OneAfterTheOther(c, key, n, k);
    } else {
      acts := AllWait(c, key, n, j - 1, k);
      acts := OneMoreWaits(c, acts, key, n, j - 1, k);
    }
  }

  lemma {:induction false} AllCreate(c: Config, key: Key, n: nat, j: nat, k: nat) returns (acts: seq<Action>)
    requires c.cooldown <= 0 && n < c.maxPerHour && j <= k && k > 0
    ensures AtMostInFlight(c, acts, key, k) && Exec(c, acts) == State(Copies(key, n + j), 0, Waiting(key, n, j, k))
  {
    if j == 0 {
      acts := AllWait(c, key, n, k, k);
    } else {
      acts := AllCreate(c, key, n, j - 1, k);
      acts := OneCreates(c, acts, key, n, j - 1, k, k);
    }
  }

  /** The k - 1 of HourlyCap cannot be dropped: for every cap and every k some run reaches the bound. */
  lemma HourlyCapIsReached(max: nat, k: nat, key: Key)
    requires max > 0 && k > 0
    ensures var c := Config(0, max);
      exists acts :: AtMostInFlight(c, acts, key, k) && CountIn(Exec(c, acts).mails, key, 0, CAP_WINDOW) == max + k - 1
  {
    var acts := AllCreate(Config(0, max), key, max - 1, k, k);
    CopiesCount(key, max - 1 + k);
  }

  // ----- A request with room is let through -----

  /** In every run a listed request is allowed exactly when the mails it saw leave room by then; if not, it is
      gone. */
  lemma DecideIff(c: Config, acts: seq<Action>, id: RequestId)
    requires id in Exec(c, acts).requests && Exec(c, acts).requests[id].Listed?
    ensures var s := Exec(c, acts);
      var t := Exec(c, acts + [Decide(id)]);
      && (id in t.requests <==> Room(c, s.requests[id].seen, id.key, s.clock))
      && (id in t.requests ==> t.requests[id] == Allowed(s.requests[id].seen, s.clock))
  {
    var s := Exec(c, acts);
    OneMore(c, acts, Decide(id));
    SeenIsOwn(c, acts, id);
    TooSoonIffNoRoom(c, s.requests[id].seen, id.key, s.clock);
  }

  ghost predicate OwnSeen(requests: Requests) {
    forall id :: id in requests ==> Of(requests[id].seen, id.key) == requests[id].seen
  }

  lemma {:induction false} AllSeenIsOwn(c: Config, acts: seq<Action>)
    ensures OwnSeen(Exec(c, acts).requests)
  {
    if acts != [] {
      var s, a := Exec(c, acts[..|acts| - 1]), acts[|acts| - 1];
      AllSeenIsOwn(c, acts[..|acts| - 1]);
      if a.List? { OfTwice(s.mails, a.id.key); }
    }
  }

  lemma SeenIsOwn(c: Config, acts: seq<Action>, id: RequestId)
    requires id in Exec(c, acts).requests
    ensures Of(Exec(c, acts).requests[id].seen, id.key) == Exec(c, acts).requests[id].seen
  {
    AllSeenIsOwn(c, acts);
  }

  function Request(id: RequestId): seq<Action> { [List(id), Decide(id), Create(id, true)] }

  lemma OneMore(c: Config, acts: seq<Action>, a: Action)
    ensures Exec(c, acts + [a]) == Step(c, Exec(c, acts), a)
  {
    assert (acts + [a])[..|acts|] == acts;
  }

  lemma RequestSteps(c: Config, acts: seq<Action>, id: RequestId)
    ensures var decided := Step(c, Step(c, Exec(c, acts), List(id)), Decide(id));
      Exec(c, acts + Request(id)) == Step(c, decided, Create(id, true))
  {
    OneMore(c, acts, List(id));
    OneMore(c, acts + [List(id)], Decide(id));
    OneMore(c, acts + [List(id)] + [Decide(id)], Create(id, true));
    assert acts + [List(id)] + [Decide(id)] + [Create(id, true)] == acts + Request(id);
  }

  lemma RequestFrom(c: Config, s: State, id: RequestId)
    requires id !in s.requests
    ensures Step(c, Step(c, Step(c, s, List(id)), Decide(id)), Create(id, true))
         == if Room(c, s.mails, id.key, s.clock) then State(s.mails + [Mail(id.key, s.clock)], s.clock, s.requests)
            else s
  {
    var sent := Of(s.mails, id.key);
    TooSoonIffNoRoom(c, s.mails, id.key, s.clock);
    var listed := s.requests[id := Listed(sent)];
    assert Step(c, s, List(id)) == State(s.mails, s.clock, listed);
    assert listed - {id} == s.requests;
    assert listed[id := Allowed(sent, s.clock)] - {id} == s.requests;
  }

  /** After every run, a new request that nothing interleaves with mails exactly when there is room, and
      leaves everything else as it was. */
  lemma UndisturbedRequest(c: Config, acts: seq<Action>, id: RequestId)
    requires id !in Exec(c, acts).requests
    ensures var s := Exec(c, acts);
      Exec(c, acts + Request(id))
      == if Room(c, s.mails, id.key, s.clock) then State(s.mails + [Mail(id.key, s.clock)], s.clock, s.requests) else s
  {
    RequestSteps(c, acts, id);
    RequestFrom(c, Exec(c, acts), id);
  }

  lemma Waited(c: Config, acts: seq<Action>, nanos: nat)
    ensures var s := Exec(c, acts);
      Exec(c, acts + [Advance(nanos)]) == State(s.mails, s.clock + nanos, s.requests)
  {
    OneMore(c, acts, Advance(nanos));
  }

  /** SequentialSpacing is tight: for every cooldown, two requests one after the other get two mails exactly the
      cooldown apart, unless the cap forbids a second mail at all. */
  lemma CooldownIsReached(c: Config, key: Key)
    requires c.cooldown > 0 && (c.maxPerHour != 1 || c.cooldown >= CAP_WINDOW)
    ensures exists acts :: Exec(c, acts) == State([Mail(key, 0), Mail(key, c.cooldown)], c.cooldown, map[])
  {
    var id := RequestId(key, 0);
    var first := [] + Request(id);
    assert Recent([], key, 0) == {};
    UndisturbedRequest(c, [], id);
    assert Exec(c, first) == State([Mail(key, 0)], 0, map[]);
    Waited(c, first, c.cooldown);
    var waited := first + [Advance(c.cooldown)];
    assert Exec(c, waited) == State([Mail(key, 0)], c.cooldown, map[]);
    assert Recent([Mail(key, 0)], key, c.cooldown) == if c.cooldown < CAP_WINDOW then {0} else {};
    UndisturbedRequest(c, waited, id);
    assert [Mail(key, 0)] + [Mail(key, c.cooldown)] == [Mail(key, 0), Mail(key, c.cooldown)];
  }

  // ----- Other users and the other trigger change nothing -----

  predicate Concerns(a: Action, key: Key) {
    a.Advance? || a.id.key == key
  }

  /** The run as it would have been without anybody else's requests. */
  function Purge(acts: seq<Action>, key: Key): seq<Action> {
    if acts == [] then []
    else
      var last := acts[|acts| - 1];
      Purge(acts[..|acts| - 1], key) + if Concerns(last, key) then [last] else []
  }

  /** The requests of one pair. */
  function Mine(requests: Requests, key: Key): Requests { map id | id in requests && id.key == key :: requests[id] }

  /** The part of a state that is the pair's own. */
  function View(s: State, key: Key): State { State(Of(s.mails, key), s.clock, Mine(s.requests, key)) }

  lemma {:induction false} OfTwice(mails: seq<Mail>, key: Key)
    ensures Of(Of(mails, key), key) == Of(mails, key)
  {
    if mails != [] {
      var front, last := mails[..|mails| - 1], mails[|mails| - 1];
      OfTwice(front, key);
      if last.key == key { OfAppend(Of(front, key), last, key); } else { assert Of(mails, key) == Of(front, key); }
    }
  }

  lemma MinePut(requests: Requests, id: RequestId, p: Phase, key: Key)
    ensures Mine(requests[id := p], key) == if id.key == key then Mine(requests, key)[id := p] else Mine(requests, key)
  {
  }

  lemma MineDrop(requests: Requests, id: RequestId, key: Key)
    ensures Mine(requests - {id}, key) == Mine(requests, key) - {id}
  {
  }

  lemma MineDecided(c: Config, requests: Requests, id: RequestId, clock: int, key: Key)
    ensures Mine(Decided(c, requests, id, clock), key)
         == if id.key == key then Decided(c, Mine(requests, key), id, clock) else Mine(requests, key)
  {
    if id in requests && requests[id].Listed? {
      MineDrop(requests, id, key);
      MinePut(requests, id, Allowed(requests[id].seen, clock), key);
      if id.key != key { assert Mine(requests, key) - {id} == Mine(requests, key); }
    }
  }

  /** One action, seen from the pair: its own do what they would do alone, the others' nothing. */
  lemma StepViewed(c: Config, s: State, a: Action, key: Key)
    ensures View(Step(c, s, a), key) == if Concerns(a, key) then Step(c, View(s, key), a) else View(s, key)
  {
    match a
    case Advance(_) =>
    case List(id) =>
      OfTwice(s.mails, key);
      MinePut(s.requests, id, Listed(Of(s.mails, id.key)), key);
    case Decide(id) => MineDecided(c, s.requests, id, s.clock, key);
    case GiveUp(id) =>
      MineDrop(s.requests, id, key);
      if id.key != key { assert Mine(s.requests, key) - {id} == Mine(s.requests, key); }
    case Create(id, stored) =>
      MineDrop(s.requests, id, key);
      OfAppend(s.mails, Mail(id.key, s.clock), key);
      if id.key != key { assert Mine(s.requests, key) - {id} == Mine(s.requests, key); }
  }

  lemma PurgeStep(c: Config, acts: seq<Action>, a: Action, key: Key)
    ensures var alone := Exec(c, Purge(acts, key));
      Exec(c, Purge(acts + [a], key)) == if Concerns(a, key) then Step(c, alone, a) else alone
  {
    assert (acts + [a])[..|acts|] == acts;
    assert (Purge(acts, key) + [a])[..|Purge(acts, key)|] == Purge(acts, key);
    assert Purge(acts, key) + [] == Purge(acts, key);
  }

  /** The mails, the clock and the requests of a pair are, at every moment, what they would be if nobody
      else had asked: in mails, in times and in decisions. */
  lemma {:induction false} OthersNeverInterfere(c: Config, acts: seq<Action>, key: Key)
    ensures View(Exec(c, acts), key) == Exec(c, Purge(acts, key))
  {
    if acts != [] {
      var front, last := acts[..|acts| - 1], acts[|acts| - 1];
      OthersNeverInterfere(c, front, key);
      StepViewed(c, Exec(c, front), last, key);
      PurgeStep(c, front, last, key);
      assert acts == front + [last];
    }
  }
}
