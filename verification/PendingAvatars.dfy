/** The hand-off of an avatar from the identity-provider intent, which comes before the milo User exists,
    to the request that later finds the User: a map with expiring entries, emptied by an atomic take. */
module PendingAvatars {
  import opened Wrappers
  import opened Text
  import opened StatusFields

  /** 15 minutes, in nanoseconds. */
  const TTL: int := 15 * 60 * 1_000_000_000

  /** `serial` numbers the intents, so that equal URLs can be told apart. */
  datatype Avatar = Avatar(serial: nat, url: string, provider: string)

  datatype Pending = Pending(avatar: Avatar, expiresAt: int)

  function NormalizeEmail(email: string): string { ToLower(TrimSpace(email)) }

  /** The map after storing under a normalized address. */
  function Stored(pending: map<string, Pending>, key: string, avatar: Avatar, now: int): map<string, Pending> {
    if key == "" || avatar.url == "" then pending else pending[key := Pending(avatar, now + TTL)]
  }

  /** (the map without the entry, the entry unless it is missing or expired). */
  function Consumed(pending: map<string, Pending>, key: string, now: int): (map<string, Pending>, Option<Pending>) {
    if key == "" || key !in pending then (pending, None)
    else (pending - {key}, if now > pending[key].expiresAt then None else Some(pending[key]))
  }

  /** Two spellings of an address share one entry however often they are normalized. */
  lemma NormalizeTwice(email: string)
    ensures NormalizeEmail(NormalizeEmail(email)) == NormalizeEmail(email)
  {
    var trimmed := TrimSpace(email);
    var lower := ToLower(trimmed);
    TrimSpaceTrims(email);
    assert lower != "" ==> lower[0] == LowerChar(trimmed[0]) && lower[|lower| - 1] == LowerChar(trimmed[|trimmed| - 1]);
    TrimSpaceOfTrimmed(lower);
    ToLowerTwice(trimmed);
  }

  /** Two spellings share an entry exactly when they agree up to case, blanks at the ends aside. */
  lemma SpellingsShare(b1: string, email1: string, b2: string, b3: string, email2: string, b4: string)
    requires Blank(b1) && Blank(b2) && Blank(b3) && Blank(b4) && Trimmed(email1) && Trimmed(email2)
    ensures NormalizeEmail(b1 + email1 + b2) == NormalizeEmail(b3 + email2 + b4) <==> UpToCase(email1, email2)
  {
    TrimSpaceIs(b1, email1, b2);
    TrimSpaceIs(b3, email2, b4);
    ToLowerIff(email1, email2);
  }

  // ----- The handlers -----

  /** What a Get of the User answers. */
  datatype Lookup = Found(status: Fields) | Missing | Unreadable

  function WaitFor(attempts: nat): nat { if attempts == 0 then 0 else 2 * WaitFor(attempts - 1) + 1 }

  function Shifted(attempt: nat): nat { if attempt == 0 then 1 else 2 * Shifted(attempt - 1) }

  lemma {:induction false} WaitIsShift(attempt: nat)
    ensures WaitFor(attempt + 1) == WaitFor(attempt) + Shifted(attempt)
  {
    if attempt > 0 { WaitIsShift(attempt - 1); }
  }

  class AvatarServer {
    var pendingAvatars: map<string, Pending>
    var users: map<string, Fields>

    constructor (users: map<string, Fields>)
      ensures this.users == users && pendingAvatars == map[]
    {
      this.users, pendingAvatars := users, map[];
    }

    method StorePendingAvatar(email: string, avatar: Avatar, now: int)
      modifies this`pendingAvatars
      ensures pendingAvatars == Stored(old(pendingAvatars), NormalizeEmail(email), avatar, now)
    {
      var key := NormalizeEmail(email);
      if key == "" || avatar.url == "" { return; }
      pendingAvatars := pendingAvatars[key := Pending(avatar, now + TTL)];
    }

    method ConsumePendingAvatar(email: string, now: int) returns (taken: Option<Pending>)
      modifies this`pendingAvatars
      ensures (pendingAvatars, taken) == Consumed(old(pendingAvatars), NormalizeEmail(email), now)
    {
      var key := NormalizeEmail(email);
      if key == "" || key !in pendingAvatars { return None; }
      var value := pendingAvatars[key];
      pendingAvatars := pendingAvatars - {key};
      if now > value.expiresAt { return None; }
      return Some(value);
    }

    method PatchUserAvatar(user: string, avatar: Avatar, patch: Outcome) returns (ok: bool)
      modifies this`users
      ensures ok <==> user in users && patch.ReportedOk()
      ensures users == AfterPatch(old(users), user, avatar, patch)
    {
      if user !in users { return false; }
      var copy := users[user];
      PatchOnCopy(copy, WithAvatar(copy, avatar.url, avatar.provider));
      if patch.TookEffect() { users := users[user := AvatarPatched(users[user], copy, avatar.url, avatar.provider)]; }
      return patch.ReportedOk();
    }

    /** Without interference: applied means the User shows the pending avatar, the entry is gone and
        nothing else has changed; a failed patch leaves the same avatar pending again, with a new expiry. */
    method ApplyPendingAvatarByEmail(user: string, email: string, now: int, later: int, patch: Outcome)
      returns (applied: bool)
      modifies this
      ensures var taken := Consumed(old(pendingAvatars), NormalizeEmail(email), now);
        && (applied <==> taken.1.Some? && user in users && patch.ReportedOk())
        && pendingAvatars == (if taken.1.None? || applied then taken.0
                              else Stored(taken.0, NormalizeEmail(email), taken.1.value.avatar, later))
        && users == (if taken.1.None? then old(users) else AfterPatch(old(users), user, taken.1.value.avatar, patch))
    {
      var taken := ConsumePendingAvatar(email, now);
      if taken.None? { return false; }
      var ok := PatchUserAvatar(user, taken.value.avatar, patch);
      if !ok {
        StorePendingAvatar(email, taken.value.avatar, later);
        return false;
      }
      return true;
    }
  }

  /** The Users after a patch of a fresh copy. */
  function AfterPatch(users: map<string, Fields>, user: string, avatar: Avatar, patch: Outcome): map<string, Fields> {
    if user !in users || !patch.TookEffect() then users
    else users[user := WithAvatar(users[user], avatar.url, avatar.provider)]
  }

  /** getUserWithRetry: `answers` are what the store would answer, read by read. Only a missing User is
      asked for again; the answer is the first other one, or "missing" after the last attempt, and the
      waits before attempt n add up to (2^n - 1) times the base. */
  method GetUserWithRetry(answers: seq<Lookup>, configured: int, configuredWait: int)
    returns (answer: Lookup, tries: nat, waited: nat)
    requires |answers| >= configured && |answers| >= 1
    ensures 1 <= tries <= if configured < 1 then 1 else configured
    ensures answer == answers[tries - 1]
    ensures forall i :: 0 <= i < tries - 1 ==> answers[i].Missing?
    ensures answer.Missing? ==> tries == if configured < 1 then 1 else configured
    ensures waited == (if configuredWait < 0 then 0 else configuredWait) * WaitFor(tries - 1)
  {
    var attempts := if configured < 1 then 1 else configured;
    var baseWait := if configuredWait < 0 then 0 else configuredWait;
    waited := 0;
    var attempt := 0;
    while true
      invariant 0 <= attempt < attempts
      invariant forall i :: 0 <= i < attempt ==> answers[i].Missing?
      invariant waited == baseWait * WaitFor(attempt)
      decreases attempts - attempt
    {
      answer := answers[attempt];
      if !answer.Missing? || attempt == attempts - 1 { return answer, attempt + 1, waited; }
      WaitIsShift(attempt);
      waited := waited + baseWait * Shifted(attempt);
      attempt := attempt + 1;
    }
  }

  // ----- Interleavings -----

  datatype Stage = Took | Saw(copy: Fields) | Failed

  /** One request's applyPendingAvatarByEmail between its take and its end. */
  datatype Flight = Flight(key: string, user: string, avatar: Avatar, takenAt: int, expiry: int, stage: Stage)

  /** History: where each stored avatar is. */
  datatype Fate = IsPending(key: string) | InFlight(caller: nat) | Delivered | Expired | Overwritten

  /** History: one effective patch. */
  datatype Landing = Landing(serial: nat, takenAt: int, expiry: int, at: int)

  datatype World = World(
    now: int, users: map<string, Fields>, pending: map<string, Pending>, flights: map<nat, Flight>,
    issued: nat, fates: map<nat, Fate>, storedAt: map<nat, int>, landed: seq<Landing>)

  datatype Action =
    | Tick(d: nat)
    | SetStatus(user: string, status: Fields)
    | RemoveUser(user: string)
    | Intent(key: string, url: string, provider: string)
    | Take(caller: nat, key: string, user: string)
    | Read(caller: nat, ok: bool)
    | Patch(caller: nat, outcome: Outcome)
    | PutBack(caller: nat)

  function Put(w: World, key: string, avatar: Avatar): World {
    if key == "" || avatar.url == "" then w
    else
      var displaced := if key in w.pending then w.fates[w.pending[key].avatar.serial := Overwritten] else w.fates;
      w.(pending := Stored(w.pending, key, avatar, w.now),
         fates := displaced[avatar.serial := IsPending(key)], storedAt := w.storedAt[avatar.serial := w.now])
  }

  function Intend(w: World, key: string, url: string, provider: string): World {
    if key == "" || url == "" then w
    else Put(w, key, Avatar(w.issued, url, provider)).(issued := w.issued + 1)
  }

  function TakeFor(w: World, caller: nat, key: string, user: string): World {
    if caller in w.flights || key == "" || key !in w.pending then w
    else
      var (rest, taken) := Consumed(w.pending, key, w.now);
      var serial := w.pending[key].avatar.serial;
      if taken.None? then w.(pending := rest, fates := w.fates[serial := Expired])
      else w.(pending := rest, fates := w.fates[serial := InFlight(caller)],
              flights := w.flights[caller := Flight(key, user, taken.value.avatar, w.now, taken.value.expiresAt, Took)])
  }

  function ReadFor(w: World, caller: nat, ok: bool): World {
    if caller !in w.flights || !w.flights[caller].stage.Took? then w
    else
      var f := w.flights[caller];
      w.(flights := w.flights[caller := f.(stage := if ok && f.user in w.users then Saw(w.users[f.user]) else Failed)])
  }

  function Land(w: World, f: Flight): World
    requires f.stage.Saw? && f.user in w.users
  {
    w.(users := w.users[f.user := AvatarPatched(w.users[f.user], f.stage.copy, f.avatar.url, f.avatar.provider)],
       landed := w.landed + [Landing(f.avatar.serial, f.takenAt, f.expiry, w.now)])
  }

  function PatchFor(w: World, caller: nat, outcome: Outcome): World {
    if caller !in w.flights || !w.flights[caller].stage.Saw? then w
    else
      var f := w.flights[caller];
      var found := f.user in w.users;
      var w' := if found && outcome.TookEffect() then Land(w, f) else w;
      if found && outcome.ReportedOk() then
        w'.(flights := w.flights - {caller}, fates := w.fates[f.avatar.serial := Delivered])
      else w'.(flights := w.flights[caller := f.(stage := Failed)])
  }

  function PutBackFor(w: World, caller: nat): World {
    if caller !in w.flights || !w.flights[caller].stage.Failed? then w
    else Put(w, w.flights[caller].key, w.flights[caller].avatar).(flights := w.flights - {caller})
  }

  function Step(w: World, a: Action): World {
    match a
    case Tick(d) => w.(now := w.now + d)
    case SetStatus(user, status) => w.(users := w.users[user := status])
    case RemoveUser(user) => w.(users := w.users - {user})
    case Intent(key, url, provider) => Intend(w, key, url, provider)
    case Take(caller, key, user) => TakeFor(w, caller, key, user)
    case Read(caller, ok) => ReadFor(w, caller, ok)
    case Patch(caller, outcome) => PatchFor(w, caller, outcome)
    case PutBack(caller) => PutBackFor(w, caller)
  }

  function Exec(w: World, acts: seq<Action>): World {
    if acts == [] then w else Step(Exec(w, acts[..|acts| - 1]), acts[|acts| - 1])
  }

  function Start(now: int, users: map<string, Fields>): World { World(now, users, map[], map[], 0, map[], map[], []) }

  // ----- Conservation -----

  predicate PendingOk(w: World, key: string) {
    key in w.pending ==>
      var p := w.pending[key];
      && key != "" && p.avatar.url != ""
      && p.avatar.serial in w.fates && w.fates[p.avatar.serial] == IsPending(key)
      && p.avatar.serial in w.storedAt && p.expiresAt == w.storedAt[p.avatar.serial] + TTL
  }

  predicate FlightOk(w: World, caller: nat) {
    caller in w.flights ==>
      var f := w.flights[caller];
      && f.key != "" && f.avatar.url != ""
      && f.avatar.serial in w.fates && w.fates[f.avatar.serial] == InFlight(caller)
      && f.avatar.serial in w.storedAt && f.expiry == w.storedAt[f.avatar.serial] + TTL
      && f.takenAt <= f.expiry && f.takenAt <= w.now
  }

  /** The fate recorded for an avatar is where it really is. */
  predicate FateOk(w: World, serial: nat) {
    && (serial in w.fates <==> serial < w.issued)
    && (serial in w.fates ==>
        && (w.fates[serial].IsPending?
            ==> w.fates[serial].key in w.pending && w.pending[w.fates[serial].key].avatar.serial == serial)
        && (w.fates[serial].InFlight?
            ==> w.fates[serial].caller in w.flights && w.flights[w.fates[serial].caller].avatar.serial == serial))
  }

  ghost predicate Conserved(w: World) {
    && (forall key :: PendingOk(w, key))
    && (forall caller :: FlightOk(w, caller))
    && (forall serial :: FateOk(w, serial))
  }

  lemma PutKeepsPending(w: World, at: string, avatar: Avatar, key: string)
    requires Conserved(w) && (avatar.serial in w.fates ==> !w.fates[avatar.serial].IsPending?)
    ensures PendingOk(Put(w, at, avatar), key)
  {
    assert PendingOk(w, key) && PendingOk(w, at);
  }

  lemma PutKeepsFlight(w: World, key: string, avatar: Avatar, caller: nat)
    requires Conserved(w) && (caller in w.flights ==> w.flights[caller].avatar.serial != avatar.serial)
    ensures FlightOk(Put(w, key, avatar), caller)
  {
    assert FlightOk(w, caller) && PendingOk(w, key);
  }

  lemma IntentKeeps(w: World, key: string, url: string, provider: string)
    requires Conserved(w)
    ensures Conserved(Intend(w, key, url, provider))
  {
    var w' := Intend(w, key, url, provider);
    var avatar := Avatar(w.issued, url, provider);
    assert FateOk(w, w.issued);
    forall k ensures PendingOk(w', k) { PutKeepsPending(w, key, avatar, k); assert PendingOk(w, k); }
    forall caller ensures FlightOk(w', caller) { assert FlightOk(w, caller); PutKeepsFlight(w, key, avatar, caller); }
    forall serial ensures FateOk(w', serial) { assert FateOk(w, serial) && PendingOk(w, key); }
  }

  lemma TakeKeeps(w: World, caller: nat, key: string, user: string)
    requires Conserved(w)
    ensures Conserved(TakeFor(w, caller, key, user))
  {
    var w' := TakeFor(w, caller, key, user);
    assert PendingOk(w, key);
    forall k ensures PendingOk(w', k) { assert PendingOk(w, k); }
    forall c ensures FlightOk(w', c) { assert FlightOk(w, c); }
    forall serial ensures FateOk(w', serial) { assert FateOk(w, serial); }
  }

  lemma ReadKeeps(w: World, caller: nat, ok: bool)
    requires Conserved(w)
    ensures Conserved(ReadFor(w, caller, ok))
  {
    var w' := ReadFor(w, caller, ok);
    forall k ensures PendingOk(w', k) { assert PendingOk(w, k); }
    forall c ensures FlightOk(w', c) { assert FlightOk(w, c); }
    forall serial ensures FateOk(w', serial) { assert FateOk(w, serial); }
  }

  lemma PatchKeeps(w: World, caller: nat, outcome: Outcome)
    requires Conserved(w)
    ensures Conserved(PatchFor(w, caller, outcome))
  {
    var w' := PatchFor(w, caller, outcome);
    assert FlightOk(w, caller);
    forall k ensures PendingOk(w', k) { assert PendingOk(w, k); }
    forall c ensures FlightOk(w', c) { assert FlightOk(w, c); }
    forall serial ensures FateOk(w', serial) { assert FateOk(w, serial); }
  }

  lemma PutBackKeeps(w: World, caller: nat)
    requires Conserved(w)
    ensures Conserved(PutBackFor(w, caller))
  {
    var w' := PutBackFor(w, caller);
    if w' != w {
      var f := w.flights[caller];
      assert FlightOk(w, caller);
      forall k ensures PendingOk(w', k) {
        PutKeepsPending(w, f.key, f.avatar, k);
        assert PendingOk(Put(w, f.key, f.avatar), k);
      }
      forall c ensures FlightOk(w', c) {
        if c in w'.flights {
          assert FlightOk(w, c);
          PutKeepsFlight(w, f.key, f.avatar, c);
          assert FlightOk(Put(w, f.key, f.avatar), c);
        }
      }
      forall serial ensures FateOk(w', serial) {
        assert FateOk(w, serial) && PendingOk(w, f.key) && FateOk(w, f.avatar.serial);
      }
    }
  }

  lemma StepKeeps(w: World, a: Action)
    requires Conserved(w)
    ensures Conserved(Step(w, a))
  {
    match a
    case Intent(key, url, provider) => IntentKeeps(w, key, url, provider);
    case Take(caller, key, user) => TakeKeeps(w, caller, key, user);
    case Read(caller, ok) => ReadKeeps(w, caller, ok);
    case Patch(caller, outcome) => PatchKeeps(w, caller, outcome);
    case PutBack(caller) => PutBackKeeps(w, caller);
    case _ =>
      var w' := Step(w, a);
      forall k ensures PendingOk(w', k) { assert PendingOk(w, k); }
      forall c ensures FlightOk(w', c) { assert FlightOk(w, c); }
      forall serial ensures FateOk(w', serial) { assert FateOk(w, serial); }
  }

  /** In every interleaving each avatar an intent stored has exactly one fate, and the fate is where it
      is: pending under one address, in flight in one request, delivered, dropped as expired, or overwritten. */
  lemma {:induction false} AlwaysConserved(now: int, users: map<string, Fields>, acts: seq<Action>)
    ensures Conserved(Exec(Start(now, users), acts))
  {
    if acts != [] {
      AlwaysConserved(now, users, acts[..|acts| - 1]);
      StepKeeps(Exec(Start(now, users), acts[..|acts| - 1]), acts[|acts| - 1]);
    }
  }

  function Landings(landed: seq<Landing>, serial: nat): nat {
    if landed == [] then 0
    else Landings(landed[..|landed| - 1], serial) + (if landed[|landed| - 1].serial == serial then 1 else 0)
  }

  /** A request that has read its User and whose User is still there. */
  predicate AboutToLand(w: World, caller: nat) {
    caller in w.flights && w.flights[caller].stage.Saw? && w.flights[caller].user in w.users
  }

  /** The action is a patch of that avatar that reaches its User although its answer is lost. */
  predicate LostLanding(w: World, a: Action, serial: nat) {
    a.Patch? && a.outcome.Lost? && AboutToLand(w, a.caller) && w.flights[a.caller].avatar.serial == serial
  }

  function LostLandings(w: World, acts: seq<Action>, serial: nat): nat {
    if acts == [] then 0
    else
      var front := acts[..|acts| - 1];
      LostLandings(w, front, serial) + if LostLanding(Exec(w, front), acts[|acts| - 1], serial) then 1 else 0
  }

  function Delivery(w: World, serial: nat): nat { if serial in w.fates && w.fates[serial].Delivered? then 1 else 0 }

  lemma OnlyPatchDelivers(w: World, a: Action, serial: nat)
    requires Conserved(w) && !a.Patch?
    ensures Step(w, a).landed == w.landed && Delivery(Step(w, a), serial) == Delivery(w, serial)
  {
    match a
    case PutBack(caller) =>
      assert FlightOk(w, caller);
      if caller in w.flights { assert PendingOk(w, w.flights[caller].key); }
    case Take(_, key, _) => assert PendingOk(w, key);
    case Intent(key, _, _) => assert PendingOk(w, key) && FateOk(w, w.issued);
    case _ =>
  }

  lemma LandingAppend(landed: seq<Landing>, l: Landing, serial: nat)
    ensures Landings(landed + [l], serial) == Landings(landed, serial) + if l.serial == serial then 1 else 0
  {
    assert (landed + [l])[..|landed|] == landed;
  }

  lemma PatchDelivery(w: World, caller: nat, outcome: Outcome, serial: nat)
    requires Conserved(w) && AboutToLand(w, caller)
    ensures Delivery(PatchFor(w, caller, outcome), serial)
         == Delivery(w, serial) + if outcome.Applied? && w.flights[caller].avatar.serial == serial then 1 else 0
  {
    assert FlightOk(w, caller);
  }

  lemma PatchLanding(w: World, caller: nat, outcome: Outcome, serial: nat)
    requires AboutToLand(w, caller)
    ensures Landings(PatchFor(w, caller, outcome).landed, serial)
         == Landings(w.landed, serial)
            + if outcome.TookEffect() && w.flights[caller].avatar.serial == serial then 1 else 0
  {
    var f := w.flights[caller];
    LandingAppend(w.landed, Landing(f.avatar.serial, f.takenAt, f.expiry, w.now), serial);
  }

  lemma PatchMisses(w: World, caller: nat, outcome: Outcome)
    requires !AboutToLand(w, caller)
    ensures PatchFor(w, caller, outcome).landed == w.landed && PatchFor(w, caller, outcome).fates == w.fates
  {
  }

  /** Each landing is of an avatar just delivered or of one whose answer was lost. */
  lemma LandingStep(w: World, a: Action, serial: nat)
    requires Conserved(w)
    ensures Landings(Step(w, a).landed, serial) - Delivery(Step(w, a), serial)
         == Landings(w.landed, serial) - Delivery(w, serial) + if LostLanding(w, a, serial) then 1 else 0
  {
    if !a.Patch? {
      OnlyPatchDelivers(w, a, serial);
    } else if AboutToLand(w, a.caller) {
      PatchDelivery(w, a.caller, a.outcome, serial);
      PatchLanding(w, a.caller, a.outcome, serial);
    } else {
      PatchMisses(w, a.caller, a.outcome);
    }
  }

  /** For every run: an avatar reached its User once if it is delivered, and once more for each of its patches
      whose answer was lost. */
  lemma {:induction false} LandingsCounted(now: int, users: map<string, Fields>, acts: seq<Action>, serial: nat)
    ensures var w := Exec(Start(now, users), acts);
      Landings(w.landed, serial) == Delivery(w, serial) + LostLandings(Start(now, users), acts, serial)
  {
    if acts != [] {
      var front := acts[..|acts| - 1];
      LandingsCounted(now, users, front, serial);
      AlwaysConserved(now, users, front);
      LandingStep(Exec(Start(now, users), front), acts[|acts| - 1], serial);
    }
  }

  predicate LandingOk(w: World, serial: nat) { Landings(w.landed, serial) == Delivery(w, serial) }

  ghost predicate LandedOnce(w: World) { forall serial :: LandingOk(w, serial) }

  predicate KeptAnswers(w: World, acts: seq<Action>, serial: nat) { LostLandings(w, acts, serial) == 0 }

  ghost predicate NothingLost(w: World, acts: seq<Action>) { forall serial :: KeptAnswers(w, acts, serial) }

  lemma LandedOnceIff(now: int, users: map<string, Fields>, acts: seq<Action>, serial: nat)
    ensures LandingOk(Exec(Start(now, users), acts), serial) <==> KeptAnswers(Start(now, users), acts, serial)
  {
    LandingsCounted(now, users, acts, serial);
  }

  /** The avatars that reached a User are exactly the delivered ones, each once, if and only if no patch that
      reached its User lost its answer. */
  lemma AppliedOnce(now: int, users: map<string, Fields>, acts: seq<Action>)
    ensures LandedOnce(Exec(Start(now, users), acts)) <==> NothingLost(Start(now, users), acts)
  {
    var start := Start(now, users);
    var w := Exec(start, acts);
    forall serial ensures LandingOk(w, serial) <==> KeptAnswers(start, acts, serial) {
      LandedOnceIff(now, users, acts, serial);
    }
  }

  /** Every patch that reached a User was of an avatar taken no later than the expiry its latest store set. */
  predicate TakenInTime(w: World) {
    forall l :: l in w.landed ==> l.takenAt <= l.expiry && l.takenAt <= l.at
  }

  lemma {:induction false} AlwaysTakenInTime(now: int, users: map<string, Fields>, acts: seq<Action>)
    ensures TakenInTime(Exec(Start(now, users), acts))
  {
    if acts != [] {
      var w := Exec(Start(now, users), acts[..|acts| - 1]);
      AlwaysTakenInTime(now, users, acts[..|acts| - 1]);
      AlwaysConserved(now, users, acts[..|acts| - 1]);
      if acts[|acts| - 1].Patch? { assert FlightOk(w, acts[|acts| - 1].caller); }
    }
  }

  // ----- Single steps -----

  /** An intent with an address and an avatar is pending from then on, in place of what was pending there. */
  lemma IntentIsPending(w: World, key: string, url: string, provider: string)
    requires Conserved(w) && key != "" && url != ""
    ensures var w' := Step(w, Intent(key, url, provider));
      && w'.pending == w.pending[key := Pending(Avatar(w.issued, url, provider), w.now + 15 * 60 * 1_000_000_000)]
      && w.issued in w'.fates && w'.fates[w.issued] == IsPending(key) && w'.flights == w.flights
      && (key in w.pending ==>
            w.pending[key].avatar.serial in w'.fates && w'.fates[w.pending[key].avatar.serial] == Overwritten)
  {
    assert PendingOk(w, key) && FateOk(w, w.issued);
    if key in w.pending { assert FateOk(w, w.pending[key].avatar.serial); }
  }

  /** A take empties the entry, and hands its avatar on exactly if no more than 15 minutes have passed since it
      was stored. */
  lemma TakenIff(w: World, key: string, caller: nat, user: string)
    requires Conserved(w) && key in w.pending && caller !in w.flights
    ensures w.pending[key].avatar.serial in w.storedAt
    ensures var avatar := w.pending[key].avatar;
      var w' := Step(w, Take(caller, key, user));
      var inTime := w.now - w.storedAt[avatar.serial] <= 15 * 60 * 1_000_000_000;
      && w'.pending == w.pending - {key} && w'.users == w.users
      && avatar.serial in w'.fates && w'.fates[avatar.serial] == (if inTime then InFlight(caller) else Expired)
      && (caller in w'.flights <==> inTime)
      && (inTime ==> w'.flights[caller].avatar == avatar && w'.flights[caller].user == user)
  {
    assert PendingOk(w, key);
  }

  /** A failed patch puts its avatar back with a full new lifetime. Whatever else is pending under that
      address by then, newer or not, is displaced. */
  lemma FailedPatchPutsBack(w: World, caller: nat)
    requires Conserved(w) && caller in w.flights && w.flights[caller].stage.Failed?
    ensures var f := w.flights[caller];
      var w' := Step(w, PutBack(caller));
      && w'.pending == w.pending[f.key := Pending(f.avatar, w.now + TTL)] && caller !in w'.flights
      && f.avatar.serial in w'.fates && w'.fates[f.avatar.serial] == IsPending(f.key)
      && forall s :: s in w.fates && s in w'.fates && s != f.avatar.serial ==>
           && (w'.fates[s] != w.fates[s] <==> f.key in w.pending && w.pending[f.key].avatar.serial == s)
           && (w'.fates[s] != w.fates[s] ==> w'.fates[s].Overwritten?)
  {
    assert FlightOk(w, caller) && PendingOk(w, w.flights[caller].key);
  }

  lemma ReadIs(w: World, caller: nat)
    requires caller in w.flights && w.flights[caller].stage.Took?
    ensures var f := w.flights[caller];
      var stage := if f.user in w.users then Saw(w.users[f.user]) else Failed;
      Step(w, Read(caller, true)) == w.(flights := w.flights[caller := f.(stage := stage)])
  {
  }

  /** The patch of a copy that is still what is stored, or of a User that is gone. */
  lemma FreshPatch(w: World, caller: nat, outcome: Outcome)
    requires caller in w.flights
    requires var f := w.flights[caller]; f.stage == if f.user in w.users then Saw(w.users[f.user]) else Failed
    ensures var f := w.flights[caller];
      var w' := Step(w, Patch(caller, outcome));
      && w'.pending == w.pending && w'.now == w.now
      && w'.users == AfterPatch(w.users, f.user, f.avatar, outcome)
      && w'.flights
         == if f.user in w.users && outcome.ReportedOk() then w.flights - {caller}
            else w.flights[caller := f.(stage := Failed)]
  {
    var f := w.flights[caller];
    if f.user in w.users { PatchOnCopy(w.users[f.user], WithAvatar(w.users[f.user], f.avatar.url, f.avatar.provider)); }
  }

  lemma TakenThenApplied(w: World, caller: nat, d: nat, outcome: Outcome)
    requires caller in w.flights && w.flights[caller].stage.Took? && w.flights[caller].key != ""
         && w.flights[caller].avatar.url != ""
    ensures var w' := Step(Step(Step(Step(w, Read(caller, true)), Patch(caller, outcome)), Tick(d)), PutBack(caller));
      var f := w.flights[caller];
      && w'.pending == (if f.user in w.users && outcome.ReportedOk() then w.pending
                        else Stored(w.pending, f.key, f.avatar, w.now + d))
      && w'.users == AfterPatch(w.users, f.user, f.avatar, outcome)
      && caller !in w'.flights
  {
    ReadIs(w, caller);
    FreshPatch(Step(w, Read(caller, true)), caller, outcome);
  }

  /** A request nothing interleaves with does what the handler's method does. */
  lemma UninterruptedApply(w: World, caller: nat, key: string, user: string, d: nat, outcome: Outcome)
    requires Conserved(w) && caller !in w.flights
    ensures var read := Step(Step(w, Take(caller, key, user)), Read(caller, true));
      var w' := Step(Step(Step(read, Patch(caller, outcome)), Tick(d)), PutBack(caller));
      var (rest, taken) := Consumed(w.pending, key, w.now);
      && w'.pending == (if taken.None? || (user in w.users && outcome.ReportedOk()) then rest
                        else Stored(rest, key, taken.value.avatar, w.now + d))
      && w'.users == (if taken.None? then w.users else AfterPatch(w.users, user, taken.value.avatar, outcome))
      && caller !in w'.flights
  {
    assert PendingOk(w, key);
    var w1 := Step(w, Take(caller, key, user));
    if caller in w1.flights { TakenThenApplied(w1, caller, d, outcome); }
  }

  /** What a patch of a request shows, from any reachable state and however long after the take: its two
      fields, unless one that was already right when read has been changed since. */
  lemma LandingShows(w: World, caller: nat, outcome: Outcome)
    requires Conserved(w) && AboutToLand(w, caller) && outcome.TookEffect()
    ensures var f := w.flights[caller];
      var w' := Step(w, Patch(caller, outcome));
      var stored := w.users[f.user];
      && w'.landed == w.landed + [Landing(f.avatar.serial, f.takenAt, f.expiry, w.now)]
      && f.user in w'.users
      && (Shows(w'.users[f.user], f.avatar.url, f.avatar.provider) <==>
            && (Get(f.stage.copy, AvatarUrl) == NonEmpty(f.avatar.url)
                ==> Get(stored, AvatarUrl) == Get(f.stage.copy, AvatarUrl))
            && (Get(f.stage.copy, LastLoginProvider) == NonEmpty(f.avatar.provider)
                ==> Get(stored, LastLoginProvider) == Get(f.stage.copy, LastLoginProvider)))
  {
    var f := w.flights[caller];
    PatchShowsAvatar(w.users[f.user], f.stage.copy, f.avatar.url, f.avatar.provider);
  }

  lemma UnchangedCopyShows(w: World, caller: nat, outcome: Outcome)
    requires Conserved(w) && AboutToLand(w, caller) && outcome.TookEffect()
    requires w.flights[caller].stage.copy == w.users[w.flights[caller].user]
    ensures var f := w.flights[caller];
      var w' := Step(w, Patch(caller, outcome));
      f.user in w'.users && Shows(w'.users[f.user], f.avatar.url, f.avatar.provider)
  {
    LandingShows(w, caller, outcome);
  }

  // ----- What the hand-off does not promise -----

  /** A patch that was stored but reported as failed leaves its avatar both shown and pending: in any state,
      for any request whose User is as it was read. */
  lemma LostPatchLandsAndStaysPending(w: World, caller: nat)
    requires Conserved(w) && AboutToLand(w, caller) && w.flights[caller].stage.copy == w.users[w.flights[caller].user]
    ensures var f := w.flights[caller];
      var w' := Step(Step(w, Patch(caller, Lost)), PutBack(caller));
      && f.user in w'.users && Shows(w'.users[f.user], f.avatar.url, f.avatar.provider)
      && f.key in w'.pending && w'.pending[f.key].avatar == f.avatar
      && Landings(w'.landed, f.avatar.serial) == Landings(w.landed, f.avatar.serial) + 1
  {
    var f := w.flights[caller];
    var w1 := Step(w, Patch(caller, Lost));
    UnchangedCopyShows(w, caller, Lost);
    assert FlightOk(w, caller);
    assert w1.landed[..|w.landed|] == w.landed;
    assert Step(w1, PutBack(caller)).users == w1.users && Step(w1, PutBack(caller)).landed == w1.landed;
  }

  /** The expiry is looked at when the avatar is taken: an avatar stored and taken in time reaches the User
      any time after it. */
  lemma LandsAfterExpiry(user: string, d: nat)
    ensures var start := Start(0, map[user := map[]]);
      var taken := Step(Step(start, Intent("a", "u", "p")), Take(0, "a", user));
      var w := Step(Step(Step(taken, Read(0, true)), Tick(TTL + d)), Patch(0, Outcome.Applied));
      |w.landed| == 1 && w.landed[0].at == w.landed[0].expiry + d && user in w.users && Shows(w.users[user], "u", "p")
  {
    var start := Start(0, map[user := map[]]);
    var taken := Step(Step(start, Intent("a", "u", "p")), Take(0, "a", user));
    assert taken.flights[0] == Flight("a", user, Avatar(0, "u", "p"), 0, TTL, Took);
    var read := Step(taken, Read(0, true));
    assert read.flights[0].stage == Saw(map[]);
    PatchShowsAvatar(map[], map[], "u", "p");
  }
}
