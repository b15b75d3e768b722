/** The writers of one User's status: the verification Set (read, compare, Update under an optimistic
    lock, retry on conflict) against avatar merge patches and everybody else, in any interleaving. */
module StatusWriters {
  import opened Wrappers
  import opened Stores
  import opened StatusFields

  function StateName(v: Verification): string {
    match v case Unset => "" case Verified => "Verified" case Unverified => "Unverified"
  }

  function Wanted(verified: bool): string { StateName(Desired(verified)) }

  /** The field already has the value a Set is asked for. */
  predicate Has(s: Fields, verified: bool) {
    Get(s, EmailVerification) == Some(if verified then "Verified" else "Unverified")
  }

  /** What another status writer leaves: anything, but with the verification as it was. */
  function KeepVerification(stored: Fields, wanted: Fields): Fields {
    if EmailVerification in stored then wanted[EmailVerification := stored[EmailVerification]]
        else wanted - {EmailVerification}
  }

  /** Who wrote a version. A Set names its call. */
  datatype Writer = Creation | Set(call: nat, verified: bool) | Patch | Other

  /** One Set call: `since` is the newest version when it began, `copy` the version it holds. A finished
      call that reports no error names the version it vouches for; a failed one may have stored a version
      whose answer was lost. */
  datatype Phase = Ready | Holding(copy: nat) | Failed(stored: Option<nat>) | Matched(at: nat) | Wrote(at: nat)
  datatype Call = Call(verified: bool, since: nat, attempts: nat, phase: Phase)

  /** `versions[i]` is the object at resource version i; `live` is false while it is deleted. */
  datatype State = State(versions: seq<Fields>, writers: seq<Writer>, live: bool,
                         calls: map<nat, Call>, patches: map<nat, nat>)

  datatype Action =
    | Create(status: Fields) | Delete | OtherWrite(status: Fields)
    | SetCall(call: nat, verified: bool) | SetGet(call: nat, ok: bool) | SetUpdate(call: nat, reply: Outcome)
    | PatchGet(op: nat) | PatchApply(op: nat, avatar: string, provider: string)

  /** The retry helper's default backoff gives up after four tries. */
  const ATTEMPTS: nat := 4

  function Init(first: Fields): State { State([first], [Creation], true, map[], map[]) }

  function Newest(s: State): nat { if |s.versions| == 0 then 0 else |s.versions| - 1 }

  function Append(s: State, status: Fields, writer: Writer): State {
    s.(versions := s.versions + [status], writers := s.writers + [writer])
  }

  function SetPhase(s: State, call: nat, phase: Phase): State
    requires call in s.calls
  {
    s.(calls := s.calls[call := s.calls[call].(phase := phase)])
  }

  /** The newest version with the one field replaced becomes the next one. */
  function WrittenBy(s: State, c: nat): State
    requires s.versions != [] && c in s.calls
  {
    Append(s, s.versions[|s.versions| - 1][EmailVerification := Wanted(s.calls[c].verified)],
        Set(c, s.calls[c].verified))
  }

  /** The Update of a call that holds a copy: refused for a missing object, a stale copy, or by the server. */
  function Updated(s: State, c: nat, reply: Outcome): State
    requires s.versions != [] && c in s.calls && s.calls[c].phase.Holding?
  {
    var call := s.calls[c];
    if s.live && call.phase.copy == Newest(s) && reply.TookEffect() then
      SetPhase(WrittenBy(s, c), c, if reply.ReportedOk() then Wrote(|s.versions|) else Failed(Some(|s.versions|)))
    else if s.live && call.phase.copy != Newest(s) && call.attempts < ATTEMPTS then
      s.(calls := s.calls[c := call.(attempts := call.attempts + 1, phase := Ready)])
    else SetPhase(s, c, Failed(None))
  }

  function Step(s: State, a: Action): State {
    if s.versions == [] then s else
    match a
    case Create(status) => if s.live then s else Append(s, status, Creation).(live := true)
    case Delete => s.(live := false)
    case OtherWrite(status) =>
      if s.live then Append(s, KeepVerification(s.versions[Newest(s)], status), Other) else s
    case SetCall(c, verified) =>
      if c in s.calls then s else s.(calls := s.calls[c := Call(verified, Newest(s), 1, Ready)])
    case SetGet(c, ok) =>
      if c !in s.calls || !s.calls[c].phase.Ready? then s
      else if !s.live || !ok then SetPhase(s, c, Failed(None))
      else if Has(s.versions[Newest(s)], s.calls[c].verified) then SetPhase(s, c, Matched(Newest(s)))
      else SetPhase(s, c, Holding(Newest(s)))
    case SetUpdate(c, reply) => if c !in s.calls || !s.calls[c].phase.Holding? then s else Updated(s, c, reply)
    case PatchGet(p) => if s.live then s.(patches := s.patches[p := Newest(s)]) else s
    case PatchApply(p, avatar, provider) =>
      if p !in s.patches || !s.live || s.patches[p] >= |s.versions| then s.(patches := s.patches - {p})
      else
        var current := s.versions[Newest(s)];
        var patched := AvatarPatched(current, s.versions[s.patches[p]], avatar, provider);
        var t := if patched == current then s else Append(s, patched, Writer.Patch);
        t.(patches := t.patches - {p})
  }

  // ----- What every interleaving keeps -----

  ghost predicate OnlyAvatarMoves(before: Fields, after: Fields) {
    forall f :: f != AvatarUrl && f != LastLoginProvider ==> Get(after, f) == Get(before, f)
  }

  /** Version i follows version i - 1 as its writer may change it. */
  ghost predicate Follows(before: Fields, after: Fields, writer: Writer) {
    match writer
    case Creation => true
    case Set(_, verified) =>
      !Has(before, verified) && after == before[EmailVerification := if verified then "Verified" else "Unverified"]
    case Patch => OnlyAvatarMoves(before, after)
    case Other => Get(after, EmailVerification) == Get(before, EmailVerification)
  }

  ghost predicate HistoryOk(versions: seq<Fields>, writers: seq<Writer>) {
    && |versions| == |writers| > 0
    && forall i :: 0 < i < |versions| ==> Follows(versions[i - 1], versions[i], writers[i])
  }

  /** A finished call without error vouches for a version of its own lifetime that shows the value it
      was asked for; it reports a change exactly when it wrote that version. */
  ghost predicate PhaseOk(call: Call, c: nat, versions: seq<Fields>, writers: seq<Writer>)
    requires |writers| == |versions|
  {
    && call.since < |versions| && 1 <= call.attempts <= ATTEMPTS
    && (call.phase.Holding? ==>
          && call.since <= call.phase.copy < |versions|
          && !Has(versions[call.phase.copy], call.verified))
    && (call.phase.Matched? ==>
          call.since <= call.phase.at < |versions| && Has(versions[call.phase.at], call.verified))
    && (call.phase.Wrote? ==>
          && call.since < call.phase.at < |versions| && writers[call.phase.at] == Set(c, call.verified)
          && Has(versions[call.phase.at], call.verified))
    && (call.phase.Failed? && call.phase.stored.Some? ==>
          call.since < call.phase.stored.value < |versions|
              && writers[call.phase.stored.value] == Set(c, call.verified))
  }

  /** A version a call wrote is the one it reports, or the one a failed call stored without learning it. */
  ghost predicate Accounted(writer: Writer, i: nat, calls: map<nat, Call>) {
    writer.Set? ==>
      && writer.call in calls
      && (calls[writer.call].phase == Wrote(i) || calls[writer.call].phase == Failed(Some(i)))
  }

  ghost predicate Inv(s: State) {
    && HistoryOk(s.versions, s.writers)
    && (forall c :: c in s.calls ==> PhaseOk(s.calls[c], c, s.versions, s.writers))
    && (forall i :: 0 <= i < |s.writers| ==> Accounted(s.writers[i], i, s.calls))
    && (forall p :: p in s.patches ==> s.patches[p] < |s.versions|)
  }

  lemma AppendKeeps(s: State, status: Fields, writer: Writer)
    requires Inv(s) && Follows(s.versions[|s.versions| - 1], status, writer) && !writer.Set?
    ensures Inv(Append(s, status, writer))
  {
    var t := Append(s, status, writer);
    forall c | c in t.calls ensures PhaseOk(t.calls[c], c, t.versions, t.writers) {
      assert PhaseOk(s.calls[c], c, s.versions, s.writers);
    }
    forall i | 0 <= i < |t.writers| ensures Accounted(t.writers[i], i, t.calls) {
      if i < |s.writers| { assert Accounted(s.writers[i], i, s.calls); }
    }
  }

  /** A call that has written nothing moves on. */
  lemma CallKeeps(s: State, c: nat, call: Call)
    requires Inv(s) && PhaseOk(call, c, s.versions, s.writers)
    requires c in s.calls ==> !s.calls[c].phase.Wrote? && !s.calls[c].phase.Failed?
    ensures Inv(s.(calls := s.calls[c := call]))
  {
    var t := s.(calls := s.calls[c := call]);
    forall d | d in t.calls ensures PhaseOk(t.calls[d], d, t.versions, t.writers) {
      if d != c { assert PhaseOk(s.calls[d], d, s.versions, s.writers); }
    }
    forall i | 0 <= i < |t.writers| ensures Accounted(t.writers[i], i, t.calls) {
      assert Accounted(s.writers[i], i, s.calls);
    }
  }

  /** The world after the Update of a call whose copy is still the newest version. */
  ghost predicate JustWritten(s: State, c: nat, phase: Phase) {
    && Inv(s) && c in s.calls && s.calls[c].phase == Holding(|s.versions| - 1)
    && (phase == Failed(Some(|s.versions|)) || phase == Wrote(|s.versions|))
  }

  lemma WrittenPhases(s: State, c: nat, phase: Phase)
    requires JustWritten(s, c, phase)
    ensures var t := SetPhase(WrittenBy(s, c), c, phase);
      && |t.writers| == |t.versions| && forall d :: d in t.calls ==> PhaseOk(t.calls[d], d, t.versions, t.writers)
  {
    var t := SetPhase(WrittenBy(s, c), c, phase);
    assert PhaseOk(s.calls[c], c, s.versions, s.writers);
    forall d | d in t.calls ensures PhaseOk(t.calls[d], d, t.versions, t.writers) {
      assert PhaseOk(s.calls[d], d, s.versions, s.writers);
    }
  }

  lemma WrittenAccounted(s: State, c: nat, phase: Phase)
    requires JustWritten(s, c, phase)
    ensures var t := SetPhase(WrittenBy(s, c), c, phase);
      forall i :: 0 <= i < |t.writers| ==> Accounted(t.writers[i], i, t.calls)
  {
    var t := SetPhase(WrittenBy(s, c), c, phase);
    forall i | 0 <= i < |t.writers| ensures Accounted(t.writers[i], i, t.calls) {
      if i < |s.writers| { assert Accounted(s.writers[i], i, s.calls); }
    }
  }

  lemma WrittenHistory(s: State, c: nat)
    requires Inv(s) && c in s.calls && s.calls[c].phase == Holding(|s.versions| - 1)
    ensures HistoryOk(WrittenBy(s, c).versions, WrittenBy(s, c).writers)
  {
    assert PhaseOk(s.calls[c], c, s.versions, s.writers);
  }

  lemma SetWriteKeeps(s: State, c: nat, phase: Phase)
    requires JustWritten(s, c, phase)
    ensures Inv(SetPhase(WrittenBy(s, c), c, phase))
  {
    WrittenHistory(s, c);
    WrittenPhases(s, c, phase);
    WrittenAccounted(s, c, phase);
  }

  lemma PatchKeeps(s: State, p: nat, avatar: string, provider: string)
    requires Inv(s)
    ensures Inv(Step(s, PatchApply(p, avatar, provider)))
  {
    if p in s.patches && s.live {
      var current := s.versions[Newest(s)];
      var patched := AvatarPatched(current, s.versions[s.patches[p]], avatar, provider);
      if patched != current {
        forall f | f != AvatarUrl && f != LastLoginProvider ensures Get(patched, f) == Get(current, f) {
          AvatarPatchMovesTwo(current, s.versions[s.patches[p]], avatar, provider, f);
        }
        AppendKeeps(s, patched, Writer.Patch);
      }
    }
  }

  lemma UpdatedKeeps(s: State, c: nat, reply: Outcome)
    requires Inv(s) && c in s.calls && s.calls[c].phase.Holding?
    ensures Inv(Updated(s, c, reply))
  {
    var call := s.calls[c];
    assert PhaseOk(call, c, s.versions, s.writers);
    if s.live && call.phase.copy == Newest(s) && reply.TookEffect() {
      SetWriteKeeps(s, c, if reply.ReportedOk() then Wrote(|s.versions|) else Failed(Some(|s.versions|)));
    } else if s.live && call.phase.copy != Newest(s) && call.attempts < ATTEMPTS {
      CallKeeps(s, c, call.(attempts := call.attempts + 1, phase := Ready));
    } else {
      CallKeeps(s, c, call.(phase := Failed(None)));
    }
  }

  lemma StepKeeps(s: State, a: Action)
    requires Inv(s)
    ensures Inv(Step(s, a))
  {
    match a
    case Create(status) => AppendKeeps(s, status, Creation);
    case Delete =>
    case OtherWrite(status) =>
      AppendKeeps(s, KeepVerification(s.versions[Newest(s)], status), Other);
    case SetCall(c, verified) =>
      if c !in s.calls { CallKeeps(s, c, Call(verified, Newest(s), 1, Ready)); }
    case SetGet(c, ok) =>
      if c in s.calls && s.calls[c].phase.Ready? {
        assert PhaseOk(s.calls[c], c, s.versions, s.writers);
        CallKeeps(s, c, Step(s, a).calls[c]);
      }
    case SetUpdate(c, reply) =>
      if c in s.calls && s.calls[c].phase.Holding? { UpdatedKeeps(s, c, reply); }
    case PatchGet(_) =>
    case PatchApply(p, avatar, provider) => PatchKeeps(s, p, avatar, provider);
  }

  function Exec(s: State, acts: seq<Action>): State {
    if acts == [] then s else Step(Exec(s, acts[..|acts| - 1]), acts[|acts| - 1])
  }

  lemma {:induction false} RunKeeps(s: State, acts: seq<Action>)
    requires Inv(s)
    ensures Inv(Exec(s, acts))
  {
    if acts != [] {
      RunKeeps(s, acts[..|acts| - 1]);
      StepKeeps(Exec(s, acts[..|acts| - 1]), acts[|acts| - 1]);
    }
  }

  /** No lost update, for every interleaving. A version written by a Set is its immediate predecessor
      with only the verification replaced, and no other writer moves the verification of a living
      object; a Set that reports a change wrote exactly such a version after it began; a Set that reports
      no error vouches for a moment of the call at which the field had the value it was asked for. */
  lemma NoLostUpdate(first: Fields, acts: seq<Action>)
    ensures var s := Exec(Init(first), acts);
      && |s.writers| == |s.versions|
      && (forall i :: 0 < i < |s.versions| ==> Follows(s.versions[i - 1], s.versions[i], s.writers[i]))
      && (forall c :: c in s.calls ==> PhaseOk(s.calls[c], c, s.versions, s.writers))
  {
    RunKeeps(Init(first), acts);
  }

  /** For every run: a call that reports no error vouches for a version of its lifetime whose
      field says "Verified" if it was asked for true and "Unverified" if it was asked for false. */
  lemma FinishedCallsVouch(first: Fields, acts: seq<Action>, c: nat)
    requires c in Exec(Init(first), acts).calls
    ensures var s := Exec(Init(first), acts);
      var call := s.calls[c];
      call.phase.Matched? || call.phase.Wrote? ==>
        && call.since <= call.phase.at < |s.versions|
        && (Get(s.versions[call.phase.at], EmailVerification) == Some("Verified") <==> call.verified)
        && (Get(s.versions[call.phase.at], EmailVerification) == Some("Unverified") <==> !call.verified)
  {
    RunKeeps(Init(first), acts);
    var s := Exec(Init(first), acts);
    assert PhaseOk(s.calls[c], c, s.versions, s.writers);
  }

  lemma CopyIsNewest(s: State, c: nat, verified: bool)
    requires s.versions != [] && s.live && c !in s.calls
    ensures var t := Step(Step(s, SetCall(c, verified)), SetGet(c, true));
      && t.versions == s.versions && t.writers == s.writers && t.live && c in t.calls && t.calls[c].verified == verified
      && t.calls[c].attempts == 1
      && t.calls[c].phase == if Has(s.versions[Newest(s)], verified) then Matched(Newest(s)) else Holding(Newest(s))
  {
  }

  /** In every run, a new call that nothing interleaves with succeeds on a living User: the field then says what
      was asked for, nothing else has changed, and a version is written exactly if it said something else. */
  lemma UndisturbedSet(first: Fields, acts: seq<Action>, c: nat, verified: bool)
    requires var s := Exec(Init(first), acts); s.live && c !in s.calls
    ensures Exec(Init(first), acts).versions != []
    ensures var s := Exec(Init(first), acts);
      var t := Step(Step(Step(s, SetCall(c, verified)), SetGet(c, true)), SetUpdate(c, Applied));
      var last := s.versions[Newest(s)];
      && c in t.calls
      && (Has(last, verified) ==> t.versions == s.versions && t.calls[c].phase.Matched?)
      && (!Has(last, verified) ==>
            && t.versions == s.versions + [last[EmailVerification := if verified then "Verified" else "Unverified"]]
            && t.calls[c].phase == Wrote(|s.versions|))
  {
    RunKeeps(Init(first), acts);
    CopyIsNewest(Exec(Init(first), acts), c, verified);
  }

  /** A conflict is tried again, three times: the call fails only at the fourth. */
  lemma ConflictIsRetried(s: State, c: nat, reply: Outcome)
    requires s.versions != [] && s.live && c in s.calls
    requires s.calls[c].phase.Holding? && s.calls[c].phase.copy < Newest(s)
    ensures var t := Step(s, SetUpdate(c, reply));
      && t.versions == s.versions && c in t.calls
      && (s.calls[c].attempts < 4 ==> t.calls[c] == s.calls[c].(attempts := s.calls[c].attempts + 1, phase := Ready))
      && (s.calls[c].attempts >= 4 ==> t.calls[c].phase == Failed(None))
  {
  }

  /** A call writes at most one version, whether it ends well or not, and only one that succeeds can have
      written the version it reports. */
  lemma WritesAtMostOnce(s: State, i: nat, j: nat)
    requires Inv(s) && i < |s.writers| && j < |s.writers| && s.writers[i].Set? && s.writers[j].Set?
    requires s.writers[i].call == s.writers[j].call
    ensures i == j && s.writers[i].call in s.calls
    ensures s.calls[s.writers[i].call].phase in {Wrote(i), Failed(Some(i))}
  {
    assert Accounted(s.writers[i], i, s.calls) && Accounted(s.writers[j], j, s.calls);
  }

  /** Between two Sets nobody moves the verification of a living object. */
  lemma {:induction false} OnlySetMovesVerification(s: State, i: nat, j: nat)
    requires Inv(s) && i <= j < |s.versions|
    requires forall k :: i < k <= j ==> s.writers[k].Patch? || s.writers[k].Other?
    ensures Get(s.versions[j], EmailVerification) == Get(s.versions[i], EmailVerification)
  {
    if i < j {
      OnlySetMovesVerification(s, i, j - 1);
      assert Follows(s.versions[j - 1], s.versions[j], s.writers[j]);
    }
  }

  // ----- The Set call itself, as written -----

  /** One living User at its API server; `versions` is everything it has ever been. */
  class StatusStore {
    var versions: seq<Fields>

    constructor (first: Fields)
      ensures versions == [first]
    {
      versions := [first];
    }

    /** Whatever the other writers do before the next call. */
    method Interfere(others: seq<Fields>)
      modifies this
      ensures versions == old(versions) + others
    {
      versions := versions + others;
    }

    /** Status().Update under the optimistic lock: refused with a conflict unless `copy` is the newest. */
    method Update(copy: nat, status: Fields, reply: Outcome) returns (ok: bool, conflict: bool)
      modifies this
      ensures conflict == (copy != |old(versions)| - 1)
      ensures ok == (!conflict && reply.ReportedOk())
      ensures versions == if !conflict && reply.TookEffect() then old(versions) + [status] else old(versions)
    {
      conflict := copy != |versions| - 1;
      ok := !conflict && reply.ReportedOk();
      if !conflict && reply.TookEffect() {
        versions := versions + [status];
      }
    }
  }

  /** What the environment does around the calls of the n-th try. */
  datatype Surroundings = Surroundings(beforeGet: seq<Fields>, getOk: bool, beforeUpdate: seq<Fields>, reply: Outcome)

  /** Everything the others write in the first n tries. */
  function Others(env: nat -> Surroundings, n: nat): seq<Fields> {
    if n == 0 then [] else Others(env, n - 1) + env(n - 1).beforeGet + env(n - 1).beforeUpdate
  }

  /** `others` is what the others wrote in n whole tries, or up to the Get of the one after. */
  ghost predicate Interference(env: nat -> Surroundings, others: seq<Fields>, n: nat) {
    others == Others(env, n) || (n < ATTEMPTS && others == Others(env, n) + env(n).beforeGet)
  }

  /** The n-th try can fail for a reason of its own: the read fails, or an undisturbed Update is not
      answered with success. */
  predicate Refused(e: Surroundings) { !e.getOk || (e.beforeUpdate == [] && !e.reply.Applied?) }

  /** `after` is `before`, or has one more version: its predecessor with the one field replaced. */
  ghost predicate AtMostOneWrite(before: seq<Fields>, after: seq<Fields>, verified: bool) {
    before != [] && (after == before || Written(before, after, verified))
  }

  ghost predicate Written(before: seq<Fields>, after: seq<Fields>, verified: bool)
    requires before != []
  {
    var last := before[|before| - 1];
    && !Has(last, verified)
    && after == before + [last[EmailVerification := if verified then "Verified" else "Unverified"]]
  }

  datatype Tried = Conflict | Unchanged | Changed | Error

  /** The function the retry helper calls: one read, compare and Update. */
  method Try(store: StatusStore, verified: bool, e: Surroundings) returns (result: Tried)
    requires store.versions != []
    modifies store
    ensures result.Conflict? ==>
      e.beforeUpdate != [] && store.versions == old(store.versions) + e.beforeGet + e.beforeUpdate
    ensures !result.Conflict? ==> AtMostOneWrite(old(store.versions) + e.beforeGet, store.versions, verified)
    ensures result.Unchanged? ==>
      && store.versions == old(store.versions) + e.beforeGet
      && Has(store.versions[|store.versions| - 1], verified)
    ensures result.Changed? ==> Written(old(store.versions) + e.beforeGet, store.versions, verified)
    ensures result.Error? ==> Refused(e)
  {
    store.Interfere(e.beforeGet);
    if !e.getOk { return Error; }
    var copy := |store.versions| - 1;
    var user := store.versions[copy];
    if Has(user, verified) { return Unchanged; }
    ghost var seen := store.versions;
    store.Interfere(e.beforeUpdate);
    assert e.beforeUpdate == [] ==> store.versions == seen;
    var ok, conflict := store.Update(copy, user[EmailVerification := Wanted(verified)], e.reply);
    return if conflict then Conflict else if ok then Changed else Error;
  }

  /** However the other writers interleave: beside what they wrote the call added nothing, or one version
      that is its immediate predecessor with the one field replaced. It reports a change exactly when it
      succeeds and added one; a success without a change found the value stored. It fails only if a try
      was refused or all of them were disturbed. */
  method SetVerification(store: StatusStore, verified: bool, env: nat -> Surroundings)
    returns (changed: bool, ok: bool, ghost others: seq<Fields>)
    requires store.versions != []
    modifies store
    ensures exists n :: 0 <= n <= ATTEMPTS && Interference(env, others, n)
    ensures AtMostOneWrite(old(store.versions) + others, store.versions, verified)
    ensures changed <==> ok && store.versions != old(store.versions) + others
    ensures ok && !changed ==> Has(store.versions[|store.versions| - 1], verified)
    ensures !ok ==>
      || (exists n :: 0 <= n < ATTEMPTS && Refused(env(n)))
      || (forall n :: 0 <= n < ATTEMPTS ==> env(n).beforeUpdate != [])
  {
    ghost var first := store.versions;
    for attempt := 0 to ATTEMPTS
      invariant store.versions == first + Others(env, attempt)
      invariant forall n :: 0 <= n < attempt ==> env(n).beforeUpdate != []
    {
      ghost var e := env(attempt);
      others := Others(env, attempt) + e.beforeGet;
      assert Interference(env, others, attempt);
      Regroup(first, Others(env, attempt), e.beforeGet, e.beforeUpdate);
      var result := Try(store, verified, env(attempt));
      if !result.Conflict? {
        assert result.Error? ==> Refused(env(attempt));
        return result.Changed?, !result.Error?, others;
      }
    }
    others := Others(env, ATTEMPTS);
    assert Interference(env, others, ATTEMPTS);
    return false, false, others;
  }

  lemma Regroup(a: seq<Fields>, b: seq<Fields>, c: seq<Fields>, d: seq<Fields>)
    ensures (a + b) + c == a + (b + c) && (a + b) + c + d == a + (b + c + d)
  {
  }
}
