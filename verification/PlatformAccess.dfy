/** The PlatformAccess reconciler: it aligns one Zitadel user with the access state and remembers, in its
    own status condition, what it aligned to. */
module PlatformAccess {
  import opened Wrappers

  datatype UserState = Active | Inactive | OtherState(name: string)

  /** What a condition message says; its wording is not modelled, its variable parts are. */
  datatype Message = Missing(user: string) | SyncError(text: string) | Waiting | AlignedTo(state: string)

  /** The ZitadelReady condition; `since` is its last transition. */
  datatype Condition = Condition(ready: bool, reason: string, message: Message, since: int)

  datatype Error = NoError | NotFound | Failed

  datatype Call = Reactivate(user: string, from: UserState) | Deactivate(user: string, from: UserState)

  /** `alignedUser` is history: whom the condition was last set to True for. */
  datatype World = World(userRef: string, state: string, condition: Option<Condition>,
                         zitadel: map<string, UserState>, calls: seq<Call>, patches: nat, alignedUser: string)

  /** What a reactivate or deactivate call is answered: an outcome, or that there is no such user. */
  datatype Answer = Answered(outcome: Outcome) | NoSuchUser {
    predicate TookEffect() { Answered? && outcome.TookEffect() }
    function Verdict(): Error { if NoSuchUser? then NotFound else if outcome.ReportedOk() then NoError else Failed }
  }

  /** The environment's side of one reconcile. */
  datatype Replies = Replies(now: int, userReadable: bool, getOk: bool, mutation: Answer, patch: Outcome, text: string)

  const SUSPENDED := "Suspended"

  function Expected(state: string): UserState { if state != SUSPENDED then Active else Inactive }

  predicate StateChanged(w: World) {
    w.condition == None || !w.condition.value.ready || w.condition.value.reason != w.state
  }

  /** Align the referenced user: (world after, waiting, error). */
  function Ensure(w: World, r: Replies): (World, bool, Error) {
    if !r.getOk then (w, false, Failed)
    else if w.userRef !in w.zitadel then (w, false, NotFound)
    else
      var current := w.zitadel[w.userRef];
      if current == Expected(w.state) then (w, false, NoError)
      else if current.OtherState? then (w, true, NoError)
      else
        var call := if Expected(w.state).Active? then Reactivate(w.userRef, current)
                    else Deactivate(w.userRef, current);
        var called := w.(calls := w.calls + [call]);
        (if r.mutation.TookEffect() then called.(zitadel := w.zitadel[w.userRef := Expected(w.state)]) else called,
         false, r.mutation.Verdict())
  }

  datatype Verdict = Verdict(ready: bool, reason: string, message: Message)

  const NOT_FOUND := "ZitadelUserNotFound"
  const SYNC_FAILED := "SyncFailed"
  const WAITING := "WaitingForUserState"

  function Judge(userRef: string, state: string, waiting: bool, err: Error, text: string): Verdict {
    match err
    case NotFound => Verdict(false, NOT_FOUND, Missing(userRef))
    case Failed => Verdict(false, SYNC_FAILED, SyncError(text))
    case NoError => if waiting then Verdict(false, WAITING, Waiting) else Verdict(true, state, AlignedTo(state))
  }

  /** SetStatusCondition: the transition time moves only with the status. */
  function SetCondition(was: Option<Condition>, v: Verdict, now: int): Condition {
    Condition(v.ready, v.reason, v.message, if was.Some? && was.value.ready == v.ready then was.value.since else now)
  }

  /** The status write that ends a reconcile. */
  function Record(w: World, condition: Condition, patch: Outcome): World {
    if w.condition == Some(condition) then w
    else if !patch.TookEffect() then w.(patches := w.patches + 1)
    else w.(condition := Some(condition), patches := w.patches + 1,
            alignedUser := if condition.ready then w.userRef else w.alignedUser)
  }

  function Reconcile(w: World, r: Replies): World {
    if !r.userReadable then w
    else
      var (w', waiting, err) := if StateChanged(w) then Ensure(w, r) else (w, false, NoError);
      Record(w', SetCondition(w.condition, Judge(w.userRef, w.state, waiting, err, r.text), r.now), r.patch)
  }

  // ----- The controller -----

  class PlatformAccessController {
    var userRef: string
    var state: string
    var condition: Option<Condition>
    var zitadel: map<string, UserState>
    ghost var calls: seq<Call>
    ghost var patches: nat
    ghost var alignedUser: string

    constructor (userRef: string, state: string, zitadel: map<string, UserState>)
      ensures Snapshot() == World(userRef, state, None, zitadel, [], 0, userRef)
    {
      this.userRef, this.state, this.condition, this.zitadel := userRef, state, None, zitadel;
      calls, patches, alignedUser := [], 0, userRef;
    }

    ghost function Snapshot(): World
      reads this
    {
      World(userRef, state, condition, zitadel, calls, patches, alignedUser)
    }

    method EnsureZitadelUserState(r: Replies, expectActive: bool) returns (waiting: bool, err: Error)
      requires expectActive == (state != SUSPENDED)
      modifies this`zitadel, this`calls
      ensures (Snapshot(), waiting, err) == Ensure(old(Snapshot()), r)
    {
      if !r.getOk { return false, Failed; }
      if userRef !in zitadel { return false, NotFound; }
      var current := zitadel[userRef];
      if expectActive && current == Active { return false, NoError; }
      if !expectActive && current == Inactive { return false, NoError; }
      if expectActive {
        if current != Inactive { return true, NoError; }
        calls := calls + [Reactivate(userRef, current)];
        if r.mutation.TookEffect() { zitadel := zitadel[userRef := Active]; }
      } else {
        if current != Active { return true, NoError; }
        calls := calls + [Deactivate(userRef, current)];
        if r.mutation.TookEffect() { zitadel := zitadel[userRef := Inactive]; }
      }
      return false, r.mutation.Verdict();
    }

    method ReconcileOnce(r: Replies)
      modifies this
      ensures Snapshot() == Reconcile(old(Snapshot()), r)
    {
      if !r.userReadable { return; }
      var waiting, err := false, NoError;
      if condition == None || !condition.value.ready || condition.value.reason != state {
        waiting, err := EnsureZitadelUserState(r, state != SUSPENDED);
      }
      var updated := SetCondition(condition, Judge(userRef, state, waiting, err, r.text), r.now);
      if condition != Some(updated) {
        patches := patches + 1;
        if r.patch.TookEffect() {
          condition := Some(updated);
          alignedUser := if updated.ready then userRef else alignedUser;
        }
      }
    }
  }

  // ----- Runs -----

  /** SetUser and DropUser are everybody else's doing in Zitadel: a user is registered, initialized, locked,
      moved by an operator, or deleted. */
  datatype Action =
    | EditState(state: string)
    | EditRef(user: string)
    | SetUser(user: string, to: UserState)
    | DropUser(user: string)
    | Run(replies: Replies)

  function Step(w: World, a: Action): World {
    match a
    case EditState(state) => w.(state := state)
    case EditRef(user) => w.(userRef := user)
    case SetUser(user, to) => w.(zitadel := w.zitadel[user := to])
    case DropUser(user) => w.(zitadel := w.zitadel - {user})
    case Run(r) => Reconcile(w, r)
  }

  function Exec(w: World, acts: seq<Action>): World {
    if acts == [] then w else Step(Exec(w, acts[..|acts| - 1]), acts[|acts| - 1])
  }

  predicate Ready(w: World) { w.condition.Some? && w.condition.value.ready }

  /** What ZitadelReady=True promises of the referenced user: with reason r it is Active exactly when r is
      not Suspended, and Inactive otherwise. */
  predicate RefAligned(w: World) {
    Ready(w) ==>
      && w.userRef in w.zitadel
      && (w.zitadel[w.userRef] == Active <==> w.condition.value.reason != SUSPENDED)
      && (w.zitadel[w.userRef] == Inactive <==> w.condition.value.reason == SUSPENDED)
  }

  /** The reconcile will move the referenced user: the state is new to the condition, the reads go through,
      the user is in the opposite state, and the call takes effect. */
  predicate Moves(w: World, r: Replies) {
    && StateChanged(w) && r.userReadable && r.getOk
    && w.userRef in w.zitadel && w.zitadel[w.userRef] == (if w.state == SUSPENDED then Active else Inactive)
    && r.mutation.TookEffect()
  }

  /** The user is taken, by somebody else, out of the state the condition's reason names. */
  predicate Displaces(w: World, a: Action, user: string)
    requires Ready(w)
  {
    || (a.SetUser? && a.user == user && a.to != Expected(w.condition.value.reason))
    || (a.DropUser? && a.user == user)
  }

  /** The three ways to make a True condition untrue: a move whose status patch is not stored, a reference
      edit to a user that is not in the state the reason names, and somebody else's lock, move or deletion of
      the referenced user. */
  predicate Breaks(w: World, a: Action) {
    Ready(w) &&
      match a
      case Run(r) => Moves(w, r) && !r.patch.TookEffect()
      case EditRef(user) => user !in w.zitadel || w.zitadel[user] != Expected(w.condition.value.reason)
      case _ => Displaces(w, a, w.userRef)
  }

  predicate BreaksNowhere(w: World, acts: seq<Action>) {
    acts == [] || (BreaksNowhere(w, acts[..|acts| - 1]) && !Breaks(Exec(w, acts[..|acts| - 1]), acts[|acts| - 1]))
  }

  /** At every boundary of the run. */
  predicate AlignedThroughout(w: World, acts: seq<Action>) {
    RefAligned(Exec(w, acts)) && (acts == [] || AlignedThroughout(w, acts[..|acts| - 1]))
  }

  /** A reconcile moves the referenced user exactly when all that is needed for it comes together. */
  lemma MovesIff(w: World, r: Replies)
    ensures Reconcile(w, r).zitadel == if Moves(w, r) then w.zitadel[w.userRef := Expected(w.state)] else w.zitadel
    ensures Reconcile(w, r).userRef == w.userRef
  {
  }

  /** What a reconcile leaves in the condition. */
  lemma ConditionAfter(w: World, r: Replies)
    ensures var w' := Reconcile(w, r);
      && (w'.condition == w.condition || r.patch.TookEffect())
      && (w'.condition != w.condition && Ready(w') ==>
            w'.condition.value.reason == w.state && w'.condition.value.message == AlignedTo(w.state)
                && w'.alignedUser == w.userRef)
      && (w'.condition == w.condition ==> w'.alignedUser == w.alignedUser)
      && (Moves(w, r) && r.patch.TookEffect() && Ready(w) ==> w'.condition != w.condition)
      && (Ready(w') && StateChanged(w) && w'.condition != w.condition ==>
            w.userRef in w'.zitadel && w'.zitadel[w.userRef] == Expected(w.state))
      && (Ready(w') && !StateChanged(w) ==> w'.condition.value.reason == w.condition.value.reason)
  {
  }

  /** One action keeps the promise exactly when it does not break it. */
  lemma StepKeepsIff(w: World, a: Action)
    requires RefAligned(w)
    ensures RefAligned(Step(w, a)) <==> !Breaks(w, a)
  {
    if a.Run? {
      MovesIff(w, a.replies);
      ConditionAfter(w, a.replies);
    }
  }

  lemma {:induction false} ThroughoutIff(w: World, acts: seq<Action>)
    requires RefAligned(w)
    ensures AlignedThroughout(w, acts) <==> BreaksNowhere(w, acts)
  {
    if acts != [] {
      ThroughoutIff(w, acts[..|acts| - 1]);
      if AlignedThroughout(w, acts[..|acts| - 1]) { StepKeepsIff(Exec(w, acts[..|acts| - 1]), acts[|acts| - 1]); }
    }
  }

  /** For every run with any edits, any answers and any failures: ZitadelReady=True tells the truth about the
      referenced user at every boundary exactly when no step taken under a True condition is a move of the user
      whose patch is lost, an edit of the reference to a user in another state, or somebody else's change of the
      referenced user to another state. */
  lemma ReadyMeansAligned(userRef: string, state: string, zitadel: map<string, UserState>, acts: seq<Action>)
    ensures AlignedThroughout(World(userRef, state, None, zitadel, [], 0, userRef), acts)
       <==> BreaksNowhere(World(userRef, state, None, zitadel, [], 0, userRef), acts)
  {
    ThroughoutIff(World(userRef, state, None, zitadel, [], 0, userRef), acts);
  }

  /** A True condition tells the state of the user it was set for, wherever the reference points by now. */
  predicate Aligned(w: World) {
    Ready(w) ==>
      && w.alignedUser in w.zitadel && w.zitadel[w.alignedUser] == Expected(w.condition.value.reason)
      && w.condition.value.message == AlignedTo(w.condition.value.reason)
  }

  /** For that user reference edits do no harm; a lost patch does only after moving that very user. */
  predicate Loses(w: World, a: Action) {
    Ready(w) &&
      match a
      case Run(r) => Moves(w, r) && !r.patch.TookEffect() && w.userRef == w.alignedUser
      case _ => Displaces(w, a, w.alignedUser)
  }

  predicate LosesNowhere(w: World, acts: seq<Action>) {
    acts == [] || (LosesNowhere(w, acts[..|acts| - 1]) && !Loses(Exec(w, acts[..|acts| - 1]), acts[|acts| - 1]))
  }

  predicate SetUserThroughout(w: World, acts: seq<Action>) {
    Aligned(Exec(w, acts)) && (acts == [] || SetUserThroughout(w, acts[..|acts| - 1]))
  }

  lemma AlignedIff(w: World, a: Action)
    requires Aligned(w)
    ensures Aligned(Step(w, a)) <==> !Loses(w, a)
  {
    if a.Run? {
      MovesIff(w, a.replies);
      ConditionAfter(w, a.replies);
    }
  }

  lemma {:induction false} AlwaysAligned(w: World, acts: seq<Action>)
    requires Aligned(w)
    ensures SetUserThroughout(w, acts) <==> LosesNowhere(w, acts)
  {
    if acts != [] {
      AlwaysAligned(w, acts[..|acts| - 1]);
      if SetUserThroughout(w, acts[..|acts| - 1]) { AlignedIff(Exec(w, acts[..|acts| - 1]), acts[|acts| - 1]); }
    }
  }

  /** Every mutator was called from the opposite state. */
  predicate CallsFromOpposite(calls: seq<Call>) {
    forall c :: c in calls ==> (c.Reactivate? ==> c.from == Inactive) && (c.Deactivate? ==> c.from == Active)
  }

  lemma EnsureCalls(w: World, r: Replies)
    requires CallsFromOpposite(w.calls)
    ensures CallsFromOpposite(Ensure(w, r).0.calls)
  {
  }

  lemma CallsStep(w: World, a: Action)
    requires CallsFromOpposite(w.calls)
    ensures CallsFromOpposite(Step(w, a).calls)
  {
    if a.Run? {
      EnsureCalls(w, a.replies);
      assert Step(w, a).calls
          == if a.replies.userReadable && StateChanged(w) then Ensure(w, a.replies).0.calls else w.calls;
    }
  }

  lemma {:induction false} MutatesFromOpposite(w: World, acts: seq<Action>)
    requires CallsFromOpposite(w.calls)
    ensures CallsFromOpposite(Exec(w, acts).calls)
  {
    if acts != [] {
      MutatesFromOpposite(w, acts[..|acts| - 1]);
      CallsStep(Exec(w, acts[..|acts| - 1]), acts[|acts| - 1]);
    }
  }

  /** Nothing failed and nothing was lost. */
  predicate ErrorFree(r: Replies) { r.userReadable && r.getOk && r.mutation == Answered(Applied) && r.patch.Applied? }

  /** The condition says of the state and of the user what a reconcile would find. */
  predicate UpToDate(w: World) {
    w.condition.Some? &&
      var Condition(ready, reason, message, _) := w.condition.value;
      || (ready && reason == w.state && message == AlignedTo(w.state))
      || (!ready && reason == NOT_FOUND && message == Missing(w.userRef) && w.userRef !in w.zitadel)
      || (!ready && reason == WAITING && message == Waiting && w.userRef in w.zitadel
          && w.zitadel[w.userRef].OtherState?)
  }

  lemma ErrorFreeUpdates(w: World, r: Replies)
    requires ErrorFree(r)
    ensures UpToDate(Reconcile(w, r))
  {
  }

  lemma UpToDateIsQuiet(w: World, r: Replies)
    requires ErrorFree(r) && UpToDate(w)
    ensures Reconcile(w, r) == w
  {
  }

  /** An error-free reconcile repeated on the same spec makes no Zitadel call and no patch. */
  lemma RepeatIsQuiet(w: World, r1: Replies, r2: Replies)
    requires ErrorFree(r1) && ErrorFree(r2)
    ensures Reconcile(Reconcile(w, r1), r2) == Reconcile(w, r1)
  {
    ErrorFreeUpdates(w, r1);
    UpToDateIsQuiet(Reconcile(w, r1), r2);
  }

  /** After an error-free reconcile that looked at Zitadel, the condition is True exactly when the user
      was Active or Inactive, and the user is then in the state the spec asks for. */
  lemma ReconcileAligns(w: World, r: Replies)
    requires ErrorFree(r) && StateChanged(w)
    ensures var w' := Reconcile(w, r);
      && w'.condition.Some?
      && (w'.condition.value.ready <==> w.userRef in w.zitadel && !w.zitadel[w.userRef].OtherState?)
      && (w'.condition.value.ready
          ==> w'.condition.value.reason == w.state && w'.zitadel[w.userRef] == Expected(w.state))
  {
  }

  /** The controller looks at Zitadel unless its condition is True for the very state asked for. */
  predicate Looks(w: World, r: Replies) {
    r.userReadable && !(w.condition.Some? && w.condition.value.ready && w.condition.value.reason == w.state)
  }

  /** Which calls a reconcile makes: at most one, to wake a user that is Inactive, or to suspend one that is
      Active. */
  lemma CallsMade(w: World, r: Replies)
    ensures Reconcile(w, r).calls
         == w.calls
            + if !Looks(w, r) || !r.getOk || w.userRef !in w.zitadel then []
              else if w.state != "Suspended" && w.zitadel[w.userRef] == Inactive then [Reactivate(w.userRef, Inactive)]
              else if w.state == "Suspended" && w.zitadel[w.userRef] == Active then [Deactivate(w.userRef, Active)]
              else []
  {
  }

  /** Which reason a reconcile that looks gives. */
  lemma ReasonGiven(w: World, r: Replies)
    requires Looks(w, r) && r.patch.TookEffect()
    ensures Reconcile(w, r).condition.Some?
    ensures var condition := Reconcile(w, r).condition.value;
      var asked := if w.state == "Suspended" then Inactive else Active;
      if !r.getOk then !condition.ready && condition.reason == "SyncFailed"
      else if w.userRef !in w.zitadel then !condition.ready && condition.reason == "ZitadelUserNotFound"
      else if w.zitadel[w.userRef] == asked then condition.ready && condition.reason == w.state
      else if w.zitadel[w.userRef].OtherState? then !condition.ready && condition.reason == "WaitingForUserState"
      else
        match r.mutation
        case NoSuchUser => !condition.ready && condition.reason == "ZitadelUserNotFound"
        case Answered(Applied) => condition.ready && condition.reason == w.state
        case Answered(_) => !condition.ready && condition.reason == "SyncFailed"
  {
  }

  /** The transition time moves exactly with the status. */
  lemma TransitionTime(w: World, r: Replies)
    requires r.userReadable && r.patch.TookEffect()
    ensures Reconcile(w, r).condition.Some?
    ensures var condition := Reconcile(w, r).condition.value;
      condition.since
      == if w.condition.Some? && w.condition.value.ready == condition.ready then w.condition.value.since else r.now
  {
  }

  /** Whatever was edited before, an error-free reconcile of an access object that tells the truth leaves a
      condition for the state asked for, True exactly if the user was Active or Inactive, and the user as asked. */
  lemma ErrorFreeAligns(w: World, r: Replies)
    requires ErrorFree(r) && RefAligned(w)
    ensures var w' := Reconcile(w, r);
      && RefAligned(w') && w'.condition.Some?
      && (Ready(w') <==> w.userRef in w.zitadel && w.zitadel[w.userRef] in {Active, Inactive})
      && (Ready(w') ==>
            && w'.condition.value.reason == w.state && w.userRef in w'.zitadel
            && w'.zitadel[w.userRef] == if w.state == "Suspended" then Inactive else Active)
  {
    StepKeepsIff(w, Run(r));
    MovesIff(w, r);
    if Looks(w, r) { ReasonGiven(w, r); }
  }

  // ----- What the breaks lead to -----

  /** A True condition for the current state is taken at its word: no run of reconciles, whatever they
      are answered, looks at Zitadel again. */
  lemma {:induction false} TrustsItsStatus(w: World, rs: seq<Action>)
    requires !StateChanged(w) && w.condition.value.message == AlignedTo(w.state) && forall a :: a in rs ==> a.Run?
    ensures Exec(w, rs) == w
  {
    if rs != [] {
      TrustsItsStatus(w, rs[..|rs| - 1]);
      assert rs[|rs| - 1] in rs;
    }
  }

  /** A lost patch strands the user: suspended in Zitadel, then approved again before the condition was
      repaired, it stays Inactive however often the object is reconciled. */
  lemma LostPatchStrands(user: string, approved: string, rs: seq<Action>)
    requires approved != SUSPENDED && forall a :: a in rs ==> a.Run?
    ensures var ok := Replies(0, true, true, Answered(Applied), Applied, "");
      var start := World(user, approved, None, map[user := Active], [], 0, user);
      var w := Exec(Step(Step(Step(Step(start, Run(ok)), EditState(SUSPENDED)), Run(ok.(patch := Rejected))),
          EditState(approved)), rs);
      w.state == approved && !StateChanged(w) && user in w.zitadel && w.zitadel[user] == Inactive
  {
    var ok := Replies(0, true, true, Answered(Applied), Applied, "");
    var start := World(user, approved, None, map[user := Active], [], 0, user);
    var w := Step(Step(Step(Step(start, Run(ok)), EditState(SUSPENDED)), Run(ok.(patch := Rejected))),
        EditState(approved));
    assert w.zitadel[user] == Inactive && w.condition.value.reason == approved;
    TrustsItsStatus(w, rs);
  }

  /** A lock or a deletion is never noticed: the access object keeps its True condition for a user that is
      locked, or gone, however often it is reconciled. */
  lemma DisplacedIsIgnored(w: World, a: Action, rs: seq<Action>)
    requires Ready(w) && !StateChanged(w) && w.condition.value.message == AlignedTo(w.state) && RefAligned(w)
    requires Displaces(w, a, w.userRef) && forall b :: b in rs ==> b.Run?
    ensures var w' := Exec(Step(w, a), rs);
      w'.condition == w.condition && w'.userRef == w.userRef && !RefAligned(w')
  {
    StepKeepsIff(w, a);
    TrustsItsStatus(Step(w, a), rs);
  }

  /** An edited reference alone is never acted on: a suspended access object moved to another user leaves
      that user Active however often it is reconciled. */
  lemma EditedRefIgnored(user: string, other: string, rs: seq<Action>)
    requires user != other && forall a :: a in rs ==> a.Run?
    ensures var ok := Replies(0, true, true, Answered(Applied), Applied, "");
      var start := World(user, SUSPENDED, None, map[user := Active, other := Active], [], 0, user);
      var w := Exec(Step(Step(start, Run(ok)), EditRef(other)), rs);
      w.userRef == other && w.state == SUSPENDED && !StateChanged(w) && other in w.zitadel && w.zitadel[other] == Active
  {
    var ok := Replies(0, true, true, Answered(Applied), Applied, "");
    var start := World(user, SUSPENDED, None, map[user := Active, other := Active], [], 0, user);
    var w := Step(Step(start, Run(ok)), EditRef(other));
    assert w.zitadel[other] == Active && w.condition.value.reason == SUSPENDED;
    TrustsItsStatus(w, rs);
  }
}
