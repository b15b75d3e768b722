/** The ServiceAccount reconciler: it keeps one Zitadel organization and one machine user per object and
    remembers, in the object's status, the state it last put that user in. */
module ServiceAccount {
  import opened Wrappers

  const ACTIVE := "Active"
  const INACTIVE := "Inactive"

  /** What the reconciler derives from the object and its cluster. */
  datatype Identity = Identity(uid: string, org: string, name: string, email: string)

  datatype Machine = Machine(org: string, email: string, name: string, active: bool)

  datatype Status = Status(clientId: string, email: string, state: string, ready: bool)

  /** The API object; `ours` and `foreign` say whether the reconciler's or anybody else's finalizer is on it. */
  datatype Account = Account(ours: bool, foreign: bool, deleting: bool, spec: string, status: Status)

  datatype Call =
    | CreateOrg(org: string)
    | CreateUser(org: string, user: string)
    | Reactivate(org: string, user: string)
    | Deactivate(org: string, user: string)
    | DeleteUser(user: string)

  datatype World = World(orgs: set<string>, users: map<string, Machine>, account: Option<Account>, calls: seq<Call>)

  /** The environment's side of one reconcile. */
  datatype Replies = Replies(
    readOk: bool, finalizeGetOk: bool, deletion: Outcome, finalizerUpdate: Outcome,
    orgGetOk: bool, orgCreation: Outcome, userGetOk: bool, userCreation: Outcome, createdId: string,
    stateCall: Outcome, statusUpdate: Outcome)

  function Log(w: World, call: Call): World { w.(calls := w.calls + [call]) }

  function WithAccount(w: World, a: Account): World { w.(account := Some(a)) }

  /** An object marked for deletion leaves the API server with its last finalizer. */
  function Settle(a: Account): Option<Account> { if a.deleting && !a.ours && !a.foreign then None else Some(a) }

  // ----- The stages of one reconcile: (world after, go on) -----

  function Finalize(w: World, id: Identity, r: Replies): (World, bool) {
    if !r.finalizeGetOk then (w, false)
    else if id.uid !in w.users then (w, true)
    else
      var called := Log(w, DeleteUser(id.uid));
      (if r.deletion.TookEffect() then called.(users := w.users - {id.uid}) else called, r.deletion.ReportedOk())
  }

  /** The finalizer has nothing to do: it is on a live object, or already off a dying one. */
  predicate PastFinalizers(a: Account) { a.ours != a.deleting }

  function RunFinalizers(w: World, id: Identity, r: Replies): World
    requires w.account.Some? && !PastFinalizers(w.account.value)
  {
    var a := w.account.value;
    var (w', ok) := if a.deleting then Finalize(w, id, r) else (w, true);
    if ok && r.finalizerUpdate.TookEffect() then w'.(account := Settle(a.(ours := !a.deleting))) else w'
  }

  function EnsureOrg(w: World, id: Identity, r: Replies): (World, bool) {
    if !r.orgGetOk then (w, false)
    else if id.org in w.orgs then (w, true)
    else
      var called := Log(w, CreateOrg(id.org));
      (if r.orgCreation.TookEffect() then called.(orgs := w.orgs + {id.org}) else called, r.orgCreation.ReportedOk())
  }

  /** (world after, the user's ID, go on). */
  function EnsureUser(w: World, id: Identity, r: Replies): (World, string, bool) {
    if !r.userGetOk then (w, "", false)
    else if id.uid in w.users then (w, id.uid, true)
    else
      var called := Log(w, CreateUser(id.org, id.uid));
      (if r.userCreation.TookEffect()
          then called.(users := w.users[id.uid := Machine(id.org, id.email, id.name, true)]) else called,
       r.createdId, r.userCreation.ReportedOk())
  }

  function AlignState(w: World, id: Identity, a: Account, r: Replies): (World, bool) {
    if a.status.state == a.spec then (w, true)
    else if a.spec == ACTIVE && a.status.state == "" then (w, true)
    else if a.spec != ACTIVE && a.spec != INACTIVE then (w, false)
    else
      var active := a.spec == ACTIVE;
      var called := Log(w, if active then Reactivate(id.org, id.uid) else Deactivate(id.org, id.uid));
      (if r.stateCall.TookEffect() && id.uid in w.users
          then called.(users := w.users[id.uid := w.users[id.uid].(active := active)]) else called,
       r.stateCall.ReportedOk())
  }

  function WriteStatus(w: World, id: Identity, a: Account, clientId: string, r: Replies): World {
    if a.deleting || clientId == "" || !r.statusUpdate.TookEffect() then w
    else WithAccount(w, a.(status := Status(clientId, id.email, a.spec, true)))
  }

  /** The world as it is when the state is looked at. */
  function Ensured(w: World, id: Identity, r: Replies): (World, string, bool) {
    var (w1, ok) := EnsureOrg(w, id, r);
    if ok then EnsureUser(w1, id, r) else (w1, "", false)
  }

  /** The last two stages, on a world in which organization and user have been ensured. */
  function Finish(w: World, id: Identity, a: Account, clientId: string, r: Replies): World {
    var (w3, aligned) := AlignState(w, id, a, r);
    if aligned then WriteStatus(w3, id, a, clientId, r) else w3
  }

  function Reconcile(w: World, id: Identity, r: Replies): World {
    if !r.readOk || w.account.None? then w
    else if !PastFinalizers(w.account.value) then RunFinalizers(w, id, r)
    else
      var (w2, clientId, ok) := Ensured(w, id, r);
      if ok then Finish(w2, id, w.account.value, clientId, r) else w2
  }

  // ----- The controller -----

  class ServiceAccountController {
    var orgs: set<string>
    var users: map<string, Machine>
    var account: Option<Account>
    ghost var calls: seq<Call>

    constructor (orgs: set<string>, users: map<string, Machine>, account: Option<Account>)
      ensures Snapshot() == World(orgs, users, account, [])
    {
      this.orgs, this.users, this.account := orgs, users, account;
      calls := [];
    }

    ghost function Snapshot(): World
      reads this
    {
      World(orgs, users, account, calls)
    }

    method FinalizeAccount(id: Identity, r: Replies) returns (ok: bool)
      modifies this`users, this`calls
      ensures (Snapshot(), ok) == Finalize(old(Snapshot()), id, r)
    {
      if !r.finalizeGetOk { return false; }
      if id.uid !in users { return true; }
      calls := calls + [DeleteUser(id.uid)];
      if r.deletion.TookEffect() { users := users - {id.uid}; }
      return r.deletion.ReportedOk();
    }

    /** The finalizer library, then the Update that stores what it changed. */
    method RunFinalizersOnce(id: Identity, r: Replies) returns (done: bool)
      requires account.Some?
      modifies this
      ensures done <==> !PastFinalizers(old(account.value))
      ensures Snapshot() == if done then RunFinalizers(old(Snapshot()), id, r) else old(Snapshot())
    {
      var updated := account.value;
      if !updated.deleting {
        if updated.ours { return false; }
        updated := updated.(ours := true);
      } else {
        if !updated.ours { return false; }
        var ok := FinalizeAccount(id, r);
        if !ok { return true; }
        updated := updated.(ours := false);
      }
      if r.finalizerUpdate.TookEffect() { account := Settle(updated); }
      return true;
    }

    method UpdateServiceAccountState(id: Identity, r: Replies) returns (ok: bool)
      requires account.Some? && account.value.status.state != account.value.spec
      modifies this`users, this`calls
      ensures (Snapshot(), ok) == AlignState(old(Snapshot()), id, old(account.value), r)
    {
      var skipUpdate, active := false, true;
      if account.value.spec == ACTIVE {
        if account.value.status.state == "" { skipUpdate := true; }
      } else if account.value.spec == INACTIVE {
        active := false;
      } else {
        return false;
      }
      if !skipUpdate {
        calls := calls + [if active then Reactivate(id.org, id.uid) else Deactivate(id.org, id.uid)];
        if r.stateCall.TookEffect() && id.uid in users { users := users[id.uid := users[id.uid].(active := active)]; }
        if !r.stateCall.ReportedOk() { return false; }
      }
      return true;
    }

    method ReconcileOnce(id: Identity, r: Replies)
      modifies this
      ensures Snapshot() == Reconcile(old(Snapshot()), id, r)
    {
      if !r.readOk || account == None { return; }
      var done := RunFinalizersOnce(id, r);
      if done || !r.orgGetOk { return; }
      if id.org !in orgs {
        calls := calls + [CreateOrg(id.org)];
        if r.orgCreation.TookEffect() { orgs := orgs + {id.org}; }
        if !r.orgCreation.ReportedOk() { return; }
      }
      if !r.userGetOk { return; }
      var clientId := id.uid;
      if id.uid !in users {
        calls := calls + [CreateUser(id.org, id.uid)];
        if r.userCreation.TookEffect() { users := users[id.uid := Machine(id.org, id.email, id.name, true)]; }
        if !r.userCreation.ReportedOk() { return; }
        clientId := r.createdId;
      }
      assert (Snapshot(), clientId, true) == Ensured(old(Snapshot()), id, r);
      if account.value.status.state != account.value.spec {
        var ok := UpdateServiceAccountState(id, r);
        if !ok { return; }
      }
      if account.value.deleting || clientId == "" { return; }
      if r.statusUpdate.TookEffect() {
        account := Some(account.value.(status := Status(clientId, id.email, account.value.spec, true)));
      }
    }
  }

  // ----- Runs -----

  /** Anybody may edit the spec, ask for deletion, put on (a live object) or take off a foreign finalizer,
      change organizations, and set, or delete, the machine user in Zitadel's console. */
  datatype Action =
    | EditSpec(state: string)
    | Delete
    | AddForeign
    | DropForeign
    | SetOrgs(orgs: set<string>)
    | SetMachine(active: bool)
    | DropMachine
    | Run(replies: Replies)

  function EditAccount(a: Account, act: Action): Option<Account> {
    match act
    case EditSpec(state) => Some(a.(spec := state))
    case Delete => Settle(a.(deleting := true))
    case AddForeign => Some(if a.deleting then a else a.(foreign := true))
    case DropForeign => Settle(a.(foreign := false))
    case _ => Some(a)
  }

  function Step(w: World, id: Identity, act: Action): World {
    match act
    case Run(r) => Reconcile(w, id, r)
    case SetOrgs(orgs) => w.(orgs := orgs)
    case SetMachine(active) =>
      if id.uid in w.users then w.(users := w.users[id.uid := w.users[id.uid].(active := active)]) else w
    case DropMachine => w.(users := w.users - {id.uid})
    case _ => if w.account.None? then w else w.(account := EditAccount(w.account.value, act))
  }

  function Exec(w: World, id: Identity, acts: seq<Action>): World {
    if acts == [] then w else Step(Exec(w, id, acts[..|acts| - 1]), id, acts[|acts| - 1])
  }

  /** A fresh object: no finalizer of ours, empty status, no machine user under its UID. */
  predicate Created(w: World, id: Identity) {
    w.account.Some? && !w.account.value.ours && !w.account.value.deleting
    && w.account.value.status == Status("", "", "", false) && id.uid !in w.users
  }

  predicate ReachesStages(w: World, r: Replies) {
    r.readOk && w.account.Some? && PastFinalizers(w.account.value) && !w.account.value.deleting
  }

  /** Organization and user are read, or made, without an error. */
  predicate Provides(w: World, id: Identity, r: Replies) {
    && r.orgGetOk && (id.org in w.orgs || r.orgCreation.ReportedOk())
    && r.userGetOk && (id.uid in w.users || r.userCreation.ReportedOk())
  }

  /** The spec and the status call for a reactivation or a deactivation. */
  predicate AsksState(a: Account) {
    a.status.state != a.spec && (a.spec == INACTIVE || (a.spec == ACTIVE && a.status.state != ""))
  }

  /** The reconcile's state call will take effect and its status update will not be stored: the call's answer
      is lost, the creation returned an empty ID, or the update itself is refused. */
  predicate LosesUpdate(w: World, id: Identity, r: Replies) {
    && ReachesStages(w, r) && Provides(w, id, r) && AsksState(w.account.value) && r.stateCall.TookEffect()
    && !(r.stateCall.ReportedOk() && (if id.uid in w.users then id.uid else r.createdId) != ""
        && r.statusUpdate.TookEffect())
  }

  /** The two ways to make a live object's status untrue of its machine user: such a reconcile, and a change
      in the console that the status does not say. */
  predicate Strands(w: World, id: Identity, act: Action) {
    match act
    case Run(r) => LosesUpdate(w, id, r)
    case SetMachine(active) =>
      w.account.Some? && !w.account.value.deleting && id.uid in w.users
          && active != (w.account.value.status.state != INACTIVE)
    case DropMachine => w.account.Some? && !w.account.value.deleting && w.account.value.status.state != ""
    case _ => false
  }

  predicate StrandsNowhere(w: World, id: Identity, acts: seq<Action>) {
    acts == [] || (StrandsNowhere(w, id, acts[..|acts| - 1])
        && !Strands(Exec(w, id, acts[..|acts| - 1]), id, acts[|acts| - 1]))
  }

  /** The status of a live object tells the machine user's state. */
  predicate StatusTells(w: World, id: Identity) {
    w.account.Some? && !w.account.value.deleting ==>
      var s := w.account.value.status.state;
      && (s == "" || s == ACTIVE || s == INACTIVE)
      && (s != "" ==> id.uid in w.users)
      && (id.uid in w.users ==> w.users[id.uid].active == (s != INACTIVE))
  }

  /** At every boundary of the run. */
  predicate TellsThroughout(w: World, id: Identity, acts: seq<Action>) {
    StatusTells(Exec(w, id, acts), id) && (acts == [] || TellsThroughout(w, id, acts[..|acts| - 1]))
  }

  lemma EnsuredKeeps(w: World, id: Identity, r: Replies)
    requires StatusTells(w, id) && w.account.Some? && !w.account.value.deleting
    ensures StatusTells(Ensured(w, id, r).0, id) && Ensured(w, id, r).0.account == w.account
    ensures Ensured(w, id, r).2 ==> id.uid in Ensured(w, id, r).0.users
  {
  }

  lemma EnsuredIsProvided(w: World, id: Identity, r: Replies)
    ensures Ensured(w, id, r).2 <==> Provides(w, id, r)
    ensures Ensured(w, id, r).2 ==> Ensured(w, id, r).1 == if id.uid in w.users then id.uid else r.createdId
  {
  }

  lemma FinishIff(w: World, id: Identity, a: Account, clientId: string, r: Replies)
    requires StatusTells(w, id) && w.account == Some(a) && !a.deleting && id.uid in w.users
    ensures StatusTells(Finish(w, id, a, clientId, r), id)
       <==> (AsksState(a) && r.stateCall.TookEffect() ==>
               r.stateCall.ReportedOk() && clientId != "" && r.statusUpdate.TookEffect())
  {
  }

  lemma RunIff(w: World, id: Identity, r: Replies)
    requires StatusTells(w, id)
    ensures StatusTells(Reconcile(w, id, r), id) <==> !LosesUpdate(w, id, r)
  {
    if ReachesStages(w, r) {
      EnsuredKeeps(w, id, r);
      EnsuredIsProvided(w, id, r);
      var (w2, clientId, ok) := Ensured(w, id, r);
      if ok { FinishIff(w2, id, w.account.value, clientId, r); }
    }
  }

  /** One action keeps the promise exactly when it does not strand the user. */
  lemma StepKeepsIff(w: World, id: Identity, act: Action)
    requires StatusTells(w, id)
    ensures StatusTells(Step(w, id, act), id) <==> !Strands(w, id, act)
  {
    if act.Run? { RunIff(w, id, act.replies); }
  }

  lemma {:induction false} ThroughoutIff(w: World, id: Identity, acts: seq<Action>)
    requires StatusTells(w, id)
    ensures TellsThroughout(w, id, acts) <==> StrandsNowhere(w, id, acts)
  {
    if acts != [] {
      ThroughoutIff(w, id, acts[..|acts| - 1]);
      if TellsThroughout(w, id, acts[..|acts| - 1]) {
        StepKeepsIff(Exec(w, id, acts[..|acts| - 1]), id, acts[|acts| - 1]);
      }
    }
  }

  /** For every run, whatever fails: at every boundary a live object's status is one of the two states or
      empty, a non-empty one is the machine user's state, and under an empty one the user, if it exists, is
      active, exactly when no reconcile of the run loses a status update and no console action contradicts the
      status. */
  lemma StatusAlwaysTells(w: World, id: Identity, acts: seq<Action>)
    requires Created(w, id)
    ensures TellsThroughout(w, id, acts) <==> StrandsNowhere(w, id, acts)
  {
    ThroughoutIff(w, id, acts);
  }

  /** The machine user exists only behind the finalizer. */
  predicate UserIsHeld(w: World, id: Identity) {
    id.uid in w.users ==> w.account.Some? && w.account.value.ours
  }

  /** A reconcile of a dying object whose finalizer is already off, so that only a foreign one keeps it,
      reaches the creation of a machine user, and that takes effect. */
  predicate Recreates(w: World, id: Identity, act: Action) {
    act.Run? &&
      var r := act.replies;
      && r.readOk && w.account.Some? && w.account.value.deleting && !w.account.value.ours
      && r.orgGetOk && (id.org in w.orgs || r.orgCreation.ReportedOk())
      && r.userGetOk && r.userCreation.TookEffect()
  }

  predicate RecreatesNowhere(w: World, id: Identity, acts: seq<Action>) {
    acts == [] || (RecreatesNowhere(w, id, acts[..|acts| - 1])
        && !Recreates(Exec(w, id, acts[..|acts| - 1]), id, acts[|acts| - 1]))
  }

  predicate HeldThroughout(w: World, id: Identity, acts: seq<Action>) {
    UserIsHeld(Exec(w, id, acts), id) && (acts == [] || HeldThroughout(w, id, acts[..|acts| - 1]))
  }

  lemma HeldRunIff(w: World, id: Identity, r: Replies)
    requires UserIsHeld(w, id)
    ensures UserIsHeld(Reconcile(w, id, r), id) <==> !Recreates(w, id, Run(r))
  {
    EnsuredIsProvided(w, id, r);
  }

  lemma HeldStepIff(w: World, id: Identity, act: Action)
    requires UserIsHeld(w, id)
    ensures UserIsHeld(Step(w, id, act), id) <==> !Recreates(w, id, act)
  {
    if act.Run? { HeldRunIff(w, id, act.replies); }
  }

  /** For every run, whatever fails or is lost: at every boundary the machine user exists only while the object
      is there with the finalizer on it, exactly when no reconcile of the run makes it again on a dying object. */
  lemma {:induction false} NoAccountLeftBehind(w: World, id: Identity, acts: seq<Action>)
    requires UserIsHeld(w, id)
    ensures HeldThroughout(w, id, acts) <==> RecreatesNowhere(w, id, acts)
  {
    if acts != [] {
      NoAccountLeftBehind(w, id, acts[..|acts| - 1]);
      if HeldThroughout(w, id, acts[..|acts| - 1]) {
        HeldStepIff(Exec(w, id, acts[..|acts| - 1]), id, acts[|acts| - 1]);
      }
    }
  }

  predicate NoForeign(w: World) {
    w.account.Some? ==> !w.account.value.foreign && (w.account.value.deleting ==> w.account.value.ours)
  }

  lemma NoForeignStep(w: World, id: Identity, act: Action)
    requires NoForeign(w) && !act.AddForeign?
    ensures NoForeign(Step(w, id, act)) && !Recreates(w, id, act)
  {
  }

  /** It never happens without a foreign finalizer. */
  lemma {:induction false} NoForeignNoneLeft(w: World, id: Identity, acts: seq<Action>)
    requires Created(w, id) && !w.account.value.foreign && forall a :: a in acts ==> !a.AddForeign?
    ensures RecreatesNowhere(w, id, acts) && NoForeign(Exec(w, id, acts))
    ensures HeldThroughout(w, id, acts)
  {
    if acts != [] {
      NoForeignNoneLeft(w, id, acts[..|acts| - 1]);
      assert acts[|acts| - 1] in acts;
      NoForeignStep(Exec(w, id, acts[..|acts| - 1]), id, acts[|acts| - 1]);
    }
    NoAccountLeftBehind(w, id, acts);
  }

  // ----- The fixpoint -----

  predicate ErrorFree(r: Replies, id: Identity) {
    && r.readOk && r.finalizeGetOk && r.deletion.Applied? && r.finalizerUpdate.Applied?
    && r.orgGetOk && r.orgCreation.Applied?
    && r.userGetOk && r.userCreation.Applied? && r.createdId == id.uid
    && r.stateCall.Applied? && r.statusUpdate.Applied?
  }

  /** Everything the object asks for is there. */
  predicate Settled(w: World, id: Identity) {
    && w.account.Some? && PastFinalizers(w.account.value) && !w.account.value.deleting
    && id.org in w.orgs && id.uid in w.users
    && w.users[id.uid].active == (w.account.value.spec == ACTIVE)
    && w.account.value.status == Status(id.uid, id.email, w.account.value.spec, true)
  }

  predicate Live(w: World) {
    w.account.Some? && !w.account.value.deleting && (w.account.value.spec == ACTIVE || w.account.value.spec == INACTIVE)
  }

  /** One error-free reconcile past the finalizer step settles the object, where the status tells the
      user's state. */
  lemma OneReconcileSettles(w: World, id: Identity, r: Replies)
    requires Live(w) && w.account.value.ours && StatusTells(w, id) && ErrorFree(r, id) && id.uid != ""
    ensures Settled(Reconcile(w, id, r), id)
  {
    EnsuredKeeps(w, id, r);
  }

  /** The first reconcile only puts the finalizer on. */
  lemma FinalizerFirst(w: World, id: Identity, r: Replies)
    requires Live(w) && !w.account.value.ours && ErrorFree(r, id)
    ensures Reconcile(w, id, r) == WithAccount(w, w.account.value.(ours := true))
  {
  }

  /** A settled object is a fixpoint: the next error-free reconcile calls no Zitadel mutation and leaves
      both stores as they are. */
  lemma SettledIsFixpoint(w: World, id: Identity, r: Replies)
    requires Settled(w, id) && ErrorFree(r, id) && id.uid != ""
    ensures Reconcile(w, id, r) == w
  {
  }

  /** The machine user is in the organization of its project, under its computed address and its name. */
  predicate MadeFor(w: World, id: Identity) {
    id.uid in w.users ==>
      w.users[id.uid].org == id.org && w.users[id.uid].email == id.email && w.users[id.uid].name == id.name
  }

  lemma EnsuredMadeFor(w: World, id: Identity, r: Replies)
    requires MadeFor(w, id)
    ensures MadeFor(Ensured(w, id, r).0, id)
  {
  }

  lemma FinishMadeFor(w: World, id: Identity, a: Account, clientId: string, r: Replies)
    requires MadeFor(w, id)
    ensures MadeFor(Finish(w, id, a, clientId, r), id)
  {
  }

  lemma MadeForRun(w: World, id: Identity, r: Replies)
    requires MadeFor(w, id)
    ensures MadeFor(Reconcile(w, id, r), id)
  {
    if r.readOk && w.account.Some? && PastFinalizers(w.account.value) {
      var (w2, clientId, ok) := Ensured(w, id, r);
      EnsuredMadeFor(w, id, r);
      FinishMadeFor(w2, id, w.account.value, clientId, r);
    }
  }

  /** In every run the machine user is the one the object asks for. */
  lemma {:induction false} AlwaysMadeFor(w: World, id: Identity, acts: seq<Action>)
    requires MadeFor(w, id)
    ensures MadeFor(Exec(w, id, acts), id)
  {
    if acts != [] {
      AlwaysMadeFor(w, id, acts[..|acts| - 1]);
      if acts[|acts| - 1].Run? { MadeForRun(Exec(w, id, acts[..|acts| - 1]), id, acts[|acts| - 1].replies); }
    }
  }

  /** After any run that strands nobody, two error-free reconciles settle a live object with a valid state: the
      machine user is the one asked for, in the state asked for. The third changes nothing. */
  lemma TwoReconcilesSettle(w: World, id: Identity, acts: seq<Action>, r1: Replies, r2: Replies, r3: Replies)
    requires Created(w, id) && StrandsNowhere(w, id, acts) && Live(Exec(w, id, acts)) && id.uid != ""
    requires ErrorFree(r1, id) && ErrorFree(r2, id) && ErrorFree(r3, id)
    ensures var reached := Exec(w, id, acts);
      var done := Reconcile(Reconcile(reached, id, r1), id, r2);
      && Settled(done, id) && Reconcile(done, id, r3) == done
      && id.uid in done.users
      && done.users[id.uid] == Machine(id.org, id.email, id.name, reached.account.value.spec == "Active")
  {
    var reached := Exec(w, id, acts);
    StatusAlwaysTells(w, id, acts);
    AlwaysMadeFor(w, id, acts);
    MadeForRun(reached, id, r1);
    MadeForRun(Reconcile(reached, id, r1), id, r2);
    if reached.account.value.ours {
      OneReconcileSettles(reached, id, r1);
      SettledIsFixpoint(Reconcile(reached, id, r1), id, r2);
      SettledIsFixpoint(Reconcile(reached, id, r1), id, r3);
      SpecStays(reached, id, r1);
    } else {
      FinalizerFirst(reached, id, r1);
      OneReconcileSettles(Reconcile(reached, id, r1), id, r2);
      SettledIsFixpoint(Reconcile(Reconcile(reached, id, r1), id, r2), id, r3);
      SpecStays(Reconcile(reached, id, r1), id, r2);
    }
  }

  lemma SpecStays(w: World, id: Identity, r: Replies)
    requires w.account.Some?
    ensures var w' := Reconcile(w, id, r); w'.account.Some? ==> w'.account.value.spec == w.account.value.spec
  {
  }

  /** One error-free reconcile of a dying object that still carries the finalizer deletes the machine user
      and lets go of the object; nothing else in Zitadel changes. */
  lemma OneReconcileDrains(w: World, id: Identity, r: Replies)
    requires w.account.Some? && w.account.value.deleting && w.account.value.ours && ErrorFree(r, id)
    ensures var w' := Reconcile(w, id, r);
      && w'.users == w.users - {id.uid} && w'.orgs == w.orgs
      && (w'.account.Some? <==> w.account.value.foreign)
      && (w'.account.Some? ==> !w'.account.value.ours && w'.account.value.deleting)
  {
  }

  /** What may be asked of Zitadel, from the stores before (`w`) and after (`w'`) the reconcile: a user only in
      an organization that is there, a state only of a user that is there, the state the spec names and the
      status does not, and a deletion only of a dying object that still carries the finalizer. */
  predicate Due(w: World, w': World, id: Identity, a: Account, call: Call) {
    match call
    case CreateOrg(org) => org == id.org && org !in w.orgs
    case CreateUser(org, user) => org == id.org && user == id.uid && org in w'.orgs && user !in w.users
    case Reactivate(org, user) => org == id.org && user == id.uid && user in w'.users && a.spec == ACTIVE
        && a.status.state !in {"", ACTIVE}
    case Deactivate(org, user) => org == id.org && user == id.uid && user in w'.users && a.spec == INACTIVE
        && a.status.state != INACTIVE
    case DeleteUser(user) => user == id.uid && a.deleting && a.ours && user in w.users
  }

  /** The calls between two states of the log. */
  predicate AllDue(w: World, w': World, id: Identity, a: Account, from: World, to: World) {
    |from.calls| <= |to.calls| && from.calls == to.calls[..|from.calls|]
    && forall call :: call in to.calls[|from.calls|..] ==> Due(w, w', id, a, call)
  }

  lemma OneDue(w: World, w': World, id: Identity, a: Account, from: World, to: World, call: Call)
    requires to.calls == from.calls || (to.calls == from.calls + [call] && Due(w, w', id, a, call))
    ensures AllDue(w, w', id, a, from, to)
  {
  }

  lemma DueChains(w: World, w': World, id: Identity, a: Account, x: World, y: World, z: World)
    requires AllDue(w, w', id, a, x, y) && AllDue(w, w', id, a, y, z)
    ensures AllDue(w, w', id, a, x, z)
  {
    assert z.calls[|x.calls|..] == y.calls[|x.calls|..] + z.calls[|y.calls|..];
  }

  lemma EnsuredCallsAreDue(w: World, w': World, id: Identity, a: Account, r: Replies)
    requires var w2 := Ensured(w, id, r).0; w2.orgs <= w'.orgs
    ensures AllDue(w, w', id, a, w, Ensured(w, id, r).0)
  {
    var w1 := EnsureOrg(w, id, r).0;
    var w2 := Ensured(w, id, r).0;
    OneDue(w, w', id, a, w, w1, CreateOrg(id.org));
    OneDue(w, w', id, a, w1, w2, CreateUser(id.org, id.uid));
    DueChains(w, w', id, a, w, w1, w2);
  }

  lemma AlignCallsAreDue(w: World, w': World, id: Identity, a: Account, r: Replies, from: World)
    requires id.uid in w'.users
    ensures AllDue(w, w', id, a, from, AlignState(from, id, a, r).0)
  {
    var call := if a.spec == ACTIVE then Reactivate(id.org, id.uid) else Deactivate(id.org, id.uid);
    OneDue(w, w', id, a, from, AlignState(from, id, a, r).0, call);
  }

  /** Every call a reconcile makes is due. */
  lemma CallsAreDue(w: World, id: Identity, r: Replies)
    requires w.account.Some?
    ensures AllDue(w, Reconcile(w, id, r), id, w.account.value, w, Reconcile(w, id, r))
  {
    var w', a := Reconcile(w, id, r), w.account.value;
    if !r.readOk || !PastFinalizers(a) {
      OneDue(w, w', id, a, w, w', DeleteUser(id.uid));
    } else {
      var (w2, clientId, ok) := Ensured(w, id, r);
      var w3 := if ok then AlignState(w2, id, a, r).0 else w2;
      assert w'.calls == w3.calls && w'.users == w3.users && w'.orgs == w3.orgs == w2.orgs;
      EnsuredCallsAreDue(w, w', id, a, r);
      if ok {
        AlignCallsAreDue(w, w', id, a, r, w2);
        DueChains(w, w', id, a, w, w2, w3);
      }
    }
  }

  lemma OrgIsCalled(w: World, id: Identity, r: Replies)
    ensures var t := EnsureOrg(w, id, r).0;
      w.calls <= t.calls && t.users == w.users && (t.orgs != w.orgs ==> CreateOrg(id.org) in t.calls)
  {
  }

  lemma UserIsCalled(w: World, id: Identity, r: Replies)
    ensures var t := EnsureUser(w, id, r).0;
      && w.calls <= t.calls && t.orgs == w.orgs
      && (t.users == w.users || (id.uid !in w.users && CreateUser(id.org, id.uid) in t.calls))
  {
  }

  lemma EnsuredIsCalled(w: World, id: Identity, r: Replies)
    ensures var t := Ensured(w, id, r).0;
      && w.calls <= t.calls && (t.orgs != w.orgs ==> CreateOrg(id.org) in t.calls)
      && (t.users == w.users || (id.uid !in w.users && CreateUser(id.org, id.uid) in t.calls))
  {
    var w1 := EnsureOrg(w, id, r).0;
    OrgIsCalled(w, id, r);
    UserIsCalled(w1, id, r);
    if w1.orgs != w.orgs { CallsStay(w1.calls, Ensured(w, id, r).0.calls, CreateOrg(id.org)); }
  }

  lemma CallsStay(before: seq<Call>, after: seq<Call>, call: Call)
    requires before <= after && call in before
    ensures call in after
  {
    var i :| 0 <= i < |before| && before[i] == call;
    assert after[i] == call;
  }

  lemma StateIsCalled(w: World, id: Identity, a: Account, clientId: string, r: Replies)
    ensures var t := Finish(w, id, a, clientId, r);
      && w.calls <= t.calls && t.orgs == w.orgs && t.users.Keys == w.users.Keys
      && (t.users == w.users
          || (id.uid in w.users
              && (if t.users[id.uid].active then Reactivate(id.org, id.uid)
                  else Deactivate(id.org, id.uid)) in t.calls))
  {
  }

  /** Nothing changes in Zitadel without the call that does it. */
  lemma ChangesAreCalled(w: World, id: Identity, r: Replies)
    ensures var w' := Reconcile(w, id, r);
      && (w'.orgs != w.orgs ==> CreateOrg(id.org) in w'.calls)
      && (id.uid in w'.users && id.uid !in w.users ==> CreateUser(id.org, id.uid) in w'.calls)
      && (id.uid !in w'.users && id.uid in w.users ==> DeleteUser(id.uid) in w'.calls)
      && (id.uid in w'.users && id.uid in w.users && w'.users != w.users ==>
            (if w'.users[id.uid].active then Reactivate(id.org, id.uid) else Deactivate(id.org, id.uid)) in w'.calls)
  {
    if r.readOk && w.account.Some? && PastFinalizers(w.account.value) {
      var (w2, clientId, ok) := Ensured(w, id, r);
      EnsuredIsCalled(w, id, r);
      StateIsCalled(w2, id, w.account.value, clientId, r);
      var w' := Reconcile(w, id, r);
      assert w2.calls <= w'.calls;
      if w2.orgs != w.orgs { CallsStay(w2.calls, w'.calls, CreateOrg(id.org)); }
      if w2.users != w.users { CallsStay(w2.calls, w'.calls, CreateUser(id.org, id.uid)); }
    }
  }

  // ----- What goes wrong -----

  /** When a reconcile of a dying object creates a machine user: exactly when the finalizer is already off
      it, so that only a foreign one keeps the object, and both creations go through. */
  lemma DyingObjectRecreatesUser(w: World, id: Identity, r: Replies)
    requires w.account.Some? && w.account.value.deleting && id.uid !in w.users
    ensures id.uid in Reconcile(w, id, r).users <==>
      && r.readOk && !w.account.value.ours && r.orgGetOk && (id.org in w.orgs || r.orgCreation.ReportedOk())
      && r.userGetOk && r.userCreation.TookEffect()
  {
  }

  function AllOk(id: Identity): Replies {
    Replies(true, true, Applied, Applied, true, Applied, true, Applied, id.uid, Applied, Applied)
  }

  /** With nothing failing, a foreign finalizer is enough to leave an active account behind: the reconcile
      after the finalizer ran makes the user again, and then the object goes. */
  lemma ForeignFinalizerLeavesAccount(id: Identity)
    ensures var start := World({}, map[], Some(Account(false, true, false, ACTIVE, Status("", "", "", false))), []);
      var w := Exec(start, id, [Run(AllOk(id)), Delete, Run(AllOk(id)), Run(AllOk(id)), DropForeign]);
      w.account == None && id.uid in w.users && w.users[id.uid].active
  {
    var start := World({}, map[], Some(Account(false, true, false, ACTIVE, Status("", "", "", false))), []);
    var acts := [Run(AllOk(id)), Delete, Run(AllOk(id)), Run(AllOk(id)), DropForeign];
    var w1 := Step(start, id, acts[0]);
    var w2 := Step(w1, id, acts[1]);
    var w3 := Step(w2, id, acts[2]);
    var w4 := Step(w3, id, acts[3]);
    Unroll(start, id, acts);
    assert id.uid !in w3.users && !w3.account.value.ours;
    assert id.uid in w4.users;
  }

  lemma Unroll(w: World, id: Identity, acts: seq<Action>)
    requires |acts| == 5
    ensures Exec(w, id, acts)
         == Step(Step(Step(Step(Step(w, id, acts[0]), id, acts[1]), id, acts[2]), id, acts[3]), id, acts[4])
  {
    assert acts[..4][..3] == acts[..3] && acts[..3][..2] == acts[..2] && acts[..2][..1] == acts[..1]
        && acts[..1][..0] == [];
    assert Exec(w, id, acts[..1]) == Step(w, id, acts[0]);
    assert Exec(w, id, acts[..2]) == Step(Exec(w, id, acts[..1]), id, acts[1]);
    assert Exec(w, id, acts[..3]) == Step(Exec(w, id, acts[..2]), id, acts[2]);
    assert Exec(w, id, acts[..4]) == Step(Exec(w, id, acts[..3]), id, acts[3]);
  }

  /** A status update lost after a deactivation, and the spec turned back before the retry: the object says
      Active, the user stays deactivated, and every later reconcile leaves it so. */
  lemma LostUpdateStrands(w: World, id: Identity, r: Replies, later: Replies)
    requires Settled(w, id) && w.account.value.spec == ACTIVE && id.uid != ""
    requires r == AllOk(id).(statusUpdate := Rejected) && ErrorFree(later, id)
    ensures var w' := Step(Step(Step(w, id, EditSpec(INACTIVE)), id, Run(r)), id, EditSpec(ACTIVE));
      && w'.account == w.account && id.uid in w'.users && !w'.users[id.uid].active
      && Reconcile(w', id, later) == w'
  {
    var w1 := Step(w, id, EditSpec(INACTIVE));
    var w2 := Step(w1, id, Run(r));
    assert !w2.users[id.uid].active && w2.account == w1.account;
  }
}
