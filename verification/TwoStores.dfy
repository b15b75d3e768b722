/** The consistency protocol between Zitadel's accounts and milo's Users, as a state machine over the
    single remote calls of the sweeper, the abandoned-account GC, the User controller, the create
    webhook and administrators. Any action may come next; one that is not enabled changes nothing. */
module TwoStores {
  import opened Wrappers
  import opened Stores

  datatype Account = Account(verified: bool, createdAt: Option<int>)
  datatype Object = Object(finalizer: bool, deleting: bool, version: nat)

  /** One sweeper pass: when it began, the Users it saw then, and the page it is working on. */
  datatype Sweeper = Resting | Passing(beganAt: nat, snapshot: set<Id>, page: set<Id>, readAt: nat)

  /** The GC works on a listed page; Cleared is past the link read, Half is between the two deletes. */
  datatype Stage = Between | Cleared(id: Id, links: nat) | Half(id: Id)
  datatype Collector = Collector(cutoff: int, page: map<Id, Account>, stage: Stage)

  /** The User controller's worker for one object: it holds the copy it read, has seen the account,
      or has established that the account is gone. */
  datatype Worker = Idle | Got(copy: Object) | Seen(copy: Object) | Freed(copy: Object)

  /** Which delete `collect` issues first. The source uses ZitadelFirst. */
  datatype Order = ZitadelFirst | MiloFirst

  datatype Record =
    | SweepCreated(id: Id, beganAt: nat, readAt: nat, at: nat)
    | UserRemoved(id: Id, hadFinalizer: bool, at: nat)
    | GcDeletedAccount(id: Id, listed: Account, links: nat, cutoff: int, at: nat)
    | GcDeletedUser(id: Id, at: nat)

  datatype State = State(
    accounts: map<Id, Account>,   // Zitadel
    users: map<Id, Object>,       // milo
    sweeper: Sweeper,
    gc: Collector,
    workers: map<Id, Worker>,
    issued: set<Id>,              // every id Zitadel ever gave out; none is given out twice
    deletedAt: map<Id, nat>,      // when an account left Zitadel
    nextVersion: nat,
    now: nat,                     // counts actions
    log: seq<Record>)

  /** Zitadel's own users and milo's administrators and webhooks. */
  datatype OutsideAction = Register(id: Id, account: Account) | SetVerified(id: Id, verified: bool)
                         | ConsoleDelete(id: Id) | WebhookCreate(id: Id) | AdminDelete(id: Id)

  datatype SweeperAction = SweepStart | SweepRead(page: set<Id>) | SweepEnsure(id: Id) | SweepEnd

  datatype GcAction = GcList(cutoff: int, page: set<Id>) | GcReadLinks(id: Id, links: nat)
                    | GcDeleteAccount(reply: Outcome) | GcDeleteUser(reply: Outcome)

  /** The calls of one User reconcile, in order; Crash may come at any point. */
  datatype ControllerAction = Get | AddFinalizer(reply: Outcome) | CheckAccount
                            | FinalizerDelete(reply: Outcome) | Release(reply: Outcome) | Crash

  datatype Action = Outside(outside: OutsideAction) | Sweeps(sweep: SweeperAction) | Collects(collect: GcAction)
                  | Reconciles(id: Id, op: ControllerAction)

  const Init: State :=
    State(map[], map[], Resting, Collector(0, map[], Between), map[], {}, map[], 0, 0, [])

  // ----- The remote calls -----

  function ZitadelDelete(s: State, id: Id): State {
    if id !in s.accounts then s
    else s.(accounts := s.accounts - {id}, deletedAt := s.deletedAt[id := s.now])
  }

  function UserCreate(s: State, id: Id): State {
    if id in s.users then s
    else s.(users := s.users[id := Object(false, false, s.nextVersion)], nextVersion := s.nextVersion + 1)
  }

  function UserDelete(s: State, id: Id): State {
    if id !in s.users then s
    else if s.users[id].finalizer then
      s.(users := s.users[id := s.users[id].(deleting := true, version := s.nextVersion)],
          nextVersion := s.nextVersion + 1)
    else s.(users := s.users - {id}, log := s.log + [UserRemoved(id, false, s.now)])
  }

  /** The API server's Update: optimistic lock, and removal once a deleting object has no finalizer. */
  function UserUpdate(s: State, id: Id, copy: Object): State {
    if id !in s.users || s.users[id].version != copy.version then s
    else if copy.deleting && !copy.finalizer then
      s.(users := s.users - {id}, log := s.log + [UserRemoved(id, s.users[id].finalizer, s.now)])
    else s.(users := s.users[id := copy.(version := s.nextVersion)], nextVersion := s.nextVersion + 1)
  }

  function WorkerOf(s: State, id: Id): Worker {
    if id in s.workers then s.workers[id] else Idle
  }

  predicate Abandoned(a: Account, cutoff: int) { IsAbandoned(a.verified, a.createdAt, cutoff) }

  // ----- The actors -----

  function SweeperStep(s: State, a: SweeperAction): State {
    match a
    case SweepStart => s.(sweeper := Passing(s.now, s.users.Keys, {}, s.now))
    case SweepRead(page) =>
      if s.sweeper.Passing? then s.(sweeper := s.sweeper.(page := page * s.accounts.Keys, readAt := s.now)) else s
    case SweepEnsure(id) =>
      if s.sweeper.Passing? && id in s.sweeper.page && id !in s.sweeper.snapshot && id !in s.users then
        AddRecord(UserCreate(s, id), SweepCreated(id, s.sweeper.beganAt, s.sweeper.readAt, s.now))
      else s
    case SweepEnd => s.(sweeper := Resting)
  }

  function GcStep(order: Order, s: State, a: GcAction): State {
    var gc := s.gc;
    match a
    case GcList(cutoff, page) =>
      s.(gc := Collector(cutoff, map id | id in page && id in s.accounts :: s.accounts[id], Between))
    case GcReadLinks(id, links) =>
      if gc.stage.Between? && id in gc.page && Abandoned(gc.page[id], gc.cutoff) && links == 0
      then s.(gc := gc.(stage := Cleared(id, links))) else s
    case GcDeleteAccount(reply) =>
      if order.ZitadelFirst? && gc.stage.Cleared? then
        var next := if reply.ReportedOk() then Half(gc.stage.id) else Between;
        GcAccountDelete(s, gc.stage.id, gc.stage.links, reply, next)
      else if order.MiloFirst? && gc.stage.Half? then GcAccountDelete(s, gc.stage.id, 0, reply, Between)
      else s
    case GcDeleteUser(reply) =>
      if order.ZitadelFirst? && gc.stage.Half? then GcUserDelete(s, gc.stage.id, reply, Between)
      else if order.MiloFirst? && gc.stage.Cleared? then
        GcUserDelete(s, gc.stage.id, reply, if reply.ReportedOk() then Half(gc.stage.id) else Between)
      else s
  }

  function AddRecord(s: State, r: Record): State {
    s.(log := s.log + [r])
  }

  function SetStage(s: State, stage: Stage): State {
    s.(gc := s.gc.(stage := stage))
  }

  function GcAccountDelete(s: State, id: Id, links: nat, reply: Outcome, next: Stage): State {
    SetStage(if reply.TookEffect() && id in s.gc.page
             then AddRecord(ZitadelDelete(s, id), GcDeletedAccount(id, s.gc.page[id], links, s.gc.cutoff, s.now))
             else s, next)
  }

  function GcUserDelete(s: State, id: Id, reply: Outcome, next: Stage): State {
    SetStage(if reply.TookEffect() then AddRecord(UserDelete(s, id), GcDeletedUser(id, s.now)) else s, next)
  }

  function SetWorker(s: State, id: Id, w: Worker): State {
    s.(workers := s.workers[id := w])
  }

  function ControllerStep(s: State, id: Id, op: ControllerAction): State {
    var w := WorkerOf(s, id);
    match op
    case Get =>
      if w.Idle? && id in s.users then SetWorker(s, id, Got(s.users[id])) else s
    case AddFinalizer(reply) =>
      if w.Got? && !w.copy.deleting && !w.copy.finalizer then
        SetWorker(if reply.TookEffect() then UserUpdate(s, id, w.copy.(finalizer := true)) else s, id, Idle)
      else s
    case CheckAccount =>
      if w.Got? && w.copy.deleting && w.copy.finalizer then
        SetWorker(s, id, if id in s.accounts then Seen(w.copy) else Freed(w.copy))
      else s
    case FinalizerDelete(reply) =>
      if !w.Seen? then s
      else if id in s.accounts && reply.ReportedOk() then SetWorker(ZitadelDelete(s, id), id, Freed(w.copy))
      else SetWorker(if reply.TookEffect() then ZitadelDelete(s, id) else s, id, Idle)
    case Release(reply) =>
      if !w.Freed? then s
      else SetWorker(if reply.TookEffect() then UserUpdate(s, id, w.copy.(finalizer := false)) else s, id, Idle)
    case Crash => SetWorker(s, id, Idle)
  }

  function OutsideStep(s: State, a: OutsideAction): State {
    match a
    case Register(id, account) =>
      if id in s.issued then s else s.(accounts := s.accounts[id := account], issued := s.issued + {id})
    case SetVerified(id, verified) =>
      if id in s.accounts then s.(accounts := s.accounts[id := s.accounts[id].(verified := verified)]) else s
    case ConsoleDelete(id) => ZitadelDelete(s, id)
    case WebhookCreate(id) => if id in s.issued then UserCreate(s, id) else s
    case AdminDelete(id) => UserDelete(s, id)
  }

  function Tick(s: State): State { s.(now := s.now + 1) }

  function Step(order: Order, s: State, a: Action): State {
    Tick(match a
         case Outside(o) => OutsideStep(s, o)
         case Sweeps(w) => SweeperStep(s, w)
         case Collects(g) => GcStep(order, s, g)
         case Reconciles(id, op) => ControllerStep(s, id, op))
  }

  function Exec(order: Order, s: State, acts: seq<Action>): State {
    if acts == [] then s else Step(order, Exec(order, s, acts[..|acts| - 1]), acts[|acts| - 1])
  }

  // ----- What every run keeps -----

  ghost predicate GoneBefore(s: State, id: Id, at: nat) {
    id in s.deletedAt && s.deletedAt[id] < at
  }

  ghost predicate Sound(s: State, r: Record) {
    match r
    case SweepCreated(id, beganAt, readAt, at) => GoneBefore(s, id, at) ==> readAt < s.deletedAt[id]
    case UserRemoved(id, hadFinalizer, at) => hadFinalizer ==> GoneBefore(s, id, at)
    case GcDeletedAccount(id, listed, links, cutoff, at) =>
      links == 0 && !listed.verified && listed.createdAt.Some? && listed.createdAt.value < cutoff
    case GcDeletedUser(id, at) => GoneBefore(s, id, at)
  }

  ghost predicate StoresOk(s: State) {
    && s.accounts.Keys <= s.issued
    && s.deletedAt.Keys == s.issued - s.accounts.Keys
    && s.users.Keys <= s.issued
    && (forall id :: id in s.deletedAt ==> s.deletedAt[id] < s.now)
    && (forall id :: id in s.users ==> s.users[id].version < s.nextVersion)
  }

  ghost predicate SweeperOk(s: State) {
    s.sweeper.Passing? ==>
      && s.sweeper.page <= s.issued
      && s.sweeper.readAt < s.now
      && forall id :: id in s.sweeper.page && id in s.deletedAt ==> s.sweeper.readAt < s.deletedAt[id]
  }

  ghost predicate StageOk(s: State, stage: Stage) {
    && (!stage.Between? ==> stage.id in s.gc.page && Abandoned(s.gc.page[stage.id], s.gc.cutoff))
    && (stage.Cleared? ==> stage.links == 0)
    && (stage.Half? ==> GoneBefore(s, stage.id, s.now))
  }

  ghost predicate WorkerOk(s: State, id: Id, w: Worker) {
    !w.Idle? ==>
      && w.copy.version < s.nextVersion && id in s.issued
      && (!w.Got? ==> w.copy.deleting && w.copy.finalizer)
      && (w.Freed? ==> GoneBefore(s, id, s.now))
      && (id in s.users && s.users[id].version == w.copy.version ==> s.users[id] == w.copy)
  }

  ghost predicate WorkersOk(s: State) {
    forall id :: id in s.workers ==> WorkerOk(s, id, s.workers[id])
  }

  ghost predicate RecordOk(s: State, r: Record) {
    Sound(s, r) && r.at < s.now
  }

  ghost predicate LogOk(s: State) {
    forall r :: r in s.log ==> RecordOk(s, r)
  }

  ghost predicate Inv(s: State) {
    StoresOk(s) && SweeperOk(s) && s.gc.page.Keys <= s.issued && StageOk(s, s.gc.stage) && WorkersOk(s) && LogOk(s)
  }

  // ----- What the single calls keep -----

  /** Deletion times are never rewritten; new ones carry the current time. */
  ghost predicate OnlyNewDeletions(s: State, t: State) {
    && s.deletedAt.Keys <= t.deletedAt.Keys
    && (forall id :: id in t.deletedAt ==> t.deletedAt[id] == if id in s.deletedAt then s.deletedAt[id] else s.now)
  }

  lemma RecordsStay(s: State, t: State)
    requires LogOk(s) && OnlyNewDeletions(s, t) && t.log == s.log && t.now == s.now + 1
    ensures LogOk(t)
  {
    forall r | r in t.log ensures RecordOk(t, r) { assert RecordOk(s, r); }
  }

  lemma WorkersStay(s: State, t: State)
    requires WorkersOk(s) && OnlyNewDeletions(s, t) && t.workers == s.workers && t.now == s.now + 1
    requires s.nextVersion <= t.nextVersion && s.issued <= t.issued
    requires forall id :: id in t.users ==>
      (id in s.users && t.users[id] == s.users[id]) || t.users[id].version >= s.nextVersion
    ensures WorkersOk(t)
  {
    forall id | id in t.workers ensures WorkerOk(t, id, t.workers[id]) { assert WorkerOk(s, id, s.workers[id]); }
  }

  lemma TickKeeps(s: State)
    requires Inv(s)
    ensures Inv(Tick(s))
  {
    RecordsStay(s, Tick(s));
    WorkersStay(s, Tick(s));
  }

  lemma ZitadelDeleteKeeps(s: State, id: Id)
    requires Inv(s)
    ensures Inv(Tick(ZitadelDelete(s, id)))
    ensures id in s.issued ==> GoneBefore(Tick(ZitadelDelete(s, id)), id, s.now + 1)
  {
    var t := Tick(ZitadelDelete(s, id));
    RecordsStay(s, t);
    WorkersStay(s, t);
  }

  lemma UserCreateKeeps(s: State, id: Id)
    requires Inv(s) && id in s.issued
    ensures Inv(Tick(UserCreate(s, id)))
  {
    var t := Tick(UserCreate(s, id));
    RecordsStay(s, t);
    WorkersStay(s, t);
  }

  lemma AddRecordKeeps(s: State, r: Record)
    requires Inv(s) && RecordOk(s, r)
    ensures Inv(AddRecord(s, r))
  {
    var t := AddRecord(s, r);
    forall x | x in t.log ensures RecordOk(t, x) { assert x == r || RecordOk(s, x); }
    forall id | id in t.workers ensures WorkerOk(t, id, t.workers[id]) { assert WorkerOk(s, id, s.workers[id]); }
  }

  lemma SetStageKeeps(s: State, stage: Stage)
    requires Inv(s) && StageOk(s, stage)
    ensures Inv(SetStage(s, stage))
  {
    var t := SetStage(s, stage);
    forall x | x in t.log ensures RecordOk(t, x) { assert RecordOk(s, x); }
    forall id | id in t.workers ensures WorkerOk(t, id, t.workers[id]) { assert WorkerOk(s, id, s.workers[id]); }
  }

  lemma SetWorkerKeeps(s: State, id: Id, w: Worker)
    requires Inv(s) && WorkerOk(s, id, w)
    ensures Inv(SetWorker(s, id, w))
  {
    var t := SetWorker(s, id, w);
    forall x | x in t.log ensures RecordOk(t, x) { assert RecordOk(s, x); }
    forall i | i in t.workers ensures WorkerOk(t, i, t.workers[i]) { assert i == id || WorkerOk(s, i, s.workers[i]); }
  }

  /** An object leaves the store, its removal recorded. */
  lemma RemovalKeeps(s: State, id: Id, hadFinalizer: bool)
    requires Inv(s) && (hadFinalizer ==> GoneBefore(s, id, s.now))
    ensures Inv(Tick(s.(users := s.users - {id}, log := s.log + [UserRemoved(id, hadFinalizer, s.now)])))
  {
    var t := Tick(s.(users := s.users - {id}));
    RecordsStay(s, t);
    WorkersStay(s, t);
    AddRecordKeeps(t, UserRemoved(id, hadFinalizer, s.now));
  }

  /** An object is rewritten under a version nobody holds. */
  lemma RewriteKeeps(s: State, id: Id, obj: Object)
    requires Inv(s) && id in s.issued
    ensures Inv(Tick(s.(users := s.users[id := obj.(version := s.nextVersion)], nextVersion := s.nextVersion + 1)))
  {
    var t := Tick(s.(users := s.users[id := obj.(version := s.nextVersion)], nextVersion := s.nextVersion + 1));
    RecordsStay(s, t);
    WorkersStay(s, t);
  }

  lemma UserDeleteKeeps(s: State, id: Id)
    requires Inv(s)
    ensures Inv(Tick(UserDelete(s, id)))
  {
    if id !in s.users {
      TickKeeps(s);
    } else if s.users[id].finalizer {
      RewriteKeeps(s, id, s.users[id].(deleting := true));
    } else {
      RemovalKeeps(s, id, false);
    }
  }

  lemma UserUpdateKeeps(s: State, id: Id, copy: Object)
    requires Inv(s)
    requires copy.deleting && !copy.finalizer ==> GoneBefore(s, id, s.now)
    ensures Inv(Tick(UserUpdate(s, id, copy)))
  {
    if id !in s.users || s.users[id].version != copy.version {
      TickKeeps(s);
    } else if copy.deleting && !copy.finalizer {
      RemovalKeeps(s, id, s.users[id].finalizer);
    } else {
      RewriteKeeps(s, id, copy);
    }
  }

  // ----- What the actors keep -----

  lemma OutsideKeeps(s: State, a: OutsideAction)
    requires Inv(s)
    ensures Inv(Tick(OutsideStep(s, a)))
  {
    match a
    case Register(_, _) => AccountsMove(s, OutsideStep(s, a));
    case SetVerified(_, _) => AccountsMove(s, OutsideStep(s, a));
    case ConsoleDelete(id) => ZitadelDeleteKeeps(s, id);
    case WebhookCreate(id) => if id in s.issued { UserCreateKeeps(s, id); } else { TickKeeps(s); }
    case AdminDelete(id) => UserDeleteKeeps(s, id);
  }

  /** Accounts may be added under fresh ids or change their data. */
  lemma AccountsMove(s: State, t: State)
    requires Inv(s) && t == s.(accounts := t.accounts, issued := t.issued)
    requires s.issued <= t.issued && t.accounts.Keys == s.accounts.Keys + (t.issued - s.issued)
    ensures Inv(Tick(t))
  {
    RecordsStay(s, Tick(t));
    WorkersStay(s, Tick(t));
  }

  lemma SweepEnsureKeeps(s: State, id: Id)
    requires Inv(s) && s.sweeper.Passing? && id in s.sweeper.page && id !in s.sweeper.snapshot && id !in s.users
    ensures Inv(AddRecord(Tick(UserCreate(s, id)), SweepCreated(id, s.sweeper.beganAt, s.sweeper.readAt, s.now)))
  {
    UserCreateKeeps(s, id);
    AddRecordKeeps(Tick(UserCreate(s, id)), SweepCreated(id, s.sweeper.beganAt, s.sweeper.readAt, s.now));
  }

  lemma SweeperKeeps(s: State, a: SweeperAction)
    requires Inv(s)
    ensures Inv(Tick(SweeperStep(s, a)))
  {
    var t := Tick(SweeperStep(s, a));
    if a.SweepEnsure? && t != Tick(s) {
      SweepEnsureKeeps(s, a.id);
      assert t == AddRecord(Tick(UserCreate(s, a.id)), SweepCreated(a.id, s.sweeper.beganAt, s.sweeper.readAt, s.now));
    } else {
      RecordsStay(s, t);
      WorkersStay(s, t);
    }
  }

  lemma RecordThenStage(s: State, r: Record, stage: Stage)
    requires Inv(s) && RecordOk(s, r) && StageOk(s, stage)
    ensures Inv(SetStage(AddRecord(s, r), stage))
  {
    AddRecordKeeps(s, r);
    SetStageKeeps(AddRecord(s, r), stage);
  }

  lemma GcAccountDeleteKeeps(s: State, reply: Outcome)
    requires Inv(s) && s.gc.stage.Cleared?
    ensures Inv(Tick(GcStep(ZitadelFirst, s, GcDeleteAccount(reply))))
  {
    var id := s.gc.stage.id;
    var next := if reply.ReportedOk() then Half(id) else Between;
    var r := GcDeletedAccount(id, s.gc.page[id], s.gc.stage.links, s.gc.cutoff, s.now);
    var t := Tick(GcStep(ZitadelFirst, s, GcDeleteAccount(reply)));
    if reply.TookEffect() {
      ZitadelDeleteKeeps(s, id);
      RecordThenStage(Tick(ZitadelDelete(s, id)), r, next);
      assert t == SetStage(AddRecord(Tick(ZitadelDelete(s, id)), r), next);
    } else {
      TickKeeps(s);
      SetStageKeeps(Tick(s), next);
      assert t == SetStage(Tick(s), next);
    }
  }

  lemma GcUserDeleteKeeps(s: State, reply: Outcome)
    requires Inv(s) && s.gc.stage.Half?
    ensures Inv(Tick(GcStep(ZitadelFirst, s, GcDeleteUser(reply))))
  {
    var id := s.gc.stage.id;
    var t := Tick(GcStep(ZitadelFirst, s, GcDeleteUser(reply)));
    if reply.TookEffect() {
      UserDeleteKeeps(s, id);
      RecordThenStage(Tick(UserDelete(s, id)), GcDeletedUser(id, s.now), Between);
      assert t == SetStage(AddRecord(Tick(UserDelete(s, id)), GcDeletedUser(id, s.now)), Between);
    } else {
      TickKeeps(s);
      SetStageKeeps(Tick(s), Between);
      assert t == SetStage(Tick(s), Between);
    }
  }

  lemma GcKeeps(s: State, a: GcAction)
    requires Inv(s)
    ensures Inv(Tick(GcStep(ZitadelFirst, s, a)))
  {
    if a.GcDeleteAccount? && s.gc.stage.Cleared? {
      GcAccountDeleteKeeps(s, a.reply);
    } else if a.GcDeleteUser? && s.gc.stage.Half? {
      GcUserDeleteKeeps(s, a.reply);
    } else {
      var t := Tick(GcStep(ZitadelFirst, s, a));
      RecordsStay(s, t);
      WorkersStay(s, t);
    }
  }

  lemma UpdateThenRest(s: State, id: Id, copy: Object)
    requires Inv(s) && (copy.deleting && !copy.finalizer ==> GoneBefore(s, id, s.now))
    ensures Inv(Tick(SetWorker(UserUpdate(s, id, copy), id, Idle)))
  {
    UserUpdateKeeps(s, id, copy);
    SetWorkerKeeps(Tick(UserUpdate(s, id, copy)), id, Idle);
  }

  lemma RestKeeps(s: State, id: Id)
    requires Inv(s)
    ensures Inv(Tick(SetWorker(s, id, Idle)))
  {
    TickKeeps(s);
    SetWorkerKeeps(Tick(s), id, Idle);
  }

  /** An Update of a worker's copy, then the end of its reconcile. */
  lemma UpdateAndRest(s: State, id: Id, copy: Object, reply: Outcome)
    requires Inv(s) && (copy.deleting && !copy.finalizer ==> GoneBefore(s, id, s.now))
    ensures Inv(Tick(SetWorker(if reply.TookEffect() then UserUpdate(s, id, copy) else s, id, Idle)))
  {
    if reply.TookEffect() { UpdateThenRest(s, id, copy); } else { RestKeeps(s, id); }
  }

  lemma FinalizerDeleteKeeps(s: State, id: Id, reply: Outcome)
    requires Inv(s) && WorkerOf(s, id).Seen?
    ensures Inv(Tick(ControllerStep(s, id, FinalizerDelete(reply))))
  {
    var w := WorkerOf(s, id);
    var t := Tick(ControllerStep(s, id, FinalizerDelete(reply)));
    assert WorkerOk(s, id, w);
    if reply.TookEffect() {
      var w' := if id in s.accounts && reply.ReportedOk() then Freed(w.copy) else Idle;
      ZitadelDeleteKeeps(s, id);
      SetWorkerKeeps(Tick(ZitadelDelete(s, id)), id, w');
      assert t == SetWorker(Tick(ZitadelDelete(s, id)), id, w');
    } else {
      TickKeeps(s);
      SetWorkerKeeps(Tick(s), id, Idle);
      assert t == SetWorker(Tick(s), id, Idle);
    }
  }

  /** The calls that only move the worker, and those that are not enabled. */
  predicate OnlyMoves(s: State, id: Id, op: ControllerAction) {
    && (op.FinalizerDelete? ==> !WorkerOf(s, id).Seen?)
    && (op.AddFinalizer? ==> !WorkerOf(s, id).Got? || WorkerOf(s, id).copy.deleting)
    && (op.Release? ==> !WorkerOf(s, id).Freed?)
  }

  lemma MovesWorker(s: State, id: Id, op: ControllerAction)
    requires OnlyMoves(s, id, op)
    ensures ControllerStep(s, id, op) == s
         || ControllerStep(s, id, op) == SetWorker(s, id, WorkerOf(ControllerStep(s, id, op), id))
  {
  }

  lemma MovedWorkerOk(s: State, id: Id, op: ControllerAction)
    requires StoresOk(s) && WorkerOk(s, id, WorkerOf(s, id)) && OnlyMoves(s, id, op)
    ensures WorkerOk(Tick(s), id, WorkerOf(ControllerStep(s, id, op), id))
  {
  }

  lemma WorkerMoveKeeps(s: State, id: Id, op: ControllerAction)
    requires Inv(s) && OnlyMoves(s, id, op)
    ensures Inv(Tick(ControllerStep(s, id, op)))
  {
    MovesWorker(s, id, op);
    MovedWorkerOk(s, id, op);
    TickKeeps(s);
    if ControllerStep(s, id, op) != s { SetWorkerKeeps(Tick(s), id, WorkerOf(ControllerStep(s, id, op), id)); }
  }

  lemma AddFinalizerKeeps(s: State, id: Id, reply: Outcome)
    requires Inv(s) && WorkerOf(s, id).Got? && !WorkerOf(s, id).copy.deleting
    ensures Inv(Tick(ControllerStep(s, id, AddFinalizer(reply))))
  {
    TickKeeps(s);
    UpdateAndRest(s, id, WorkerOf(s, id).copy.(finalizer := true), reply);
  }

  lemma ControllerKeeps(s: State, id: Id, op: ControllerAction)
    requires Inv(s)
    ensures Inv(Tick(ControllerStep(s, id, op)))
  {
    var w := WorkerOf(s, id);
    if op.FinalizerDelete? && w.Seen? {
      FinalizerDeleteKeeps(s, id, op.reply);
    } else if op.AddFinalizer? && w.Got? && !w.copy.deleting {
      AddFinalizerKeeps(s, id, op.reply);
    } else if op.Release? && w.Freed? {
      assert WorkerOk(s, id, w);
      UpdateAndRest(s, id, w.copy.(finalizer := false), op.reply);
    } else {
      WorkerMoveKeeps(s, id, op);
    }
  }

  lemma StepKeeps(s: State, a: Action)
    requires Inv(s)
    ensures Inv(Step(ZitadelFirst, s, a))
  {
    match a
    case Outside(o) => OutsideKeeps(s, o);
    case Sweeps(w) => SweeperKeeps(s, w);
    case Collects(g) => GcKeeps(s, g);
    case Reconciles(id, op) => ControllerKeeps(s, id, op);
  }

  lemma {:induction false} RunKeeps(acts: seq<Action>)
    ensures Inv(Exec(ZitadelFirst, Init, acts))
  {
    if acts != [] {
      RunKeeps(acts[..|acts| - 1]);
      StepKeeps(Exec(ZitadelFirst, Init, acts[..|acts| - 1]), acts[|acts| - 1]);
    }
  }

  // ----- The protocol's promises, for every run -----

  /** The change from s to t is not the sweeper's. */
  ghost predicate NotSweeping(s: State, t: State) {
    t.now == s.now && t.sweeper == s.sweeper && forall r :: r in t.log && r.SweepCreated? ==> r in s.log
  }

  lemma UserDeleteIsNot(s: State, id: Id)
    ensures NotSweeping(s, UserDelete(s, id))
  {
  }

  lemma UserUpdateIsNot(s: State, id: Id, copy: Object)
    ensures NotSweeping(s, UserUpdate(s, id, copy))
  {
  }

  lemma AddRecordIsNot(s: State, r: Record)
    requires !r.SweepCreated?
    ensures NotSweeping(s, AddRecord(s, r))
  {
  }

  lemma GcUserDeleteIsNot(s: State, id: Id, reply: Outcome, next: Stage)
    ensures NotSweeping(s, GcUserDelete(s, id, reply, next))
  {
    UserDeleteIsNot(s, id);
    AddRecordIsNot(UserDelete(s, id), GcDeletedUser(id, s.now));
  }

  lemma GcAccountDeleteIsNot(s: State, id: Id, links: nat, reply: Outcome, next: Stage)
    ensures NotSweeping(s, GcAccountDelete(s, id, links, reply, next))
  {
    if id in s.gc.page {
      AddRecordIsNot(ZitadelDelete(s, id), GcDeletedAccount(id, s.gc.page[id], links, s.gc.cutoff, s.now));
    }
  }

  lemma OutsideIsNot(s: State, a: OutsideAction)
    ensures NotSweeping(s, OutsideStep(s, a))
  {
    if a.AdminDelete? { UserDeleteIsNot(s, a.id); }
  }

  lemma GcIsNot(order: Order, s: State, a: GcAction)
    ensures NotSweeping(s, GcStep(order, s, a))
  {
    var stage := s.gc.stage;
    if !stage.Between? {
      match a
      case GcDeleteAccount(reply) =>
        var next := if order.ZitadelFirst? && reply.ReportedOk() then Half(stage.id) else Between;
        GcAccountDeleteIsNot(s, stage.id, if stage.Cleared? then stage.links else 0, reply, next);
      case GcDeleteUser(reply) =>
        var next := if order.MiloFirst? && reply.ReportedOk() then Half(stage.id) else Between;
        GcUserDeleteIsNot(s, stage.id, reply, next);
      case _ =>
    }
  }

  lemma ControllerIsNot(s: State, id: Id, op: ControllerAction)
    ensures NotSweeping(s, ControllerStep(s, id, op))
  {
    var w := WorkerOf(s, id);
    match op
    case AddFinalizer(_) => if w.Got? { UserUpdateIsNot(s, id, w.copy.(finalizer := true)); }
    case Release(_) => if w.Freed? { UserUpdateIsNot(s, id, w.copy.(finalizer := false)); }
    case _ =>
  }

  lemma OthersAreNot(order: Order, s: State, a: Action)
    requires !a.Sweeps?
    ensures NotSweeping(Tick(s), Step(order, s, a))
  {
    match a
    case Outside(o) => OutsideIsNot(s, o);
    case Collects(g) => GcIsNot(order, s, g);
    case Reconciles(id, op) => ControllerIsNot(s, id, op);
  }

  /** The clock counts the actions. */
  lemma {:induction false} NowCounts(order: Order, acts: seq<Action>)
    ensures Exec(order, Init, acts).now == |acts|
  {
    if acts != [] {
      var s, a := Exec(order, Init, acts[..|acts| - 1]), acts[|acts| - 1];
      NowCounts(order, acts[..|acts| - 1]);
      if a.Sweeps? { SweeperTicks(s, a.sweep); } else { OthersAreNot(order, s, a); }
    }
  }

  lemma SweeperTicks(s: State, a: SweeperAction)
    ensures SweeperStep(s, a).now == s.now
  {
  }

  /** milo had no such User when the pass began. */
  ghost predicate AbsentAt(order: Order, acts: seq<Action>, id: Id, began: nat) {
    began <= |acts| && id !in Exec(order, Init, acts[..began]).users
  }

  ghost predicate SnapshotTrue(order: Order, acts: seq<Action>, w: Sweeper) {
    w.Passing? ==> w.beganAt <= |acts| && w.snapshot == Exec(order, Init, acts[..w.beganAt]).users.Keys
  }

  ghost predicate CreatesAbsent(order: Order, acts: seq<Action>) {
    var s := Exec(order, Init, acts);
    && SnapshotTrue(order, acts, s.sweeper)
    && forall r :: r in s.log && r.SweepCreated? ==> AbsentAt(order, acts, r.id, r.beganAt)
  }

  lemma PrefixStays(acts: seq<Action>, a: Action, n: nat)
    requires n <= |acts|
    ensures (acts + [a])[..n] == acts[..n]
  {
  }

  /** What one action does to the pass and to the record of creations. */
  ghost predicate SweepRecorded(s: State, t: State) {
    && (t.sweeper.Passing? ==>
          || (t.sweeper.beganAt == s.now && t.sweeper.snapshot == s.users.Keys)
          || (s.sweeper.Passing? && t.sweeper.beganAt == s.sweeper.beganAt && t.sweeper.snapshot == s.sweeper.snapshot))
    && forall r :: r in t.log && r.SweepCreated? ==>
         r in s.log || (s.sweeper.Passing? && r.beganAt == s.sweeper.beganAt && r.id !in s.sweeper.snapshot)
  }

  lemma SweeperRecords(s: State, a: SweeperAction)
    ensures SweepRecorded(s, Tick(SweeperStep(s, a)))
  {
  }

  lemma SweepRecords(order: Order, s: State, a: Action)
    ensures SweepRecorded(s, Step(order, s, a))
  {
    if a.Sweeps? { SweeperRecords(s, a.sweep); } else { OthersAreNot(order, s, a); }
  }

  lemma {:induction false} PassesCreateAbsent(order: Order, acts: seq<Action>)
    ensures CreatesAbsent(order, acts)
  {
    if acts != [] {
      var front, a := acts[..|acts| - 1], acts[|acts| - 1];
      var s, t := Exec(order, Init, front), Exec(order, Init, acts);
      PassesCreateAbsent(order, front);
      NowCounts(order, front);
      SweepRecords(order, s, a);
      assert acts == front + [a];
      if t.sweeper.Passing? && t.sweeper.beganAt < |front| + 1 { PrefixStays(front, a, t.sweeper.beganAt); }
      assert front[..|front|] == front;
      forall r | r in t.log && r.SweepCreated? ensures AbsentAt(order, acts, r.id, r.beganAt) {
        assert r in s.log ==> AbsentAt(order, front, r.id, r.beganAt);
        PrefixStays(front, a, r.beganAt);
      }
    }
  }

  /** No resurrection. A pass never creates a User that milo held when the pass began; and when it creates
      one whose account Zitadel deletes at some time, either the account was still there or the pass had
      read its page before that delete. */
  lemma NoResurrection(acts: seq<Action>)
    ensures var s := Exec(ZitadelFirst, Init, acts);
      forall r :: r in s.log && r.SweepCreated? ==>
        && AbsentAt(ZitadelFirst, acts, r.id, r.beganAt)
        && (r.id in s.deletedAt ==> r.at <= s.deletedAt[r.id] || r.readAt < s.deletedAt[r.id])
  {
    RunKeeps(acts);
    PassesCreateAbsent(ZitadelFirst, acts);
    var s := Exec(ZitadelFirst, Init, acts);
    forall r | r in s.log && r.SweepCreated?
      ensures r.id in s.deletedAt ==> r.at <= s.deletedAt[r.id] || r.readAt < s.deletedAt[r.id]
    {
      assert RecordOk(s, r);
    }
  }

  /** The action makes a User, which milo does not have, for an account that Zitadel has deleted. */
  ghost predicate Resurrects(s: State, a: Action, id: Id) {
    id in s.deletedAt && id !in s.users && id in Step(ZitadelFirst, s, a).users
  }

  /** A pass under way that has the account on its page and did not see its User when it began. */
  ghost predicate StaleFor(acts: seq<Action>, id: Id) {
    var w := Exec(ZitadelFirst, Init, acts).sweeper;
    w.Passing? && id in w.page && AbsentAt(ZitadelFirst, acts, id, w.beganAt)
  }

  lemma GcCreatesNone(s: State, a: GcAction)
    ensures GcStep(ZitadelFirst, s, a).users.Keys <= s.users.Keys
  {
  }

  lemma ControllerCreatesNone(s: State, id: Id, op: ControllerAction)
    ensures ControllerStep(s, id, op).users.Keys <= s.users.Keys
  {
  }

  lemma WebhookCreates(s: State, a: OutsideAction, id: Id)
    requires id !in s.users
    ensures id in OutsideStep(s, a).users <==> a == WebhookCreate(id) && id in s.issued
  {
  }

  lemma SweeperCreates(s: State, a: SweeperAction, id: Id)
    requires id !in s.users
    ensures id in SweeperStep(s, a).users <==>
      a == SweepEnsure(id) && s.sweeper.Passing? && id in s.sweeper.page && id !in s.sweeper.snapshot
  {
  }

  /** Where a User comes from. */
  lemma OnlyTwoCreate(s: State, a: Action, id: Id)
    requires id !in s.users
    ensures id in Step(ZitadelFirst, s, a).users <==>
      || (a == Sweeps(SweepEnsure(id)) && s.sweeper.Passing? && id in s.sweeper.page && id !in s.sweeper.snapshot)
      || (a == Outside(WebhookCreate(id)) && id in s.issued)
  {
    match a
    case Outside(o) => WebhookCreates(s, o, id);
    case Sweeps(w) => SweeperCreates(s, w, id);
    case Collects(g) => GcCreatesNone(s, g);
    case Reconciles(i, op) => ControllerCreatesNone(s, i, op);
  }

  /** For every run and every next action: it brings back the User of a deleted account exactly when the User
      is missing and the action is a webhook that comes late, or the sweeper's handling of the account in a pass
      that has it on its page and began when milo had no such User; that page was then read before Zitadel
      deleted the account. */
  lemma ResurrectsIff(acts: seq<Action>, a: Action, id: Id)
    ensures var s := Exec(ZitadelFirst, Init, acts);
      && (Resurrects(s, a, id) <==>
            && id in s.deletedAt && id !in s.users
            && (a == Outside(WebhookCreate(id)) || (a == Sweeps(SweepEnsure(id)) && StaleFor(acts, id))))
      && (id in s.deletedAt && StaleFor(acts, id) ==> s.sweeper.readAt < s.deletedAt[id])
  {
    var s := Exec(ZitadelFirst, Init, acts);
    RunKeeps(acts);
    PassesCreateAbsent(ZitadelFirst, acts);
    if id !in s.users { OnlyTwoCreate(s, a, id); }
  }

  /** A User that carries the finalizer leaves milo only after its account has left Zitadel. */
  lemma FinalizerHoldsUntilAccountGone(acts: seq<Action>)
    ensures var s := Exec(ZitadelFirst, Init, acts);
      forall r :: r in s.log && r.UserRemoved? && r.hadFinalizer ==> r.id in s.deletedAt && s.deletedAt[r.id] < r.at
  {
    RunKeeps(acts);
    var s := Exec(ZitadelFirst, Init, acts);
    forall r | r in s.log && r.UserRemoved? && r.hadFinalizer ensures r.id in s.deletedAt && s.deletedAt[r.id] < r.at {
      assert RecordOk(s, r);
    }
  }

  /** The GC deletes an account only if its own listing showed it unverified, dated before the cutoff
      and without links; it deletes a User only after the account has left Zitadel. */
  lemma GcDeletesJustified(acts: seq<Action>)
    ensures var s := Exec(ZitadelFirst, Init, acts);
      forall r :: r in s.log ==>
        && (r.GcDeletedAccount? ==>
              r.links == 0 && !r.listed.verified && r.listed.createdAt.Some? && r.listed.createdAt.value < r.cutoff)
        && (r.GcDeletedUser? ==> r.id in s.deletedAt && s.deletedAt[r.id] < r.at)
  {
    RunKeeps(acts);
    var s := Exec(ZitadelFirst, Init, acts);
    forall r | r in s.log
      ensures r.GcDeletedAccount? ==>
        r.links == 0 && !r.listed.verified && r.listed.createdAt.Some? && r.listed.createdAt.value < r.cutoff
      ensures r.GcDeletedUser? ==> r.id in s.deletedAt && s.deletedAt[r.id] < r.at
    {
      assert RecordOk(s, r);
    }
  }

  /** One undisturbed reconcile of a deleting User: whether or not the account is still there, both
      are gone at the end. */
  lemma OneReconcileDrains(order: Order, s: State, id: Id)
    requires id in s.users && s.users[id].finalizer && s.users[id].deleting && WorkerOf(s, id).Idle?
    ensures var check := Step(order, Step(order, s, Reconciles(id, Get)), Reconciles(id, CheckAccount));
      var gone := if id in s.accounts then Step(order, check, Reconciles(id, FinalizerDelete(Applied))) else check;
      var done := Step(order, gone, Reconciles(id, Release(Applied)));
      && done.users == s.users - {id} && done.accounts == s.accounts - {id} && WorkerOf(done, id).Idle?
  {
    var got := Step(order, s, Reconciles(id, Get));
    assert WorkerOf(got, id) == Got(s.users[id]);
    var check := Step(order, got, Reconciles(id, CheckAccount));
    assert WorkerOf(check, id) == if id in s.accounts then Seen(s.users[id]) else Freed(s.users[id]);
    var gone := if id in s.accounts then Step(order, check, Reconciles(id, FinalizerDelete(Applied))) else check;
    assert WorkerOf(gone, id) == Freed(s.users[id]) && gone.users == s.users;
    assert id !in s.accounts ==> s.accounts - {id} == s.accounts;
  }

  /** Every User but one is the same in both states. */
  ghost predicate OthersKept(s: State, t: State, id: Id) {
    forall i :: i != id ==> (i in s.users <==> i in t.users) && (i in s.users ==> t.users[i] == s.users[i])
  }

  /** One undisturbed reconcile of a live User without the finalizer puts it on, and changes nothing else. */
  lemma FinalizerGoesOn(order: Order, s: State, id: Id)
    requires id in s.users && !s.users[id].finalizer && !s.users[id].deleting && WorkerOf(s, id).Idle?
    ensures var t := Step(order, Step(order, s, Reconciles(id, Get)), Reconciles(id, AddFinalizer(Applied)));
      && id in t.users && t.users[id].finalizer && !t.users[id].deleting && WorkerOf(t, id).Idle?
      && OthersKept(s, t, id) && t.accounts == s.accounts && t.log == s.log
  {
    var got := Step(order, s, Reconciles(id, Get));
    assert WorkerOf(got, id) == Got(s.users[id]) && got.users == s.users;
  }

  /** Deleting a User that carries the finalizer only marks it. */
  lemma FinalizerHolds(order: Order, s: State, id: Id)
    requires id in s.users && s.users[id].finalizer
    ensures var t := Step(order, s, Outside(AdminDelete(id)));
      && id in t.users && t.users[id].finalizer && t.users[id].deleting
      && OthersKept(s, t, id) && t.accounts == s.accounts && t.log == s.log && t.workers == s.workers
  {
  }

  /** The reconcile of a deleting User, to its end. */
  ghost function Drained(order: Order, s: State, id: Id): State {
    var check := Step(order, Step(order, s, Reconciles(id, Get)), Reconciles(id, CheckAccount));
    var gone := if id in s.accounts then Step(order, check, Reconciles(id, FinalizerDelete(Applied))) else check;
    Step(order, gone, Reconciles(id, Release(Applied)))
  }

  lemma DrainIsRecorded(order: Order, s: State, id: Id)
    requires id in s.users && s.users[id].finalizer && s.users[id].deleting && WorkerOf(s, id).Idle?
    ensures exists at :: UserRemoved(id, true, at) in Drained(order, s, id).log
  {
    var got := Step(order, s, Reconciles(id, Get));
    assert WorkerOf(got, id) == Got(s.users[id]);
    var check := Step(order, got, Reconciles(id, CheckAccount));
    assert WorkerOf(check, id) == if id in s.accounts then Seen(s.users[id]) else Freed(s.users[id]);
    var gone := if id in s.accounts then Step(order, check, Reconciles(id, FinalizerDelete(Applied))) else check;
    assert WorkerOf(gone, id) == Freed(s.users[id]) && gone.users == s.users;
    assert UserRemoved(id, true, gone.now) in Step(order, gone, Reconciles(id, Release(Applied))).log;
  }

  /** The life of a User under the controller: from any state in which it is live and unguarded, a reconcile, an
      administrator's delete and a second reconcile, each undisturbed, take the User and its account away, in that
      order of events: the delete alone takes away neither. */
  lemma GuardedDeletion(order: Order, s: State, id: Id)
    requires id in s.users && !s.users[id].finalizer && !s.users[id].deleting && WorkerOf(s, id).Idle?
    ensures var guarded := Step(order, Step(order, s, Reconciles(id, Get)), Reconciles(id, AddFinalizer(Applied)));
      var marked := Step(order, guarded, Outside(AdminDelete(id)));
      var done := Drained(order, marked, id);
      && id in marked.users && marked.accounts == s.accounts
      && id !in done.users && OthersKept(s, done, id) && done.accounts == s.accounts - {id}
      && exists at :: UserRemoved(id, true, at) in done.log
  {
    var guarded := Step(order, Step(order, s, Reconciles(id, Get)), Reconciles(id, AddFinalizer(Applied)));
    var marked := Step(order, guarded, Outside(AdminDelete(id)));
    FinalizerGoesOn(order, s, id);
    FinalizerHolds(order, guarded, id);
    OneReconcileDrains(order, marked, id);
    DrainIsRecorded(order, marked, id);
  }

  /** The collector deletes what it should: an account listed unverified, dated before the cutoff, whose links
      are read and empty, goes in one undisturbed visit, and its User goes or is marked. */
  lemma CollectorCollects(s: State, id: Id, cutoff: int)
    requires id in s.accounts && !s.accounts[id].verified
    requires s.accounts[id].createdAt.Some? && s.accounts[id].createdAt.value < cutoff
    ensures var listed := Step(ZitadelFirst, s, Collects(GcList(cutoff, {id})));
      var cleared := Step(ZitadelFirst, listed, Collects(GcReadLinks(id, 0)));
      var half := Step(ZitadelFirst, cleared, Collects(GcDeleteAccount(Applied)));
      var done := Step(ZitadelFirst, half, Collects(GcDeleteUser(Applied)));
      && half.accounts == s.accounts - {id} && half.users == s.users && done.accounts == half.accounts
      && OthersKept(s, done, id)
      && (id in done.users <==> id in s.users && s.users[id].finalizer)
      && (id in done.users ==> done.users[id].deleting)
  {
    var listed := Step(ZitadelFirst, s, Collects(GcList(cutoff, {id})));
    assert listed.gc == Collector(cutoff, map[id := s.accounts[id]], Between);
    var cleared := Step(ZitadelFirst, listed, Collects(GcReadLinks(id, 0)));
    assert cleared.gc.stage == Cleared(id, 0);
    var half := Step(ZitadelFirst, cleared, Collects(GcDeleteAccount(Applied)));
    assert half.gc.stage == Half(id);
  }

  /** A run from the start in which a User that carries the finalizer leaves milo, for every id. */
  lemma GuardedDeletionHappens(id: Id)
    ensures exists acts, at :: UserRemoved(id, true, at) in Exec(ZitadelFirst, Init, acts).log
  {
    var acts, s := UserAppears(id);
    acts, s := Extend(ZitadelFirst, acts, s, Reconciles(id, Get));
    acts, s := Extend(ZitadelFirst, acts, s, Reconciles(id, AddFinalizer(Applied)));
    FinalizerGoesOn(ZitadelFirst, AppearedState(id), id);
    FinalizerHolds(ZitadelFirst, s, id);
    acts, s := Extend(ZitadelFirst, acts, s, Outside(AdminDelete(id)));
    acts := DrainRuns(acts, s, id);
    DrainIsRecorded(ZitadelFirst, s, id);
  }

  ghost function AppearedState(id: Id): State {
    Init.(accounts := map[id := OLD], issued := {id}, users := map[id := Object(false, false, 0)],
          nextVersion := 1, now := 2)
  }

  lemma UserAppears(id: Id) returns (acts: seq<Action>, s: State)
    ensures s == Exec(ZitadelFirst, Init, acts) == AppearedState(id)
  {
    acts, s := [], Init;
    acts, s := Extend(ZitadelFirst, acts, s, Outside(Register(id, OLD)));
    assert s == Init.(accounts := map[id := OLD], issued := {id}, now := 1);
    acts, s := Extend(ZitadelFirst, acts, s, Outside(WebhookCreate(id)));
  }

  lemma DrainRuns(acts: seq<Action>, s: State, id: Id) returns (acts': seq<Action>)
    requires s == Exec(ZitadelFirst, Init, acts)
    ensures Exec(ZitadelFirst, Init, acts') == Drained(ZitadelFirst, s, id)
  {
    var t;
    acts', t := Extend(ZitadelFirst, acts, s, Reconciles(id, Get));
    acts', t := Extend(ZitadelFirst, acts', t, Reconciles(id, CheckAccount));
    if id in s.accounts { acts', t := Extend(ZitadelFirst, acts', t, Reconciles(id, FinalizerDelete(Applied))); }
    acts', t := Extend(ZitadelFirst, acts', t, Reconciles(id, Release(Applied)));
  }

  // ----- Why the order and the conditions matter -----

  lemma Extend(order: Order, acts: seq<Action>, s: State, a: Action) returns (acts': seq<Action>, s': State)
    requires s == Exec(order, Init, acts)
    ensures acts' == acts + [a] && s' == Step(order, s, a) == Exec(order, Init, acts')
  {
    acts', s' := acts + [a], Step(order, s, a);
    assert acts'[..|acts|] == acts;
  }

  const OLD: Account := Account(false, Some(0))

  /** A User created at `at`, by a pass that began at `began`, from a page read at `readAt`. */
  ghost predicate CreatedBySweep(s: State, id: Id, began: nat, readAt: nat, at: nat) {
    SweepCreated(id, began, readAt, at) in s.log
  }

  /** A run that ends with the GC between its swapped deletes: the User is gone, the account is not. */
  lemma UserDeletedFirst(id: Id) returns (acts: seq<Action>, s: State)
    ensures s == Exec(MiloFirst, Init, acts) && s.now == 5
    ensures id in s.accounts && id !in s.users && UserRemoved(id, false, 4) in s.log
    ensures s.gc.stage == Half(id) && id in s.gc.page
  {
    acts, s := [], Init;
    acts, s := Extend(MiloFirst, acts, s, Outside(Register(id, OLD)));
    acts, s := Extend(MiloFirst, acts, s, Outside(WebhookCreate(id)));
    acts, s := Extend(MiloFirst, acts, s, Collects(GcList(1, {id})));
    assert id in s.gc.page && s.gc.page[id] == OLD;
    acts, s := Extend(MiloFirst, acts, s, Collects(GcReadLinks(id, 0)));
    acts, s := Extend(MiloFirst, acts, s, Collects(GcDeleteUser(Applied)));
  }

  /** A pass that starts now and reads one page. */
  lemma PassReads(order: Order, acts: seq<Action>, s: State, id: Id) returns (acts': seq<Action>, s': State)
    requires s == Exec(order, Init, acts) && id in s.accounts
    ensures s' == Exec(order, Init, acts')
    ensures s' == s.(sweeper := Passing(s.now, s.users.Keys, {id}, s.now + 1), now := s.now + 2)
  {
    acts', s' := Extend(order, acts, s, Sweeps(SweepStart));
    assert s' == s.(sweeper := Passing(s.now, s.users.Keys, {}, s.now), now := s.now + 1);
    assert {id} * s.accounts.Keys == {id};
    acts', s' := Extend(order, acts', s', Sweeps(SweepRead({id})));
  }

  /** A pass that starts now, reads one page and handles the missing User on it. */
  lemma WholePass(order: Order, acts: seq<Action>, s: State, id: Id) returns (acts': seq<Action>, s': State)
    requires s == Exec(order, Init, acts) && id in s.accounts && id !in s.users
    ensures s' == Exec(order, Init, acts') && s'.now == s.now + 3 && s'.accounts == s.accounts && s'.gc == s.gc
    ensures id in s'.users && s'.log == s.log + [SweepCreated(id, s.now, s.now + 1, s.now + 2)]
  {
    acts', s' := PassReads(order, acts, s, id);
    acts', s' := Extend(order, acts', s', Sweeps(SweepEnsure(id)));
  }

  /** With the two deletes swapped, a pass that begins and reads its page after the GC's first delete
      brings the User back, and it stays when the account has gone. */
  lemma SwappedOrderResurrects(id: Id)
    ensures exists acts, removed, began, readAt, at :: var s := Exec(MiloFirst, Init, acts);
      && s.gc.stage.Between? && id in s.users && id !in s.accounts
      && UserRemoved(id, false, removed) in s.log && removed < began && CreatedBySweep(s, id, began, readAt, at)
  {
    var acts, s := UserDeletedFirst(id);
    acts, s := WholePass(MiloFirst, acts, s, id);
    var before := s.log;
    assert UserRemoved(id, false, 4) in before && SweepCreated(id, 5, 6, 7) in before;
    acts, s := Extend(MiloFirst, acts, s, Collects(GcDeleteAccount(Applied)));
    assert forall r :: r in before ==> r in s.log;
    assert UserRemoved(id, false, 4) in s.log && CreatedBySweep(s, id, 5, 6, 7);
  }

  /** A pass under way with an empty snapshot and `id` on its page. */
  ghost function PassUnderWay(id: Id): State {
    Init.(accounts := map[id := OLD], issued := {id}, sweeper := Passing(1, {}, {id}, 2), now := 3)
  }

  lemma PassFirst(id: Id) returns (acts: seq<Action>)
    ensures Exec(ZitadelFirst, Init, acts) == PassUnderWay(id)
  {
    var s;
    acts, s := [], Init;
    acts, s := Extend(ZitadelFirst, acts, s, Outside(Register(id, OLD)));
    assert s == Init.(accounts := map[id := OLD], issued := {id}, now := 1);
    acts, s := PassReads(ZitadelFirst, acts, s, id);
    assert Init.users.Keys == {};
  }

  /** The same pass, and a User created since. */
  ghost function StaleState(id: Id): State {
    PassUnderWay(id).(users := map[id := Object(false, false, 0)], nextVersion := 1, now := 4)
  }

  lemma StalePass(id: Id) returns (acts: seq<Action>)
    ensures Exec(ZitadelFirst, Init, acts) == StaleState(id)
  {
    var s;
    acts := PassFirst(id);
    acts, s := Extend(ZitadelFirst, acts, PassUnderWay(id), Outside(WebhookCreate(id)));
  }

  /** The GC has listed `id` and read its links. */
  lemma StaleCleared(id: Id) returns (acts: seq<Action>)
    ensures Exec(ZitadelFirst, Init, acts)
         == StaleState(id).(gc := Collector(1, map[id := OLD], Cleared(id, 0)), now := 6)
  {
    var s;
    acts := StalePass(id);
    acts, s := Extend(ZitadelFirst, acts, StaleState(id), Collects(GcList(1, {id})));
    assert s.gc.page == map[id := OLD];
    acts, s := Extend(ZitadelFirst, acts, s, Collects(GcReadLinks(id, 0)));
  }

  /** The GC has deleted the account. */
  lemma StaleHalf(id: Id) returns (acts: seq<Action>)
    ensures var t := StaleState(id);
      Exec(ZitadelFirst, Init, acts)
      == t.(gc := Collector(1, map[id := OLD], Half(id)), accounts := map[], deletedAt := map[id := 6], now := 7,
            log := [GcDeletedAccount(id, OLD, 0, 1, 6)])
  {
    var s;
    acts := StaleCleared(id);
    acts, s := Extend(ZitadelFirst, acts,
        StaleState(id).(gc := Collector(1, map[id := OLD], Cleared(id, 0)), now := 6),
        Collects(GcDeleteAccount(Applied)));
    assert map[id := OLD] - {id} == map[];
  }

  /** A run in which it happens: a pass whose snapshot predates the User and whose page predates the Zitadel
      delete recreates the User of an account that the GC has collected. */
  lemma StalePassResurrects(id: Id)
    ensures exists acts, began, readAt, at :: var s := Exec(ZitadelFirst, Init, acts);
      && s.gc.stage.Between? && id in s.users && id in s.deletedAt
      && readAt < s.deletedAt[id] < at && CreatedBySweep(s, id, began, readAt, at)
  {
    var acts := StaleHalf(id);
    var s := Exec(ZitadelFirst, Init, acts);
    acts, s := Extend(ZitadelFirst, acts, s, Collects(GcDeleteUser(Applied)));
    assert id !in s.users && s.sweeper == Passing(1, {}, {id}, 2) && s.deletedAt == map[id := 6];
    acts, s := Extend(ZitadelFirst, acts, s, Sweeps(SweepEnsure(id)));
    assert CreatedBySweep(s, id, 1, 2, 8);
  }
}
