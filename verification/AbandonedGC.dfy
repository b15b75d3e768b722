/** What one abandoned-account sweep does, as functions of the listing and of every reply it gets,
    and what follows for coverage, progress, delete order and the gauge. */
module AbandonedGC {
  import opened Wrappers
  import opened Stores
  import opened Paging

  datatype Links = LinksError | Links(count: nat)
  datatype Methods = MethodsError | Methods(names: seq<string>)

  /** Every reply of the remote calls of one sweep. A sweep asks each question at most once
      (ScannedOnceInOrder), so a reply per offset and per id is a reply per call. */
  datatype Env = Env(listOk: nat -> bool, links: Id -> Links, methods: Id -> Methods,
                     zitadelDelete: Id -> Outcome, miloDelete: Id -> Outcome)

  datatype Config = Config(cutoff: int, dryRun: bool)

  const USABLE_CREDENTIALS: set<string> :=
    {"AUTHENTICATION_METHOD_TYPE_PASSWORD", "AUTHENTICATION_METHOD_TYPE_PASSKEY", "AUTHENTICATION_METHOD_TYPE_IDP"}

  predicate HasUsable(methods: seq<string>) {
    exists m :: m in methods && m in USABLE_CREDENTIALS
  }

  predicate Candidate(c: Config, e: Env, u: Row) {
    IsAbandoned(u.verified, u.createdAt, c.cutoff) && e.links(u.id) == Links(0)
  }

  /** The visit of `u` removes its Zitadel account. */
  predicate Reaped(c: Config, e: Env, u: Row) {
    Candidate(c, e, u) && !c.dryRun && e.zitadelDelete(u.id).TookEffect()
  }

  predicate LacksCredential(e: Env, u: Row) {
    u.verified && e.methods(u.id).Methods? && !HasUsable(e.methods(u.id).names)
  }

  ghost function Removed(c: Config, e: Env, us: seq<Row>): set<Id> {
    set u | u in us && Reaped(c, e, u) :: u.id
  }

  // ----- The visits' effects, in order -----

  datatype Event = ZitadelDelete(id: Id, reply: Outcome) | MiloDelete(id: Id, reply: Outcome)

  function VisitEvents(c: Config, e: Env, u: Row): seq<Event> {
    if !Candidate(c, e, u) || c.dryRun then []
    else if !e.zitadelDelete(u.id).ReportedOk() then [ZitadelDelete(u.id, e.zitadelDelete(u.id))]
    else [ZitadelDelete(u.id, Applied), MiloDelete(u.id, e.miloDelete(u.id))]
  }

  function Events(c: Config, e: Env, us: seq<Row>): seq<Event> {
    if us == [] then [] else Events(c, e, us[..|us| - 1]) + VisitEvents(c, e, us[|us| - 1])
  }

  predicate DropsUser(c: Config, e: Env, u: Row) {
    Candidate(c, e, u) && !c.dryRun && e.zitadelDelete(u.id).ReportedOk() && e.miloDelete(u.id).TookEffect()
  }

  function MiloAfter(c: Config, e: Env, milo: map<Id, User>, us: seq<Row>): map<Id, User> {
    if us == [] then milo
    else
      var before := MiloAfter(c, e, milo, us[..|us| - 1]);
      if DropsUser(c, e, us[|us| - 1]) then ApiDelete(before, us[|us| - 1].id) else before
  }

  datatype Tally = Tally(scanned: nat, eligible: nat, deleted: nat, skippedIdp: nat, errors: nat, noCredential: nat)

  function VisitTally(c: Config, e: Env, t: Tally, u: Row): Tally {
    var links := if IsAbandoned(u.verified, u.createdAt, c.cutoff) then e.links(u.id) else Links(0);
    var acts := Candidate(c, e, u) && !c.dryRun;
    var collected := acts && e.zitadelDelete(u.id).ReportedOk() && e.miloDelete(u.id).ReportedOk();
    Tally(t.scanned + 1,
          t.eligible + (if Candidate(c, e, u) then 1 else 0),
          t.deleted + (if collected then 1 else 0),
          t.skippedIdp + (if links.Links? && links.count > 0 then 1 else 0),
          t.errors + (if u.verified && e.methods(u.id).MethodsError? then 1 else 0)
                   + (if links.LinksError? then 1 else 0)
                   + (if acts && !collected then 1 else 0),
          t.noCredential + (if LacksCredential(e, u) then 1 else 0))
  }

  function TallyOf(c: Config, e: Env, start: Tally, us: seq<Row>): Tally {
    if us == [] then start
    else VisitTally(c, e, TallyOf(c, e, start, us[..|us| - 1]), us[|us| - 1])
  }

  // ----- The page loop -----

  ghost function SweepFrom(c: Config, e: Env, rows: seq<Row>, offset: nat): Trace
    decreases if |rows| > offset then |rows| - offset else 0
  {
    if !e.listOk(offset) then Trace([], rows, false)
    else
      var page := RawPage(rows, offset);
      var users := Humans(page);
      var rows' := Without(rows, Removed(c, e, users));
      if |page| < SWEEP_PAGE_SIZE then Trace(users, rows', true)
      else
        var rest := SweepFrom(c, e, rows', offset + |page|);
        Trace(users + rest.scanned, rest.rows, rest.complete)
  }

  // ----- Coverage under the sweep's own deletes -----

  /** Deleting rows of the middle part leaves the outer parts alone. */
  lemma ApartFromPage(front: seq<Row>, page: seq<Row>, tail: seq<Row>, gone: set<Id>)
    requires DistinctIds(front + page + tail)
    requires forall id :: id in gone ==> exists u :: u in page && u.id == id
    ensures Without(front + page + tail, gone) == front + Without(page, gone) + tail
  {
    var rows := front + page + tail;
    forall i | 0 <= i < |front| ensures front[i].id !in gone {
      forall j | 0 <= j < |page| ensures page[j].id != front[i].id {
        assert rows[i] == front[i] && rows[|front| + j] == page[j];
      }
    }
    forall i | 0 <= i < |tail| ensures tail[i].id !in gone {
      forall j | 0 <= j < |page| ensures page[j].id != tail[i].id {
        assert rows[|front| + |page| + i] == tail[i] && rows[|front| + j] == page[j];
      }
    }
    WithoutConcat(front + page, tail, gone);
    WithoutConcat(front, page, gone);
    WithoutNone(front, gone);
    WithoutNone(tail, gone);
  }

  /** Deleting from a full page shifts the rows after it left by exactly the number deleted. */
  lemma PageShift(rows: seq<Row>, offset: nat, gone: set<Id>)
    requires DistinctIds(rows) && |RawPage(rows, offset)| == SWEEP_PAGE_SIZE
    requires forall id :: id in gone ==> exists u :: u in RawPage(rows, offset) && u.id == id
    ensures var next := offset + SWEEP_PAGE_SIZE;
      var rows' := Without(rows, gone);
      var tail := rows[next..];
      From(rows', next) == tail[Min(|rows| - |rows'|, |tail|)..]
  {
    var next := offset + SWEEP_PAGE_SIZE;
    var front, page, tail := rows[..offset], RawPage(rows, offset), rows[next..];
    assert rows == front + page + tail;
    ApartFromPage(front, page, tail, gone);
    ShiftedTail(front + Without(page, gone), tail, next);
  }

  lemma SweepStep(c: Config, e: Env, rows: seq<Row>, offset: nat)
    requires e.listOk(offset)
    ensures var page := RawPage(rows, offset);
      var left := Without(rows, Removed(c, e, Humans(page)));
      var rest := SweepFrom(c, e, left, offset + SWEEP_PAGE_SIZE);
      SweepFrom(c, e, rows, offset)
      == if |page| < SWEEP_PAGE_SIZE then Trace(Humans(page), left, true)
         else Trace(Humans(page) + rest.scanned, rest.rows, rest.complete)
  {
  }

  /** Each human is scanned at most once and in list order, and a complete sweep misses at most
      as many humans as it removed from the list. */
  lemma {:induction false} Coverage(c: Config, e: Env, rows: seq<Row>, offset: nat)
    ensures Covers(SweepFrom(c, e, rows, offset), rows, offset)
    decreases if |rows| > offset then |rows| - offset else 0
  {
    if e.listOk(offset) {
      var gone := Removed(c, e, Humans(RawPage(rows, offset)));
      SweepStep(c, e, rows, offset);
      if |RawPage(rows, offset)| < SWEEP_PAGE_SIZE {
        CoversLastPage(rows, offset, Without(rows, gone));
      } else {
        Coverage(c, e, Without(rows, gone), offset + SWEEP_PAGE_SIZE);
        CoversFullPage(rows, offset, gone, SweepFrom(c, e, Without(rows, gone), offset + SWEEP_PAGE_SIZE));
      }
    }
  }

  /** The listing a sweep leaves is the old one without exactly the reaped accounts, in order. */
  lemma {:induction false} FinalListing(c: Config, e: Env, rows: seq<Row>, offset: nat)
    ensures var t := SweepFrom(c, e, rows, offset);
      t.rows == Without(rows, Removed(c, e, t.scanned))
    decreases if |rows| > offset then |rows| - offset else 0
  {
    if !e.listOk(offset) {
      WithoutNone(rows, {});
      assert Removed(c, e, []) == {};
    } else {
      var users := Humans(RawPage(rows, offset));
      var rows' := Without(rows, Removed(c, e, users));
      if |RawPage(rows, offset)| == SWEEP_PAGE_SIZE {
        var next := offset + SWEEP_PAGE_SIZE;
        var rest := SweepFrom(c, e, rows', next);
        FinalListing(c, e, rows', next);
        WithoutTwice(rows, Removed(c, e, users), Removed(c, e, rest.scanned));
        assert Removed(c, e, users + rest.scanned) == Removed(c, e, users) + Removed(c, e, rest.scanned);
      }
    }
  }

  /** The whole sweep: at most once, in order, and the misses bounded by the removals. */
  lemma ScannedOnceInOrder(c: Config, e: Env, rows: seq<Row>)
    requires DistinctIds(rows)
    ensures var t := SweepFrom(c, e, rows, 0);
      && IsSubsequence(t.scanned, Humans(rows))
      && DistinctIds(t.scanned)
      && (t.complete ==> |Humans(rows)| - |t.scanned| <= |rows| - |t.rows|)
  {
    Coverage(c, e, rows, 0);
    assert From(rows, 0) == rows;
    HumansDistinct(rows);
    SubsequenceBound(SweepFrom(c, e, rows, 0).scanned, Humans(rows));
  }

  /** A complete sweep that removes nothing scans every human exactly once, in order. */
  lemma NothingRemovedScansAll(c: Config, e: Env, rows: seq<Row>)
    requires DistinctIds(rows)
    requires SweepFrom(c, e, rows, 0).complete && |SweepFrom(c, e, rows, 0).rows| == |rows|
    ensures SweepFrom(c, e, rows, 0).scanned == Humans(rows)
  {
    ScannedOnceInOrder(c, e, rows);
    SubsequenceBound(SweepFrom(c, e, rows, 0).scanned, Humans(rows));
  }

  /** A dry run changes neither store and, when every page is read, scans every human; the gauge it
      sets is then the number of verified accounts with a readable, unusable method list. */
  lemma DryRun(c: Config, e: Env, rows: seq<Row>, milo: map<Id, User>)
    requires c.dryRun && DistinctIds(rows)
    ensures var t := SweepFrom(c, e, rows, 0);
      && t.rows == rows
      && MiloAfter(c, e, milo, t.scanned) == milo
      && Events(c, e, t.scanned) == []
      && (t.complete ==>
            && t.scanned == Humans(rows)
            && TallyOf(c, e, Tally(0, 0, 0, 0, 0, 0), t.scanned).noCredential
               == |set u | u in rows && u.human && u.verified && e.methods(u.id).Methods?
                           && !HasUsable(e.methods(u.id).names)|)
  {
    var t := SweepFrom(c, e, rows, 0);
    FinalListing(c, e, rows, 0);
    WithoutNone(rows, Removed(c, e, t.scanned));
    DryVisits(c, e, milo, t.scanned);
    if t.complete {
      NothingRemovedScansAll(c, e, rows);
      HumansMembers(rows);
      HumansDistinct(rows);
      GaugeCounts(c, e, t.scanned);
      assert Lacking(e, t.scanned) == (set u | u in rows && u.human && u.verified && e.methods(u.id).Methods?
                                               && !HasUsable(e.methods(u.id).names));
    }
  }

  lemma {:induction false} DryVisits(c: Config, e: Env, milo: map<Id, User>, us: seq<Row>)
    requires c.dryRun
    ensures MiloAfter(c, e, milo, us) == milo && Events(c, e, us) == []
  {
    if us != [] { DryVisits(c, e, milo, us[..|us| - 1]); }
  }

  ghost function Lacking(e: Env, us: seq<Row>): set<Row> {
    set u | u in us && LacksCredential(e, u)
  }

  lemma LackingStep(e: Env, us: seq<Row>, u: Row)
    requires u !in us
    ensures |Lacking(e, us + [u])| == |Lacking(e, us)| + if LacksCredential(e, u) then 1 else 0
  {
    assert Lacking(e, us + [u]) == Lacking(e, us) + if LacksCredential(e, u) then {u} else {};
  }

  lemma {:induction false} GaugeCounts(c: Config, e: Env, us: seq<Row>)
    requires DistinctIds(us)
    ensures TallyOf(c, e, Tally(0, 0, 0, 0, 0, 0), us).noCredential == |Lacking(e, us)|
  {
    if us == [] {
      assert Lacking(e, us) == {};
    } else {
      var front, u := us[..|us| - 1], us[|us| - 1];
      GaugeCounts(c, e, front);
      assert us == front + [u];
      LackingStep(e, front, u);
    }
  }

  // ----- Delete order and justification -----

  /** Some scanned row shows `id` unverified, dated before the cutoff and with no link. */
  ghost predicate Justified(c: Config, e: Env, us: seq<Row>, id: Id) {
    exists u: Row :: u in us && u.id == id && !u.verified && u.createdAt.Some? && u.createdAt.value < c.cutoff
                     && e.links(u.id) == Links(0)
  }

  /** Every delete is of a justified account and never in a dry run. */
  lemma {:induction false} DeletesJustified(c: Config, e: Env, us: seq<Row>)
    ensures forall d :: d in Events(c, e, us) ==> !c.dryRun && Justified(c, e, us, d.id)
  {
    if us != [] {
      var u := us[|us| - 1];
      DeletesJustified(c, e, us[..|us| - 1]);
      assert us == us[..|us| - 1] + [u];
      forall d | d in Events(c, e, us) ensures !c.dryRun && Justified(c, e, us, d.id) {
        if d in VisitEvents(c, e, u) {
          assert u in us && d.id == u.id;
        } else {
          assert Justified(c, e, us[..|us| - 1], d.id);
        }
      }
    }
  }

  /** A milo delete directly follows the successful Zitadel delete of the same account. */
  ghost predicate ZitadelFirst(ev: seq<Event>, k: nat)
    requires k < |ev|
  {
    ev[k].MiloDelete? ==> k > 0 && ev[k - 1] == ZitadelDelete(ev[k].id, Applied)
  }

  lemma {:induction false} DeleteOrder(c: Config, e: Env, us: seq<Row>)
    ensures forall k :: 0 <= k < |Events(c, e, us)| ==> ZitadelFirst(Events(c, e, us), k)
  {
    if us != [] {
      DeleteOrder(c, e, us[..|us| - 1]);
      var before, last := Events(c, e, us[..|us| - 1]), VisitEvents(c, e, us[|us| - 1]);
      forall k | 0 <= k < |before + last| ensures ZitadelFirst(before + last, k) {
        if k < |before| { assert ZitadelFirst(before, k); }
      }
    }
  }

  /** The reads of authentication methods decide nothing: other lists give the same scan, listing, deletes and Users. */
  lemma {:induction false} MethodsDecideNothing(c: Config, e: Env, methods: Id -> Methods, rows: seq<Row>, offset: nat)
    ensures SweepFrom(c, e, rows, offset) == SweepFrom(c, e.(methods := methods), rows, offset)
    decreases if |rows| > offset then |rows| - offset else 0
  {
    var e' := e.(methods := methods);
    var users := Humans(RawPage(rows, offset));
    assert Removed(c, e, users) == Removed(c, e', users);
    if e.listOk(offset) && |RawPage(rows, offset)| == SWEEP_PAGE_SIZE {
      MethodsDecideNothing(c, e, methods, Without(rows, Removed(c, e, users)), offset + SWEEP_PAGE_SIZE);
    }
  }

  lemma {:induction false} MethodsDecideNoEffect(c: Config, e: Env, methods: Id -> Methods, milo: map<Id, User>,
      us: seq<Row>)
    ensures Events(c, e, us) == Events(c, e.(methods := methods), us)
    ensures MiloAfter(c, e, milo, us) == MiloAfter(c, e.(methods := methods), milo, us)
  {
    if us != [] { MethodsDecideNoEffect(c, e, methods, milo, us[..|us| - 1]); }
  }

  /** Some scanned row named `id` and both of its deletes went through. */
  ghost predicate Hit(c: Config, e: Env, us: seq<Row>, id: Id) {
    exists u: Row :: u in us && u.id == id && DropsUser(c, e, u)
  }

  lemma HitStep(c: Config, e: Env, us: seq<Row>, u: Row, id: Id)
    ensures Hit(c, e, us + [u], id) <==> Hit(c, e, us, id) || (u.id == id && DropsUser(c, e, u))
  {
    if Hit(c, e, us, id) {
      var v: Row :| v in us && v.id == id && DropsUser(c, e, v);
      assert v in us + [u];
    }
    assert u in us + [u];
  }

  /** The milo store after a sweep, User by User: a hit User is gone, or marked when it carries the
      finalizer; every other User is untouched. */
  lemma {:induction false} MiloUserFate(c: Config, e: Env, milo: map<Id, User>, us: seq<Row>, id: Id)
    ensures var after := MiloAfter(c, e, milo, us);
      && (id in after <==> id in milo && (Hit(c, e, us, id) ==> milo[id].finalizer))
      && (id in after ==> after[id] == if Hit(c, e, us, id) then milo[id].(deleting := true) else milo[id])
  {
    if us != [] {
      var front, u := us[..|us| - 1], us[|us| - 1];
      MiloUserFate(c, e, milo, front, id);
      assert us == front + [u];
      HitStep(c, e, front, u, id);
    }
  }

  /** The comment on `collect` promises a retry of the milo side. There is none: once the account is
      off the listing no later sweep touches its User, whatever the replies are. */
  lemma OrphanIsNeverRetried(c: Config, e: Env, rows: seq<Row>, milo: map<Id, User>, id: Id)
    requires DistinctIds(rows) && forall r :: r in rows ==> r.id != id
    ensures var t := SweepFrom(c, e, rows, 0);
      && (id in MiloAfter(c, e, milo, t.scanned) <==> id in milo)
      && (id in milo ==> MiloAfter(c, e, milo, t.scanned)[id] == milo[id])
      && (forall d :: d in Events(c, e, t.scanned) ==> d.id != id)
  {
    var t := SweepFrom(c, e, rows, 0);
    ScannedOnceInOrder(c, e, rows);
    SubsequenceBound(t.scanned, Humans(rows));
    HumansMembers(rows);
    MiloUserFate(c, e, milo, t.scanned, id);
    DeletesJustified(c, e, t.scanned);
  }

  // ----- Progress -----

  /** An account the design says to collect: a human whose address was never verified, of known age and old
      enough, with a link list that was read and is empty. */
  predicate Collectable(c: Config, e: Env, u: Row) {
    u.human && !u.verified && u.createdAt.Some? && u.createdAt.value < c.cutoff && e.links(u.id) == Links(0)
  }

  /** In a live sweep every scanned account to collect has its Zitadel delete, and its milo delete if that
      succeeded: none is passed over, whatever failed for others. */
  lemma {:induction false} NonePassedOver(c: Config, e: Env, us: seq<Row>, u: Row)
    requires !c.dryRun && u in us && Collectable(c, e, u)
    ensures ZitadelDelete(u.id, e.zitadelDelete(u.id)) in Events(c, e, us)
    ensures e.zitadelDelete(u.id) == Applied ==> MiloDelete(u.id, e.miloDelete(u.id)) in Events(c, e, us)
  {
    var front, last := us[..|us| - 1], us[|us| - 1];
    assert us == front + [last];
    if u == last {
      var mine := VisitEvents(c, e, u);
      assert mine[0] == ZitadelDelete(u.id, e.zitadelDelete(u.id));
      assert e.zitadelDelete(u.id) == Applied ==> mine[1] == MiloDelete(u.id, e.miloDelete(u.id));
      assert forall d :: d in mine ==> d in Events(c, e, front) + mine;
    } else {
      NonePassedOver(c, e, front, u);
    }
  }

  // ----- What the counters count -----

  datatype Kind = Eligible | Deleted | SkippedIdp | MethodsUnread | LinksUnread | CollectFailed | NoCredential

  predicate Overdue(c: Config, u: Row) { !u.verified && u.createdAt.Some? && u.createdAt.value < c.cutoff }

  predicate Falls(k: Kind, c: Config, e: Env, u: Row) {
    match k
    case Eligible => Overdue(c, u) && e.links(u.id) == Links(0)
    case Deleted =>
      && !c.dryRun && Overdue(c, u) && e.links(u.id) == Links(0)
      && e.zitadelDelete(u.id) == Applied && e.miloDelete(u.id) == Applied
    case SkippedIdp => Overdue(c, u) && e.links(u.id) != LinksError && e.links(u.id) != Links(0)
    case MethodsUnread => u.verified && e.methods(u.id) == MethodsError
    case LinksUnread => Overdue(c, u) && e.links(u.id) == LinksError
    case CollectFailed =>
      && !c.dryRun && Overdue(c, u) && e.links(u.id) == Links(0)
      && !(e.zitadelDelete(u.id) == Applied && e.miloDelete(u.id) == Applied)
    case NoCredential =>
      u.verified && e.methods(u.id).Methods? && forall m :: m in e.methods(u.id).names ==> m !in USABLE_CREDENTIALS
  }

  /** How many of the rows fall under the heading. */
  function Count(k: Kind, c: Config, e: Env, us: seq<Row>): nat {
    if us == [] then 0
    else Count(k, c, e, us[..|us| - 1]) + if Falls(k, c, e, us[|us| - 1]) then 1 else 0
  }

  lemma VisitCounts(c: Config, e: Env, t: Tally, u: Row)
    ensures var one := (k: Kind) => if Falls(k, c, e, u) then 1 else 0;
      VisitTally(c, e, t, u)
      == Tally(t.scanned + 1, t.eligible + one(Eligible), t.deleted + one(Deleted), t.skippedIdp + one(SkippedIdp),
               t.errors + one(MethodsUnread) + one(LinksUnread) + one(CollectFailed),
               t.noCredential + one(NoCredential))
  {
  }

  /** The counters and the gauge of a sweep, live or dry: how many of the scanned rows fall under each heading. */
  lemma {:induction false} TallyCounts(c: Config, e: Env, start: Tally, us: seq<Row>)
    ensures TallyOf(c, e, start, us)
         == Tally(start.scanned + |us|, start.eligible + Count(Eligible, c, e, us),
                  start.deleted + Count(Deleted, c, e, us), start.skippedIdp + Count(SkippedIdp, c, e, us),
                  start.errors + Count(MethodsUnread, c, e, us) + Count(LinksUnread, c, e, us)
                               + Count(CollectFailed, c, e, us),
                  start.noCredential + Count(NoCredential, c, e, us))
  {
    if us != [] {
      var front, u := us[..|us| - 1], us[|us| - 1];
      TallyCounts(c, e, start, front);
      VisitCounts(c, e, TallyOf(c, e, start, front), u);
    }
  }

  // ----- Progress, sweep after sweep -----

  ghost function CollectableIds(c: Config, e: Env, rows: seq<Row>): set<Id> {
    set u | u in rows && Collectable(c, e, u) :: u.id
  }

  /** No page read fails and no Zitadel delete is refused; the milo side may fail freely. */
  ghost predicate Unhindered(c: Config, e: Env) {
    && !c.dryRun
    && (forall offset :: e.listOk(offset))
    && (forall id :: e.zitadelDelete(id).TookEffect())
  }

  /** The first collectable account is never skipped: nothing before it was deleted. */
  lemma {:induction false} SomethingReaped(c: Config, e: Env, rows: seq<Row>, offset: nat, u: Row)
    requires Unhindered(c, e) && u in From(rows, offset) && Collectable(c, e, u)
    ensures Removed(c, e, SweepFrom(c, e, rows, offset).scanned) != {}
    decreases if |rows| > offset then |rows| - offset else 0
  {
    var page := RawPage(rows, offset);
    var users := Humans(page);
    if Removed(c, e, users) != {} {
      RemovedGrows(c, e, users, SweepFrom(c, e, rows, offset).scanned);
    } else {
      var next := offset + SWEEP_PAGE_SIZE;
      assert u !in page by { ReapedOnPage(c, e, page, u); }
      assert page != From(rows, offset);
      FromSplits(rows, offset);
      WithoutNone(rows, {});
      SomethingReaped(c, e, rows, next, u);
      RemovedGrows(c, e, SweepFrom(c, e, rows, next).scanned, SweepFrom(c, e, rows, offset).scanned);
    }
  }

  lemma RemovedGrows(c: Config, e: Env, us: seq<Row>, all: seq<Row>)
    requires forall u :: u in us ==> u in all
    ensures Removed(c, e, us) <= Removed(c, e, all)
  {
  }

  lemma ReapedOnPage(c: Config, e: Env, page: seq<Row>, u: Row)
    requires Unhindered(c, e) && Collectable(c, e, u)
    ensures u in page ==> u.id in Removed(c, e, Humans(page))
  {
    HumansMembers(page);
    assert Reaped(c, e, u);
  }

  lemma ReapedAreCollectable(c: Config, e: Env, rows: seq<Row>)
    requires DistinctIds(rows)
    ensures Removed(c, e, SweepFrom(c, e, rows, 0).scanned) <= CollectableIds(c, e, rows)
  {
    ScannedOnceInOrder(c, e, rows);
    SubsequenceBound(SweepFrom(c, e, rows, 0).scanned, Humans(rows));
    HumansMembers(rows);
  }

  lemma CollectableLeft(c: Config, e: Env, rows: seq<Row>, gone: set<Id>)
    ensures CollectableIds(c, e, Without(rows, gone)) == CollectableIds(c, e, rows) - gone
  {
    WithoutMembers(rows, gone);
  }

  /** One unhindered sweep removes exactly the reaped accounts: collectable ones only, and at least
      one if there are any. */
  lemma SweepProgress(c: Config, e: Env, rows: seq<Row>)
    requires Unhindered(c, e) && DistinctIds(rows)
    ensures var reaped := Removed(c, e, SweepFrom(c, e, rows, 0).scanned);
      && SweepFrom(c, e, rows, 0).rows == Without(rows, reaped)
      && reaped <= CollectableIds(c, e, rows)
      && (CollectableIds(c, e, rows) != {} ==> reaped != {})
  {
    FinalListing(c, e, rows, 0);
    ReapedAreCollectable(c, e, rows);
    if id :| id in CollectableIds(c, e, rows) {
      var u :| u in rows && Collectable(c, e, u) && u.id == id;
      assert From(rows, 0) == rows;
      SomethingReaped(c, e, rows, 0, u);
    }
  }

  /** One sweep after the other, each with replies of its own. */
  ghost function Sweeps(c: Config, envs: seq<Env>, rows: seq<Row>): seq<Row> {
    if envs == [] then rows else Sweeps(c, envs[1..], SweepFrom(c, envs[0], rows, 0).rows)
  }

  ghost predicate SameLinks(e: Env, f: Env) { forall id :: e.links(id) == f.links(id) }

  lemma LinksDecide(c: Config, e: Env, f: Env, rows: seq<Row>)
    requires SameLinks(e, f)
    ensures CollectableIds(c, e, rows) == CollectableIds(c, f, rows)
  {
    forall u ensures Collectable(c, e, u) <==> Collectable(c, f, u) { assert e.links(u.id) == f.links(u.id); }
  }

  /** At least as many sweeps as there are collectable accounts leave exactly the others, in order, if the
      sweeps are unhindered and find the same links; every other reply may differ from sweep to sweep. */
  lemma {:induction false} SweepsConverge(c: Config, envs: seq<Env>, e: Env, rows: seq<Row>)
    requires (forall f :: f in envs ==> Unhindered(c, f) && SameLinks(f, e)) && DistinctIds(rows)
    requires |envs| >= |CollectableIds(c, e, rows)|
    ensures Sweeps(c, envs, rows) == Without(rows, CollectableIds(c, e, rows))
  {
    if envs == [] {
      WithoutNone(rows, CollectableIds(c, e, rows));
    } else {
      var f := envs[0];
      var rows' := SweepFrom(c, f, rows, 0).rows;
      assert f in envs && forall g :: g in envs[1..] ==> g in envs;
      LinksDecide(c, f, e, rows);
      LinksDecide(c, f, e, rows');
      OneSweepCloser(c, f, rows, |envs|);
      SweepsConverge(c, envs[1..], e, rows');
    }
  }

  lemma OneSweepCloser(c: Config, e: Env, rows: seq<Row>, n: nat)
    requires Unhindered(c, e) && DistinctIds(rows)
    requires n > 0 && n >= |CollectableIds(c, e, rows)|
    ensures var rows' := SweepFrom(c, e, rows, 0).rows;
      && DistinctIds(rows') && |CollectableIds(c, e, rows')| <= n - 1
      && Without(rows', CollectableIds(c, e, rows')) == Without(rows, CollectableIds(c, e, rows))
  {
    var all := CollectableIds(c, e, rows);
    var reaped := Removed(c, e, SweepFrom(c, e, rows, 0).scanned);
    SweepProgress(c, e, rows);
    CollectableLeft(c, e, rows, reaped);
    WithoutDistinct(rows, reaped);
    FewerLeft(all, reaped, n);
    WithoutTwice(rows, reaped, all - reaped);
    assert reaped + (all - reaped) == all;
  }

  lemma FewerLeft(all: set<Id>, reaped: set<Id>, n: nat)
    requires 0 < n && |all| <= n && reaped <= all && (all != {} ==> reaped != {})
    ensures |all - reaped| <= n - 1
  {
    if all == {} {
      assert all - reaped == {};
    } else {
      var id :| id in reaped;
      assert all - {id} == (all - reaped) + (reaped - {id});
    }
  }
}
