/** The abandoned-account sweep step by step, proved against AbandonedGC's functions. */
module AbandonedGCSweep {
  import opened Wrappers
  import opened Stores
  import opened StoreClients
  import opened Paging
  import opened AbandonedGC

  method HasUsableCredential(methods: seq<string>) returns (usable: bool)
    ensures usable <==> exists i :: 0 <= i < |methods| && methods[i] in USABLE_CREDENTIALS
    ensures usable == HasUsable(methods)
  {
    for i := 0 to |methods|
      invariant forall k :: 0 <= k < i ==> methods[k] !in USABLE_CREDENTIALS
    {
      if methods[i] in USABLE_CREDENTIALS {
        return true;
      }
    }
    return false;
  }

  class AbandonedUserGC {
    const zitadel: ZitadelDirectory
    const milo: MiloStore
    const retention: int
    const dryRun: bool

    /** The Prometheus counters; `counters.noCredential` is the running count of one sweep. */
    var counters: Tally
    var verifiedNoCredential: nat
    ghost var log: seq<Event>

    constructor (zitadel: ZitadelDirectory, milo: MiloStore, retention: int, dryRun: bool)
      ensures this.zitadel == zitadel && this.milo == milo && this.retention == retention && this.dryRun == dryRun
    {
      this.zitadel, this.milo, this.retention, this.dryRun := zitadel, milo, retention, dryRun;
      counters, verifiedNoCredential, log := Tally(0, 0, 0, 0, 0, 0), 0, [];
    }

    /** Zitadel first, then milo; the milo side is not reached when Zitadel reports a failure. */
    method Collect(e: Env, id: Id) returns (ok: bool)
      modifies zitadel, milo, this`log
      ensures zitadel.rows
           == if e.zitadelDelete(id).TookEffect() then Without(old(zitadel.rows), {id}) else old(zitadel.rows)
      ensures milo.users == if e.zitadelDelete(id).ReportedOk() && e.miloDelete(id).TookEffect()
                            then ApiDelete(old(milo.users), id) else old(milo.users)
      ensures log == old(log) + if e.zitadelDelete(id).ReportedOk()
                                then [ZitadelDelete(id, Applied), MiloDelete(id, e.miloDelete(id))]
                                else [ZitadelDelete(id, e.zitadelDelete(id))]
      ensures ok == (e.zitadelDelete(id).ReportedOk() && e.miloDelete(id).ReportedOk())
    {
      ok := zitadel.DeleteUser(id, e.zitadelDelete(id));
      log := log + [ZitadelDelete(id, e.zitadelDelete(id))];
      if ok {
        ok := milo.Delete(id, e.miloDelete(id));
        log := log + [MiloDelete(id, e.miloDelete(id))];
      }
    }

    /** The body of the inner loop for one listed user. */
    method Visit(c: Config, e: Env, u: Row)
      requires c.dryRun == dryRun
      modifies zitadel, milo, this`counters, this`log
      ensures counters == VisitTally(c, e, old(counters), u)
      ensures zitadel.rows == if Reaped(c, e, u) then Without(old(zitadel.rows), {u.id}) else old(zitadel.rows)
      ensures milo.users == if DropsUser(c, e, u) then ApiDelete(old(milo.users), u.id) else old(milo.users)
      ensures log == old(log) + VisitEvents(c, e, u)
    {
      var t := counters.(scanned := counters.scanned + 1);
      if u.verified {
        match e.methods(u.id)
        case MethodsError =>
          t := t.(errors := t.errors + 1);
        case Methods(names) =>
          var usable := HasUsableCredential(names);
          if !usable { t := t.(noCredential := t.noCredential + 1); }
      }
      if IsAbandoned(u.verified, u.createdAt, c.cutoff) {
        match e.links(u.id)
        case LinksError =>
          t := t.(errors := t.errors + 1);
        case Links(count) =>
          if count > 0 {
            t := t.(skippedIdp := t.skippedIdp + 1);
          } else {
            t := t.(eligible := t.eligible + 1);
            if !dryRun {
              var ok := Collect(e, u.id);
              t := if ok then t.(deleted := t.deleted + 1) else t.(errors := t.errors + 1);
            }
          }
      }
      counters := t;
    }

    /** Everything a sweep changes while it runs. */
    ghost function Snapshot(): Progress
      reads this`counters, this`log, zitadel`rows, milo`users
    {
      Progress(zitadel.rows, milo.users, log, counters)
    }

    /** The inner loop: the users of one page. */
    method VisitAll(c: Config, e: Env, users: seq<Row>)
      requires c.dryRun == dryRun
      modifies zitadel, milo, this`counters, this`log
      ensures Snapshot() == AfterVisits(c, e, old(Snapshot()), users)
    {
      for i := 0 to |users|
        invariant Snapshot() == AfterVisits(c, e, old(Snapshot()), users[..i])
      {
        assert users[..i + 1][..i] == users[..i];
        Visit(c, e, users[i]);
      }
      assert users[..|users|] == users;
    }

    /** The page loop; false when a page could not be read. */
    method SweepPages(c: Config, e: Env) returns (ok: bool)
      requires c.dryRun == dryRun
      modifies zitadel, milo, this`counters, this`log
      ensures (Snapshot(), ok) == AfterSweep(c, e, old(Snapshot()), 0)
    {
      var offset: nat := 0;
      while true
        invariant AfterSweep(c, e, old(Snapshot()), 0) == AfterSweep(c, e, Snapshot(), offset)
        decreases if |zitadel.rows| > offset then |zitadel.rows| - offset else 0
      {
        if !e.listOk(offset) {
          return false;
        }
        var users, raw := zitadel.ListHumanUsers(offset);
        PageStep(c, e, Snapshot(), offset);
        VisitAll(c, e, users);
        if raw < SWEEP_PAGE_SIZE {
          return true;
        }
        offset := offset + raw;
      }
    }

    /** One sweep: everything it leaves behind is a function of the rows it scanned. */
    method SweepOnce(now: int, e: Env) returns (ok: bool)
      modifies zitadel, milo, this
      ensures var c := Config(now - retention, dryRun);
        var t := SweepFrom(c, e, old(zitadel.rows), 0);
        var tally := TallyOf(c, e, old(counters).(noCredential := 0), t.scanned);
        && ok == t.complete
        && zitadel.rows == t.rows
        && milo.users == MiloAfter(c, e, old(milo.users), t.scanned)
        && log == old(log) + Events(c, e, t.scanned)
        && counters == (if ok then tally else tally.(errors := tally.errors + 1))
        && verifiedNoCredential == (if ok then tally.noCredential else old(verifiedNoCredential))
    {
      var c := Config(now - retention, dryRun);
      counters := counters.(noCredential := 0);
      SweepIsTrace(c, e, Snapshot(), 0);
      ok := SweepPages(c, e);
      if ok {
        verifiedNoCredential := counters.noCredential;
      } else {
        counters := counters.(errors := counters.errors + 1);
      }
    }
  }

  // ----- The loops as functions on everything they change -----

  datatype Progress = Progress(rows: seq<Row>, milo: map<Id, User>, events: seq<Event>, tally: Tally)

  function AfterVisit(c: Config, e: Env, p: Progress, u: Row): Progress {
    Progress(if Reaped(c, e, u) then Without(p.rows, {u.id}) else p.rows,
             if DropsUser(c, e, u) then ApiDelete(p.milo, u.id) else p.milo,
             p.events + VisitEvents(c, e, u),
             VisitTally(c, e, p.tally, u))
  }

  function Visiting(c: Config, e: Env): (Progress, Row) -> Progress { (p, u) => AfterVisit(c, e, p, u) }

  function AfterVisits(c: Config, e: Env, p: Progress, us: seq<Row>): (q: Progress)
    ensures |q.rows| <= |p.rows|
  {
    VisitsShrink(c, e, p, us);
    Fold(Visiting(c, e), p, us)
  }

  lemma {:induction false} VisitsShrink(c: Config, e: Env, p: Progress, us: seq<Row>)
    ensures |Fold(Visiting(c, e), p, us).rows| <= |p.rows|
  {
    if us != [] { VisitsShrink(c, e, p, us[..|us| - 1]); }
  }

  ghost function AfterSweep(c: Config, e: Env, p: Progress, offset: nat): (Progress, bool)
    decreases if |p.rows| > offset then |p.rows| - offset else 0
  {
    if !e.listOk(offset) then (p, false)
    else
      var page := RawPage(p.rows, offset);
      var p' := AfterVisits(c, e, p, Humans(page));
      if |page| < SWEEP_PAGE_SIZE then (p', true) else AfterSweep(c, e, p', offset + |page|)
  }

  lemma PageStep(c: Config, e: Env, p: Progress, offset: nat)
    requires e.listOk(offset)
    ensures var raw := |RawPage(p.rows, offset)|;
      var p' := AfterVisits(c, e, p, Humans(RawPage(p.rows, offset)));
      AfterSweep(c, e, p, offset) == if raw < SWEEP_PAGE_SIZE then (p', true) else AfterSweep(c, e, p', offset + raw)
  {
  }

  lemma RemovedStep(c: Config, e: Env, rows: seq<Row>, us: seq<Row>, u: Row)
    ensures Without(rows, Removed(c, e, us + [u]))
         == (var left := Without(rows, Removed(c, e, us)); if Reaped(c, e, u) then Without(left, {u.id}) else left)
  {
    if Reaped(c, e, u) {
      assert Removed(c, e, us + [u]) == Removed(c, e, us) + {u.id};
      WithoutTwice(rows, Removed(c, e, us), {u.id});
    } else {
      assert Removed(c, e, us + [u]) == Removed(c, e, us);
    }
  }

  lemma VisitsMore(c: Config, e: Env, p: Progress, front: seq<Row>, u: Row)
    ensures AfterVisits(c, e, p, front + [u]) == AfterVisit(c, e, AfterVisits(c, e, p, front), u)
  {
    assert (front + [u])[..|front|] == front;
  }

  lemma {:induction false} VisitsRows(c: Config, e: Env, p: Progress, us: seq<Row>)
    ensures AfterVisits(c, e, p, us).rows == Without(p.rows, Removed(c, e, us))
  {
    if us == [] {
      WithoutNone(p.rows, Removed(c, e, us));
    } else {
      var front, u := us[..|us| - 1], us[|us| - 1];
      assert us == front + [u];
      VisitsRows(c, e, p, front);
      RemovedStep(c, e, p.rows, front, u);
      VisitsMore(c, e, p, front, u);
    }
  }

  lemma {:induction false} VisitsEvents(c: Config, e: Env, p: Progress, us: seq<Row>)
    ensures AfterVisits(c, e, p, us).events == p.events + Events(c, e, us)
  {
    if us != [] {
      var front, u := us[..|us| - 1], us[|us| - 1];
      VisitsEvents(c, e, p, front);
      EventsAssociate(p.events, Events(c, e, front), VisitEvents(c, e, u));
    }
  }

  lemma EventsAssociate(a: seq<Event>, b: seq<Event>, c: seq<Event>)
    ensures (a + b) + c == a + (b + c)
  {
  }

  lemma {:induction false} VisitsUsersAndTally(c: Config, e: Env, p: Progress, us: seq<Row>)
    ensures AfterVisits(c, e, p, us).milo == MiloAfter(c, e, p.milo, us)
    ensures AfterVisits(c, e, p, us).tally == TallyOf(c, e, p.tally, us)
  {
    if us != [] { VisitsUsersAndTally(c, e, p, us[..|us| - 1]); }
  }

  lemma VisitsEffect(c: Config, e: Env, p: Progress, us: seq<Row>)
    ensures AfterVisits(c, e, p, us)
         == Progress(Without(p.rows, Removed(c, e, us)), MiloAfter(c, e, p.milo, us),
                     p.events + Events(c, e, us), TallyOf(c, e, p.tally, us))
  {
    VisitsRows(c, e, p, us);
    VisitsEvents(c, e, p, us);
    VisitsUsersAndTally(c, e, p, us);
  }

  /** The page loop, run to its end, applies the visits of exactly the rows SweepFrom scans. */
  lemma {:induction false} SweepIsTrace(c: Config, e: Env, p: Progress, offset: nat)
    ensures var t := SweepFrom(c, e, p.rows, offset);
      AfterSweep(c, e, p, offset)
      == (Progress(t.rows, MiloAfter(c, e, p.milo, t.scanned), p.events + Events(c, e, t.scanned),
                   TallyOf(c, e, p.tally, t.scanned)), t.complete)
    decreases if |p.rows| > offset then |p.rows| - offset else 0
  {
    var t := SweepFrom(c, e, p.rows, offset);
    SweepFoldsScanned(c, e, p, offset);
    VisitsEffect(c, e, p, t.scanned);
    FinalListing(c, e, p.rows, offset);
  }

  lemma {:induction false} SweepFoldsScanned(c: Config, e: Env, p: Progress, offset: nat)
    ensures var t := SweepFrom(c, e, p.rows, offset);
      AfterSweep(c, e, p, offset) == (AfterVisits(c, e, p, t.scanned), t.complete)
    decreases if |p.rows| > offset then |p.rows| - offset else 0
  {
    if e.listOk(offset) {
      var page := RawPage(p.rows, offset);
      var p' := AfterVisits(c, e, p, Humans(page));
      VisitsEffect(c, e, p, Humans(page));
      if |page| == SWEEP_PAGE_SIZE {
        SweepFoldsScanned(c, e, p', offset + |page|);
        FoldConcat(Visiting(c, e), p, Humans(page), SweepFrom(c, e, p'.rows, offset + |page|).scanned);
      }
    }
  }
}
