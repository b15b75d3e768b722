/** The invariant sweeper: every listed human gets a User, and its verification field follows Zitadel. */
module UserSweep {
  import opened Wrappers
  import opened Stores
  import opened StoreClients
  import opened Paging

  /** The replies of one pass, and the accounts that others delete after the page at an offset was read. */
  datatype Env = Env(listOk: nat -> bool, setReply: Id -> Outcome, createReply: Id -> Outcome, losses: nat -> set<Id>)

  datatype Write = Create(id: Id) | SetVerification(id: Id)

  /** What a pass has done so far; `aborted` once a create failed. */
  datatype Pass = Pass(milo: map<Id, User>, writes: seq<Write>, aborted: bool)

  function NewUser(u: Row): User {
    User(u.email, u.givenName, u.familyName, Unset, "", false, false)
  }

  /** One listed user, compared with the User in the snapshot taken when the pass began. */
  function AfterVisit(e: Env, existing: map<Id, User>, p: Pass, u: Row): Pass {
    if p.aborted then p
    else if u.id in existing then
      if NeedsUpdate(existing[u.id], u.verified) && u.id in p.milo && NeedsUpdate(p.milo[u.id], u.verified) then
        if e.setReply(u.id).TookEffect() then
          Pass(p.milo[u.id := p.milo[u.id].(verification := Desired(u.verified))],
               p.writes + [SetVerification(u.id)], false)
        else p.(writes := p.writes + [SetVerification(u.id)])
      else p
    else if u.id in p.milo then p.(writes := p.writes + [Create(u.id)])
    else
      Pass(if e.createReply(u.id).TookEffect() then p.milo[u.id := NewUser(u)] else p.milo,
           p.writes + [Create(u.id)], !e.createReply(u.id).ReportedOk())
  }

  function Visiting(e: Env, existing: map<Id, User>): (Pass, Row) -> Pass { (p, u) => AfterVisit(e, existing, p, u) }

  function AfterVisits(e: Env, existing: map<Id, User>, p: Pass, us: seq<Row>): Pass
  {
    Fold(Visiting(e, existing), p, us)
  }

  /** The page loop. The second component is false when a page or a create failed; the third is the listing
      by then. */
  function AfterPages(e: Env, existing: map<Id, User>, p: Pass, rows: seq<Row>, offset: nat): (Pass, bool, seq<Row>)
    decreases if |rows| > offset then |rows| - offset else 0
  {
    if !e.listOk(offset) then (p, false, rows)
    else
      var page := RawPage(rows, offset);
      var p' := AfterVisits(e, existing, p, Humans(page));
      if p'.aborted then (p', false, rows)
      else if |page| < SWEEP_PAGE_SIZE then (p', true, rows)
      else AfterPages(e, existing, p', Without(rows, e.losses(offset)), offset + |page|)
  }

  function Sweep(e: Env, rows: seq<Row>, milo: map<Id, User>): (Pass, bool, seq<Row>) {
    AfterPages(e, milo, Pass(milo, [], false), rows, 0)
  }

  /** The sweeper itself. */
  class UserSweeper {
    const zitadel: ZitadelDirectory
    const milo: MiloStore
    ghost var writes: seq<Write>

    constructor (zitadel: ZitadelDirectory, milo: MiloStore)
      ensures this.zitadel == zitadel && this.milo == milo && writes == []
    {
      this.zitadel, this.milo, writes := zitadel, milo, [];
    }

    method Visit(e: Env, existing: map<Id, User>, u: Row) returns (ok: bool)
      modifies milo, this
      ensures Pass(milo.users, writes, !ok) == AfterVisit(e, existing, Pass(old(milo.users), old(writes), false), u)
    {
      if u.id in existing {
        if NeedsUpdate(existing[u.id], u.verified) {
          if u.id in milo.users && NeedsUpdate(milo.users[u.id], u.verified) {
            writes := writes + [Write.SetVerification(u.id)];
          }
          var changed, done := milo.SetVerification(u.id, u.verified, e.setReply(u.id));
        }
        return true;
      }
      writes := writes + [Write.Create(u.id)];
      var created;
      created, ok := milo.Create(u.id, NewUser(u), e.createReply(u.id));
    }

    method VisitAll(e: Env, existing: map<Id, User>, users: seq<Row>) returns (ok: bool)
      modifies milo, this
      ensures Pass(milo.users, writes, !ok)
           == AfterVisits(e, existing, Pass(old(milo.users), old(writes), false), users)
    {
      for i := 0 to |users|
        invariant Pass(milo.users, writes, false)
               == AfterVisits(e, existing, Pass(old(milo.users), old(writes), false), users[..i])
      {
        assert users[..i + 1][..i] == users[..i];
        ok := Visit(e, existing, users[i]);
        if !ok {
          AbortStays(e, existing, Pass(old(milo.users), old(writes), false), users, i + 1);
          return;
        }
      }
      assert users[..|users|] == users;
      ok := true;
    }

    /** One pass, while others delete accounts. */
    method SweepOnce(e: Env) returns (ok: bool)
      modifies zitadel, milo, this
      ensures (Pass(milo.users, writes, false), ok, zitadel.rows)
           == (var r := Sweep(e, old(zitadel.rows), old(milo.users));
               (r.0.(writes := old(writes) + r.0.writes, aborted := false), r.1, r.2))
    {
      var existing := milo.users;
      var offset: nat := 0;
      ghost var before := writes;
      ghost var start := Pass(milo.users, [], false);
      writes := [];
      while true
        invariant AfterPages(e, existing, start, old(zitadel.rows), 0)
               == AfterPages(e, existing, Pass(milo.users, writes, false), zitadel.rows, offset)
        decreases if |zitadel.rows| > offset then |zitadel.rows| - offset else 0
      {
        if !e.listOk(offset) {
          ok := false;
          break;
        }
        var users, raw := zitadel.ListHumanUsers(offset);
        PageStep(e, existing, Pass(milo.users, writes, false), zitadel.rows, offset);
        ok := VisitAll(e, existing, users);
        if !ok || raw < SWEEP_PAGE_SIZE {
          break;
        }
        zitadel.Lose(e.losses(offset));
        offset := offset + raw;
      }
      writes := before + writes;
    }
  }

  /** Once a create failed the rest of the page is not visited. */
  lemma {:induction false} AbortStays(e: Env, existing: map<Id, User>, p: Pass, us: seq<Row>, n: nat)
    requires n <= |us| && AfterVisits(e, existing, p, us[..n]).aborted
    ensures AfterVisits(e, existing, p, us) == AfterVisits(e, existing, p, us[..n])
  {
    if n < |us| {
      assert us[..|us| - 1][..n] == us[..n];
      AbortStays(e, existing, p, us[..|us| - 1], n);
    } else {
      assert us[..n] == us;
    }
  }

  // ----- Paging on the raw count visits every human -----

  /** Every page can be read and every creation goes through; verification writes may fail freely. */
  ghost predicate Proceeds(e: Env) {
    (forall offset :: e.listOk(offset)) && (forall id :: e.createReply(id) == Applied)
  }

  /** Nothing fails, and Zitadel stays as it is. */
  ghost predicate NeverFails(e: Env) {
    Proceeds(e) && (forall id :: e.setReply(id) == Applied) && (forall offset :: e.losses(offset) == {})
  }

  lemma {:induction false} NoAbort(e: Env, existing: map<Id, User>, p: Pass, us: seq<Row>)
    requires Proceeds(e) && !p.aborted
    ensures !AfterVisits(e, existing, p, us).aborted
  {
    if us != [] { NoAbort(e, existing, p, us[..|us| - 1]); }
  }

  /** The humans a pass reads while the listing loses rows, and the listing at its end. */
  function Listing(e: Env, rows: seq<Row>, offset: nat): Trace
    decreases if |rows| > offset then |rows| - offset else 0
  {
    var page := RawPage(rows, offset);
    if |page| < SWEEP_PAGE_SIZE then Trace(Humans(page), rows, true)
    else
      var rest := Listing(e, Without(rows, e.losses(offset)), offset + |page|);
      Trace(Humans(page) + rest.scanned, rest.rows, rest.complete)
  }

  lemma {:induction false} ListingCovers(e: Env, rows: seq<Row>, offset: nat)
    ensures Listing(e, rows, offset).complete && Covers(Listing(e, rows, offset), rows, offset)
    decreases if |rows| > offset then |rows| - offset else 0
  {
    if |RawPage(rows, offset)| < SWEEP_PAGE_SIZE {
      CoversLastPage(rows, offset, rows);
    } else {
      var left := Without(rows, e.losses(offset));
      ListingCovers(e, left, offset + SWEEP_PAGE_SIZE);
      CoversFullPage(rows, offset, e.losses(offset), Listing(e, left, offset + SWEEP_PAGE_SIZE));
    }
  }

  lemma PageStep(e: Env, existing: map<Id, User>, p: Pass, rows: seq<Row>, offset: nat)
    requires e.listOk(offset)
    ensures var raw := |RawPage(rows, offset)|;
      var p' := AfterVisits(e, existing, p, Humans(RawPage(rows, offset)));
      AfterPages(e, existing, p, rows, offset)
      == if p'.aborted then (p', false, rows)
         else if raw < SWEEP_PAGE_SIZE then (p', true, rows)
         else AfterPages(e, existing, p', Without(rows, e.losses(offset)), offset + raw)
  {
  }

  lemma ListingStep(e: Env, rows: seq<Row>, offset: nat)
    requires |RawPage(rows, offset)| == SWEEP_PAGE_SIZE
    ensures var rest := Listing(e, Without(rows, e.losses(offset)), offset + SWEEP_PAGE_SIZE);
      Listing(e, rows, offset) == Trace(Humans(RawPage(rows, offset)) + rest.scanned, rest.rows, rest.complete)
  {
  }

  /** The page loop applies the visits of exactly the humans it reads. */
  lemma {:induction false} PagesAreListing(e: Env, existing: map<Id, User>, p: Pass, rows: seq<Row>, offset: nat)
    requires Proceeds(e) && !p.aborted
    ensures var t := Listing(e, rows, offset);
      AfterPages(e, existing, p, rows, offset) == (AfterVisits(e, existing, p, t.scanned), true, t.rows)
    decreases if |rows| > offset then |rows| - offset else 0
  {
    var page := RawPage(rows, offset);
    NoAbort(e, existing, p, Humans(page));
    PageStep(e, existing, p, rows, offset);
    if |page| == SWEEP_PAGE_SIZE {
      var left := Without(rows, e.losses(offset));
      PagesAreListing(e, existing, AfterVisits(e, existing, p, Humans(page)), left, offset + SWEEP_PAGE_SIZE);
      FoldConcat(Visiting(e, existing), p, Humans(page), Listing(e, left, offset + SWEEP_PAGE_SIZE).scanned);
    }
  }

  /** A pass whose reads and creations go through, whatever accounts others delete under it and whatever
      verification writes fail: it visits humans of the listing it began with, each at most once and in order,
      and misses at most as many as rows went; the User of every visited human is as it should be, if its own
      write did not fail. */
  lemma LossyPass(e: Env, rows: seq<Row>, milo: map<Id, User>)
    requires Proceeds(e) && DistinctIds(rows)
    ensures var t := Listing(e, rows, 0);
      && Sweep(e, rows, milo) == (AfterVisits(e, milo, Pass(milo, [], false), t.scanned), true, t.rows)
      && IsSubsequence(t.scanned, Humans(rows)) && DistinctIds(t.scanned)
      && |Humans(rows)| - |t.scanned| <= |rows| - |t.rows|
      && forall u :: u in t.scanned && e.setReply(u.id) == Applied ==> AsSwept(milo, Sweep(e, rows, milo).0.milo, u)
  {
    var t := Listing(e, rows, 0);
    PagesAreListing(e, milo, Pass(milo, [], false), rows, 0);
    ListingCovers(e, rows, 0);
    assert From(rows, 0) == rows;
    HumansDistinct(rows);
    SubsequenceBound(t.scanned, Humans(rows));
    forall u | u in t.scanned && e.setReply(u.id) == Applied ensures AsSwept(milo, Sweep(e, rows, milo).0.milo, u) {
      VisitedRow(e, milo, t.scanned, u);
    }
  }

  lemma {:induction false} NothingLost(e: Env, rows: seq<Row>, offset: nat)
    requires NeverFails(e)
    ensures Listing(e, rows, offset).rows == rows
    decreases if |rows| > offset then |rows| - offset else 0
  {
    if |RawPage(rows, offset)| == SWEEP_PAGE_SIZE {
      WithoutNone(rows, e.losses(offset));
      ListingStep(e, rows, offset);
      NothingLost(e, rows, offset + SWEEP_PAGE_SIZE);
    }
  }

  /** An error-free pass over an unchanged listing visits every listed human, whatever non-human rows its pages
      hold. */
  lemma SweepVisitsAll(e: Env, rows: seq<Row>, milo: map<Id, User>)
    requires NeverFails(e)
    ensures Sweep(e, rows, milo) == (AfterVisits(e, milo, Pass(milo, [], false), Humans(rows)), true, rows)
  {
    PagesAreListing(e, milo, Pass(milo, [], false), rows, 0);
    ListingCovers(e, rows, 0);
    NothingLost(e, rows, 0);
    assert From(rows, 0) == rows;
    SubsequenceBound(Listing(e, rows, 0).scanned, Humans(rows));
  }

  // ----- What a pass may change -----

  /** `after` keeps every User of `before`, changing at most its verification field. */
  ghost predicate OnlyVerificationMoves(before: map<Id, User>, after: map<Id, User>) {
    forall id :: id in before ==> id in after && after[id] == before[id].(verification := after[id].verification)
  }

  lemma {:induction false} VisitsKeepUsers(e: Env, existing: map<Id, User>, p: Pass, us: seq<Row>)
    ensures OnlyVerificationMoves(p.milo, AfterVisits(e, existing, p, us).milo)
  {
    if us != [] { VisitsKeepUsers(e, existing, p, us[..|us| - 1]); }
  }

  /** Whatever fails, no pass removes a User or touches another field. */
  lemma {:induction false} PagesKeepUsers(e: Env, existing: map<Id, User>, p: Pass, rows: seq<Row>, offset: nat)
    ensures OnlyVerificationMoves(p.milo, AfterPages(e, existing, p, rows, offset).0.milo)
    decreases if |rows| > offset then |rows| - offset else 0
  {
    if e.listOk(offset) {
      var page := RawPage(rows, offset);
      var p' := AfterVisits(e, existing, p, Humans(page));
      VisitsKeepUsers(e, existing, p, Humans(page));
      PageStep(e, existing, p, rows, offset);
      if !p'.aborted && |page| == SWEEP_PAGE_SIZE {
        PagesKeepUsers(e, existing, p', Without(rows, e.losses(offset)), offset + SWEEP_PAGE_SIZE);
        KeepsChain(p.milo, p'.milo,
            AfterPages(e, existing, p', Without(rows, e.losses(offset)), offset + SWEEP_PAGE_SIZE).0.milo);
      }
    }
  }

  lemma KeepsChain(a: map<Id, User>, b: map<Id, User>, c: map<Id, User>)
    requires OnlyVerificationMoves(a, b) && OnlyVerificationMoves(b, c)
    ensures OnlyVerificationMoves(a, c)
  {
  }

  lemma SweepKeepsUsers(e: Env, rows: seq<Row>, milo: map<Id, User>)
    ensures OnlyVerificationMoves(milo, Sweep(e, rows, milo).0.milo)
  {
    PagesKeepUsers(e, milo, Pass(milo, [], false), rows, 0);
  }

  // ----- Convergence -----

  /** The field says what Zitadel says. */
  predicate Says(user: User, verified: bool) {
    (user.verification.Verified? <==> verified) && (user.verification.Unverified? <==> !verified)
  }

  ghost predicate InSync(milo: map<Id, User>, us: seq<Row>) {
    forall u :: u in us ==> u.id in milo && Says(milo[u.id], u.verified)
  }

  /** The User of a listed row: if it existed before, it says what Zitadel says and is otherwise as it was; if
      not, it has the row's address and names and says nothing yet. */
  ghost predicate AsSwept(before: map<Id, User>, after: map<Id, User>, u: Row) {
    && u.id in after
    && (u.id in before ==>
          Says(after[u.id], u.verified) && before[u.id] == after[u.id].(verification := before[u.id].verification))
    && (u.id !in before ==> after[u.id] == User(u.email, u.givenName, u.familyName, Unset, "", false, false))
  }

  lemma {:induction false} UnlistedRow(e: Env, existing: map<Id, User>, p: Pass, us: seq<Row>, id: Id)
    requires forall u :: u in us ==> u.id != id
    ensures var q := AfterVisits(e, existing, p, us);
      (id in q.milo <==> id in p.milo) && (id in p.milo ==> q.milo[id] == p.milo[id])
  {
    if us != [] {
      var front, last := us[..|us| - 1], us[|us| - 1];
      assert us == front + [last];
      UnlistedRow(e, existing, p, front, id);
      assert last.id != id;
    }
  }

  /** The pass has not touched the User of `id` yet. */
  predicate Untouched(existing: map<Id, User>, p: Pass, id: Id) {
    (id in existing <==> id in p.milo) && (id in existing ==> p.milo[id] == existing[id])
  }

  /** The User says what Zitadel says. */
  predicate RowInSync(existing: map<Id, User>, u: Row) { u.id in existing && Says(existing[u.id], u.verified) }

  /** One visit: what it writes, and the User it leaves. */
  lemma VisitEffect(e: Env, existing: map<Id, User>, p: Pass, u: Row)
    requires !p.aborted && Untouched(existing, p, u.id)
    ensures var q := AfterVisit(e, existing, p, u);
      && q.writes == p.writes + (if RowInSync(existing, u) then []
                                 else if u.id in existing then [SetVerification(u.id)] else [Create(u.id)])
      && (q.aborted <==> u.id !in existing && !e.createReply(u.id).ReportedOk())
      && (!q.aborted && e.setReply(u.id) == Applied ==> AsSwept(existing, q.milo, u))
  {
  }

  /** The User of a row after a batch of distinct rows in which its own writes did not fail. */
  lemma {:induction false} VisitedRow(e: Env, existing: map<Id, User>, us: seq<Row>, u: Row)
    requires Proceeds(e) && e.setReply(u.id) == Applied && DistinctIds(us) && u in us
    ensures AsSwept(existing, AfterVisits(e, existing, Pass(existing, [], false), us).milo, u)
  {
    var start := Pass(existing, [], false);
    var front, last := us[..|us| - 1], us[|us| - 1];
    assert us == front + [last];
    LastIsNew(us);
    NoAbort(e, existing, start, front);
    if u in front {
      VisitedRow(e, existing, front, u);
      UnlistedRow(e, existing, AfterVisits(e, existing, start, front), [last], u.id);
      assert [last][..0] == [];
    } else {
      UnlistedRow(e, existing, start, front, u.id);
      VisitEffect(e, existing, AfterVisits(e, existing, start, front), u);
    }
  }

  lemma LastIsNew(us: seq<Row>)
    requires us != [] && DistinctIds(us)
    ensures DistinctIds(us[..|us| - 1])
    ensures forall u :: u in us[..|us| - 1] ==> u.id != us[|us| - 1].id
  {
    var front := us[..|us| - 1];
    forall u | u in front ensures u.id != us[|us| - 1].id {
      var i :| 0 <= i < |front| && front[i] == u;
      assert us[i].id != us[|us| - 1].id;
    }
  }

  /** After one error-free pass every listed human has a User: in sync if it existed before, else new. */
  lemma OnePass(e: Env, rows: seq<Row>, milo: map<Id, User>)
    requires NeverFails(e) && DistinctIds(rows)
    ensures var after := Sweep(e, rows, milo).0.milo;
      && Sweep(e, rows, milo).1
      && (forall u :: u in rows && u.human ==> AsSwept(milo, after, u))
      && (forall id :: id in after && (forall u :: u in rows && u.human ==> u.id != id) ==>
            id in milo && after[id] == milo[id])
  {
    SweepVisitsAll(e, rows, milo);
    HumansMembers(rows);
    HumansDistinct(rows);
    forall u | u in rows && u.human ensures AsSwept(milo, Sweep(e, rows, milo).0.milo, u) {
      VisitedRow(e, milo, Humans(rows), u);
    }
    forall id | forall u :: u in rows && u.human ==> u.id != id
      ensures var after := Sweep(e, rows, milo).0.milo; id in after ==> id in milo && after[id] == milo[id]
    {
      UnlistedRow(e, milo, Pass(milo, [], false), Humans(rows), id);
    }
  }

  /** The writes due to a batch, in order: one for each row that is not in sync, none for the others. */
  function Due(existing: map<Id, User>, us: seq<Row>): seq<Write> {
    if us == [] then []
    else
      var u := us[|us| - 1];
      Due(existing, us[..|us| - 1])
      + if RowInSync(existing, u) then [] else if u.id in existing then [SetVerification(u.id)] else [Create(u.id)]
  }

  /** Write only on mismatch: whatever verification writes fail, a batch issues exactly the writes due. */
  lemma {:induction false} WritesAreDue(e: Env, existing: map<Id, User>, us: seq<Row>)
    requires Proceeds(e) && DistinctIds(us)
    ensures AfterVisits(e, existing, Pass(existing, [], false), us).writes == Due(existing, us)
  {
    if us != [] {
      var start := Pass(existing, [], false);
      var front, last := us[..|us| - 1], us[|us| - 1];
      assert us == front + [last];
      LastIsNew(us);
      NoAbort(e, existing, start, front);
      UnlistedRow(e, existing, start, front, last.id);
      WritesAreDue(e, existing, front);
      VisitEffect(e, existing, AfterVisits(e, existing, start, front), last);
    }
  }

  lemma {:induction false} NothingDue(existing: map<Id, User>, us: seq<Row>)
    ensures Due(existing, us) == [] <==> InSync(existing, us)
  {
    if us != [] {
      NothingDue(existing, us[..|us| - 1]);
      assert us == us[..|us| - 1] + [us[|us| - 1]];
    }
  }

  /** A pass over a store that is in sync leaves it as it was. */
  lemma {:induction false} QuietVisits(e: Env, milo: map<Id, User>, us: seq<Row>)
    requires InSync(milo, us)
    ensures AfterVisits(e, milo, Pass(milo, [], false), us) == Pass(milo, [], false)
  {
    if us != [] {
      var front := us[..|us| - 1];
      assert us == front + [us[|us| - 1]];
      QuietVisits(e, milo, front);
    }
  }

  /** An error-free pass issues exactly the writes due, hence none exactly when every listed human is in sync. */
  lemma QuietPass(e: Env, rows: seq<Row>, milo: map<Id, User>)
    requires NeverFails(e) && DistinctIds(rows)
    ensures Sweep(e, rows, milo).0.writes == Due(milo, Humans(rows))
    ensures Sweep(e, rows, milo).0.writes == [] <==> InSync(milo, Humans(rows))
    ensures InSync(milo, Humans(rows)) ==> Sweep(e, rows, milo).0.milo == milo
  {
    SweepVisitsAll(e, rows, milo);
    HumansDistinct(rows);
    WritesAreDue(e, milo, Humans(rows));
    NothingDue(milo, Humans(rows));
    if InSync(milo, Humans(rows)) { QuietVisits(e, milo, Humans(rows)); }
  }

  lemma SweptTwice(first: map<Id, User>, second: map<Id, User>, u: Row)
    requires u.id in first && AsSwept(first, second, u)
    ensures RowInSync(second, u)
  {
  }

  lemma TwoPassesSync(e1: Env, e2: Env, rows: seq<Row>, milo: map<Id, User>)
    requires NeverFails(e1) && NeverFails(e2) && DistinctIds(rows)
    ensures var second := Sweep(e2, rows, Sweep(e1, rows, milo).0.milo).0.milo;
      forall u :: u in rows && u.human ==> RowInSync(second, u)
  {
    var first := Sweep(e1, rows, milo).0.milo;
    var second := Sweep(e2, rows, first).0.milo;
    OnePass(e1, rows, milo);
    OnePass(e2, rows, first);
    forall u | u in rows && u.human ensures RowInSync(second, u) {
      assert AsSwept(milo, first, u);
      SweptTwice(first, second, u);
    }
  }

  lemma ThirdPassIsQuiet(e: Env, rows: seq<Row>, milo: map<Id, User>)
    requires NeverFails(e) && DistinctIds(rows) && InSync(milo, Humans(rows))
    ensures Sweep(e, rows, milo) == (Pass(milo, [], false), true, rows)
  {
    SweepVisitsAll(e, rows, milo);
    QuietVisits(e, milo, Humans(rows));
  }

  /** Two error-free passes bring every listed human in sync; the third writes nothing. */
  lemma Convergence(e1: Env, e2: Env, e3: Env, rows: seq<Row>, milo: map<Id, User>)
    requires NeverFails(e1) && NeverFails(e2) && NeverFails(e3) && DistinctIds(rows)
    ensures var second := Sweep(e2, rows, Sweep(e1, rows, milo).0.milo).0.milo;
      && (forall u :: u in rows && u.human ==>
            && u.id in second
            && (second[u.id].verification.Verified? <==> u.verified)
            && (second[u.id].verification.Unverified? <==> !u.verified))
      && OnlyVerificationMoves(milo, second)
      && Sweep(e3, rows, second) == (Pass(second, [], false), true, rows)
  {
    var first := Sweep(e1, rows, milo).0.milo;
    var second := Sweep(e2, rows, first).0.milo;
    TwoPassesSync(e1, e2, rows, milo);
    SweepKeepsUsers(e1, rows, milo);
    SweepKeepsUsers(e2, rows, first);
    KeepsChain(milo, first, second);
    HumansMembers(rows);
    ThirdPassIsQuiet(e3, rows, second);
    forall u | u in rows && u.human
      ensures u.id in second && (second[u.id].verification.Verified? <==> u.verified)
      ensures u.id in second && (second[u.id].verification.Unverified? <==> !u.verified)
    {
      assert RowInSync(second, u);
    }
  }
}
