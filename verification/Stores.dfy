/** The two stores the sweeps move: Zitadel's ordered account list, and milo's User objects. */
module Stores {
  import opened Wrappers

  type Id = string

  /** One row of the listing Zitadel pages over. `createdAt` is None when the API reported no date. */
  datatype Row = Row(id: Id, human: bool, email: string, givenName: string, familyName: string,
                     verified: bool, createdAt: Option<int>)

  const SWEEP_PAGE_SIZE: nat := 100

  function Min(a: nat, b: nat): nat { if a < b then a else b }

  /** The rows the server returns for one page request: their number is the raw count. */
  function RawPage(rows: seq<Row>, offset: nat): (page: seq<Row>)
    ensures |page| <= SWEEP_PAGE_SIZE
    ensures |page| == SWEEP_PAGE_SIZE ==> offset + SWEEP_PAGE_SIZE <= |rows|
  {
    rows[Min(offset, |rows|)..Min(offset + SWEEP_PAGE_SIZE, |rows|)]
  }

  /** What a pager that has reached `offset` still has before it. */
  function From(rows: seq<Row>, offset: nat): seq<Row> { rows[Min(offset, |rows|)..] }

  /** The rows left after the client's own non-human skip. */
  function Humans(rows: seq<Row>): (hs: seq<Row>)
    ensures |hs| <= |rows|
  {
    if rows == [] then [] else (if rows[0].human then [rows[0]] else []) + Humans(rows[1..])
  }

  lemma {:induction false} HumansMembers(rows: seq<Row>)
    ensures forall u :: u in Humans(rows) <==> u in rows && u.human
  {
    if rows != [] {
      HumansMembers(rows[1..]);
      assert rows == [rows[0]] + rows[1..];
    }
  }

  lemma HumansCons(r: Row, rest: seq<Row>)
    ensures Humans([r] + rest) == (if r.human then [r] else []) + Humans(rest)
  {
    assert ([r] + rest)[1..] == rest;
  }

  lemma AppendAssociates(a: seq<Row>, b: seq<Row>, c: seq<Row>)
    ensures (a + b) + c == a + (b + c)
  {
  }

  lemma {:induction false} HumansConcat(a: seq<Row>, b: seq<Row>)
    ensures Humans(a + b) == Humans(a) + Humans(b)
  {
    if a == [] {
      assert a + b == b;
    } else {
      var r, rest := a[0], a[1..];
      assert a == [r] + rest;
      AppendAssociates([r], rest, b);
      HumansConcat(rest, b);
      HumansCons(r, rest);
      HumansCons(r, rest + b);
      AppendAssociates(if r.human then [r] else [], Humans(rest), Humans(b));
    }
  }

  /** Zitadel ids are unique. */
  ghost predicate DistinctIds(rows: seq<Row>) {
    forall i, j :: 0 <= i < j < |rows| ==> rows[i].id != rows[j].id
  }

  lemma {:induction false} HumansDistinct(rows: seq<Row>)
    requires DistinctIds(rows)
    ensures DistinctIds(Humans(rows))
  {
    if rows != [] {
      HumansDistinct(rows[1..]);
      HumansMembers(rows[1..]);
      var rest := Humans(rows[1..]);
      forall j | 0 <= j < |rest| ensures rest[j].id != rows[0].id {
        assert rest[j] in rows[1..];
      }
    }
  }

  /** The list after the accounts named in `gone` have been deleted; the rest keep their order. */
  function Without(rows: seq<Row>, gone: set<Id>): (rest: seq<Row>)
    ensures |rest| <= |rows|
  {
    if rows == [] then [] else (if rows[0].id in gone then [] else [rows[0]]) + Without(rows[1..], gone)
  }

  lemma {:induction false} WithoutMembers(rows: seq<Row>, gone: set<Id>)
    ensures forall r :: r in Without(rows, gone) <==> r in rows && r.id !in gone
  {
    if rows != [] {
      WithoutMembers(rows[1..], gone);
      assert rows == [rows[0]] + rows[1..];
    }
  }

  lemma WithoutCons(r: Row, rest: seq<Row>, gone: set<Id>)
    ensures Without([r] + rest, gone) == (if r.id in gone then [] else [r]) + Without(rest, gone)
  {
    assert ([r] + rest)[1..] == rest;
  }

  lemma {:induction false} WithoutConcat(a: seq<Row>, b: seq<Row>, gone: set<Id>)
    ensures Without(a + b, gone) == Without(a, gone) + Without(b, gone)
  {
    if a == [] {
      assert a + b == b;
    } else {
      var r, rest := a[0], a[1..];
      assert a == [r] + rest;
      AppendAssociates([r], rest, b);
      WithoutConcat(rest, b, gone);
      WithoutCons(r, rest, gone);
      WithoutCons(r, rest + b, gone);
      AppendAssociates(if r.id in gone then [] else [r], Without(rest, gone), Without(b, gone));
    }
  }

  lemma {:induction false} WithoutTwice(rows: seq<Row>, x: set<Id>, y: set<Id>)
    ensures Without(Without(rows, x), y) == Without(rows, x + y)
  {
    if rows != [] {
      WithoutTwice(rows[1..], x, y);
      var head := if rows[0].id in x then [] else [rows[0]];
      assert Without(rows, x) == head + Without(rows[1..], x);
      WithoutConcat(head, Without(rows[1..], x), y);
    }
  }

  lemma {:induction false} WithoutNone(rows: seq<Row>, gone: set<Id>)
    requires forall r :: r in rows ==> r.id !in gone
    ensures Without(rows, gone) == rows
  {
    if rows != [] {
      assert forall r :: r in rows[1..] ==> r in rows;
      assert rows[0] in rows;
      WithoutNone(rows[1..], gone);
    }
  }

  lemma {:induction false} WithoutDistinct(rows: seq<Row>, gone: set<Id>)
    requires DistinctIds(rows)
    ensures DistinctIds(Without(rows, gone))
  {
    if rows != [] {
      WithoutDistinct(rows[1..], gone);
      WithoutMembers(rows[1..], gone);
      var rest := Without(rows[1..], gone);
      forall j | 0 <= j < |rest| ensures rest[j].id != rows[0].id {
        assert rest[j] in rows[1..];
      }
    }
  }

  /** Visiting rows one after the other. */
  function Fold<S>(visit: (S, Row) -> S, s: S, us: seq<Row>): S {
    if us == [] then s else visit(Fold(visit, s, us[..|us| - 1]), us[|us| - 1])
  }

  /** Folding over two batches in turn is folding over both. */
  lemma {:induction false} FoldConcat<S>(visit: (S, Row) -> S, s: S, a: seq<Row>, b: seq<Row>)
    ensures Fold(visit, Fold(visit, s, a), b) == Fold(visit, s, a + b)
  {
    if b == [] {
      assert a + b == a;
    } else {
      FoldConcat(visit, s, a, b[..|b| - 1]);
      assert (a + b)[..|a + b| - 1] == a + b[..|b| - 1];
    }
  }

  /** Old enough to be given up, unverified, and of known age. */
  predicate IsAbandoned(verified: bool, createdAt: Option<int>, cutoff: int) {
    !verified && createdAt.Some? && createdAt.value < cutoff
  }

  /** The milo User. `deleting` is a set deletion timestamp. */
  datatype Verification = Unset | Verified | Unverified

  datatype User = User(email: string, givenName: string, familyName: string,
                       verification: Verification, avatar: string, finalizer: bool, deleting: bool)

  /** The API server's Delete: an object with a finalizer is only marked. */
  function ApiDelete(milo: map<Id, User>, id: Id): map<Id, User> {
    if id !in milo then milo
    else if milo[id].finalizer then milo[id := milo[id].(deleting := true)]
    else milo - {id}
  }

  /** The verification state the provider writes for an address Zitadel reports as `verified`. */
  function Desired(verified: bool): Verification { if verified then Verified else Unverified }

  predicate NeedsUpdate(user: User, verified: bool) { user.verification != Desired(verified) }
}
