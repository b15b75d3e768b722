/** Reading a list page by page, by offset, while rows disappear from it: what is read once, what is missed. */
module Paging {
  import opened Stores

  // ----- Order-preserving selection -----

  ghost predicate IsSubsequence(a: seq<Row>, b: seq<Row>) {
    a == [] || (b != [] && ((a[0] == b[0] && IsSubsequence(a[1..], b[1..])) || IsSubsequence(a, b[1..])))
  }

  lemma {:induction false} SubsequenceSuffix(a: seq<Row>, front: seq<Row>, b: seq<Row>)
    requires IsSubsequence(a, b)
    ensures IsSubsequence(a, front + b)
  {
    if front == [] {
      assert front + b == b;
    } else {
      SubsequenceSuffix(a, front[1..], b);
      assert (front + b)[1..] == front[1..] + b;
    }
  }

  lemma {:induction false} SubsequencePrefix(front: seq<Row>, a: seq<Row>, b: seq<Row>)
    requires IsSubsequence(a, b)
    ensures IsSubsequence(front + a, front + b)
  {
    if front == [] {
      assert front + a == a && front + b == b;
    } else {
      SubsequencePrefix(front[1..], a, b);
      assert (front + a)[0] == front[0] && (front + a)[1..] == front[1..] + a;
      assert (front + b)[0] == front[0] && (front + b)[1..] == front[1..] + b;
    }
  }

  lemma {:induction false} SubsequenceBound(a: seq<Row>, b: seq<Row>)
    requires IsSubsequence(a, b)
    ensures |a| <= |b|
    ensures |a| == |b| ==> a == b
    ensures forall r :: r in a ==> r in b
    ensures DistinctIds(b) ==> DistinctIds(a)
  {
    if a != [] {
      if a[0] == b[0] && IsSubsequence(a[1..], b[1..]) {
        SubsequenceBound(a[1..], b[1..]);
        assert a == [a[0]] + a[1..] && b == [b[0]] + b[1..];
        if DistinctIds(b) {
          forall j | 0 < j < |a| ensures a[j].id != a[0].id {
            assert a[1..][j - 1] == a[j] && a[j] in b[1..];
          }
          forall i, j | 0 < i < j < |a| ensures a[i].id != a[j].id {
            assert a[1..][i - 1] == a[i] && a[1..][j - 1] == a[j];
          }
        }
      } else {
        SubsequenceBound(a, b[1..]);
      }
    }
  }

  lemma SubsequenceReflexive(a: seq<Row>)
    ensures IsSubsequence(a, a)
  {
    SubsequencePrefix(a, [], []);
    assert a + [] == a;
  }

  lemma {:induction false} SubsequenceTransitive(a: seq<Row>, b: seq<Row>, c: seq<Row>)
    requires IsSubsequence(a, b) && IsSubsequence(b, c)
    ensures IsSubsequence(a, c)
    decreases |b| + |c|
  {
    if a != [] {
      if b[0] == c[0] && IsSubsequence(b[1..], c[1..]) {
        if a[0] == b[0] && IsSubsequence(a[1..], b[1..]) {
          SubsequenceTransitive(a[1..], b[1..], c[1..]);
        } else {
          SubsequenceTransitive(a, b[1..], c[1..]);
        }
      } else {
        SubsequenceTransitive(a, b, c[1..]);
      }
    }
  }

  /** The humans left of a list are among its humans, in order; no more are lost than rows. */
  lemma {:induction false} HumansWithout(rows: seq<Row>, gone: set<Id>)
    ensures IsSubsequence(Humans(Without(rows, gone)), Humans(rows))
    ensures |Humans(rows)| - |Humans(Without(rows, gone))| <= |rows| - |Without(rows, gone)|
  {
    if rows != [] {
      var rest := rows[1..];
      HumansWithout(rest, gone);
      if rows[0].id in gone {
        assert Without(rows, gone) == Without(rest, gone);
        SubsequenceSuffix(Humans(Without(rest, gone)), if rows[0].human then [rows[0]] else [], Humans(rest));
      } else {
        HumansCons(rows[0], Without(rest, gone));
        SubsequencePrefix(if rows[0].human then [rows[0]] else [], Humans(Without(rest, gone)), Humans(rest));
      }
    }
  }

  // ----- One page -----

  /** What one sweep scanned, the listing it leaves, and whether every page could be read. */
  datatype Trace = Trace(scanned: seq<Row>, rows: seq<Row>, complete: bool)

  lemma ShiftedTail(kept: seq<Row>, tail: seq<Row>, next: nat)
    requires |kept| <= next
    ensures From(kept + tail, next) == tail[Min(next - |kept|, |tail|)..]
  {
  }

  lemma FromSplits(rows: seq<Row>, offset: nat)
    requires |RawPage(rows, offset)| == SWEEP_PAGE_SIZE
    ensures From(rows, offset) == RawPage(rows, offset) + rows[offset + SWEEP_PAGE_SIZE..]
    ensures From(rows, offset + SWEEP_PAGE_SIZE) == rows[offset + SWEEP_PAGE_SIZE..]
  {
  }

  /** What a reader finds behind a page when any rows, wherever they stood, have gone since: the rest of the
      tail, shifted left by exactly the number that went before it. */
  lemma TailAfter(rows: seq<Row>, next: nat, gone: set<Id>)
    requires next <= |rows|
    ensures var left := Without(rows[next..], gone);
      From(Without(rows, gone), next) == left[Min(next - |Without(rows[..next], gone)|, |left|)..]
  {
    assert rows == rows[..next] + rows[next..];
    WithoutConcat(rows[..next], rows[next..], gone);
    ShiftedTail(Without(rows[..next], gone), Without(rows[next..], gone), next);
  }

  /** Scanning a page and then what is left of the tail from `cut` on. */
  lemma CoverageStep(page: seq<Row>, tail: seq<Row>, gone: set<Id>, cut: nat, rest: seq<Row>)
    requires cut <= |Without(tail, gone)| && IsSubsequence(rest, Humans(Without(tail, gone)[cut..]))
    ensures IsSubsequence(Humans(page) + rest, Humans(page + tail))
    ensures |Humans(page + tail)|
         <= |Humans(page)| + (|tail| - |Without(tail, gone)|) + cut + |Humans(Without(tail, gone)[cut..])|
  {
    var left := Without(tail, gone);
    HumansConcat(page, tail);
    HumansConcat(left[..cut], left[cut..]);
    assert left[..cut] + left[cut..] == left;
    HumansWithout(tail, gone);
    SubsequenceSuffix(rest, Humans(left[..cut]), Humans(left[cut..]));
    SubsequenceTransitive(rest, Humans(left), Humans(tail));
    SubsequencePrefix(Humans(page), rest, Humans(tail));
  }

  /** `t` selects humans of the listing from `offset` on, in order, and misses at most as many as rows went. */
  ghost predicate Covers(t: Trace, rows: seq<Row>, offset: nat) {
    && IsSubsequence(t.scanned, Humans(From(rows, offset)))
    && |t.rows| <= |rows|
    && (t.complete ==> |Humans(From(rows, offset))| <= |t.scanned| + (|rows| - |t.rows|))
  }

  lemma WithoutSplit(rows: seq<Row>, next: nat, gone: set<Id>)
    requires next <= |rows|
    ensures |Without(rows, gone)| == |Without(rows[..next], gone)| + |Without(rows[next..], gone)|
  {
    assert rows == rows[..next] + rows[next..];
    WithoutConcat(rows[..next], rows[next..], gone);
  }

  lemma CoversFullPage(rows: seq<Row>, offset: nat, gone: set<Id>, rest: Trace)
    requires |RawPage(rows, offset)| == SWEEP_PAGE_SIZE
    requires Covers(rest, Without(rows, gone), offset + SWEEP_PAGE_SIZE)
    ensures Covers(Trace(Humans(RawPage(rows, offset)) + rest.scanned, rest.rows, rest.complete), rows, offset)
  {
    var next := offset + SWEEP_PAGE_SIZE;
    var page, tail := RawPage(rows, offset), rows[next..];
    var left := Without(tail, gone);
    var cut := Min(next - |Without(rows[..next], gone)|, |left|);
    TailAfter(rows, next, gone);
    FromSplits(rows, offset);
    WithoutSplit(rows, next, gone);
    CoverageStep(page, tail, gone, cut, rest.scanned);
  }

  lemma CoversLastPage(rows: seq<Row>, offset: nat, left: seq<Row>)
    requires |RawPage(rows, offset)| < SWEEP_PAGE_SIZE && |left| <= |rows|
    ensures Covers(Trace(Humans(RawPage(rows, offset)), left, true), rows, offset)
  {
    assert RawPage(rows, offset) == From(rows, offset);
    SubsequenceReflexive(Humans(RawPage(rows, offset)));
  }
}
