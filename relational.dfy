/**
  The relational operators the SQL of the dashboard is built from: WHERE,
  inner and LEFT joins, GROUP BY with COUNT and SUM, ORDER BY ... DESC and
  LIMIT. Every operator works on sequences of rows; the row order a query
  returns is only specified where the query has an ORDER BY, and then only
  up to ties.
*/
module Relational {
  import opened Results

  // ---------------------------------------------------------------------
  // WHERE

  /** The rows of xs satisfying keep, in their original order. */
  function Where<X(==,!new)>(xs: seq<X>, keep: X -> bool): (r: seq<X>)
    ensures |r| <= |xs|
    ensures forall x :: x in r <==> x in xs && keep(x)
    ensures forall x :: multiset(r)[x] == if keep(x) then multiset(xs)[x] else 0
    ensures IsSubsequence(r, xs)
  {
    if xs == [] then []
    else
      assert xs == [xs[0]] + xs[1..];
      if keep(xs[0]) then [xs[0]] + Where(xs[1..], keep)
      else Where(xs[1..], keep)
  }

  /** a can be obtained from b by deleting elements. */
  predicate IsSubsequence<X(==,!new)>(a: seq<X>, b: seq<X>)
    decreases |b|
  {
    a == [] ||
    (b != [] && ((a[0] == b[0] && IsSubsequence(a[1..], b[1..])) || IsSubsequence(a, b[1..])))
  }

  /** Every table is a subsequence of itself: a WHERE that keeps every row. */
  lemma {:induction false} SubsequenceOfItself<X(!new)>(xs: seq<X>)
    ensures IsSubsequence(xs, xs)
  {
    if xs != [] {
      SubsequenceOfItself(xs[1..]);
    }
  }

  // ---------------------------------------------------------------------
  // Joins

  /** The rows of bs that join with a under the condition on, in order. */
  function Matching<A, B(==,!new)>(a: A, bs: seq<B>, on: (A, B) -> bool): (ms: seq<B>)
    ensures |ms| <= |bs|
    ensures forall b :: b in ms <==> b in bs && on(a, b)
  {
    if bs == [] then []
    else (if on(a, bs[0]) then [bs[0]] else []) + Matching(a, bs[1..], on)
  }

  /** A partner occurs among the matches as often as in the right table. */
  lemma {:induction false} MatchingCopies<A, B(!new)>(a: A, bs: seq<B>, on: (A, B) -> bool)
    ensures forall b :: multiset(Matching(a, bs, on))[b] == if on(a, b) then multiset(bs)[b] else 0
  {
    if bs != [] {
      MatchingCopies(a, bs[1..], on);
      assert bs == [bs[0]] + bs[1..];
    }
  }

  /** The row a paired with each row of ms. */
  function Pairs<A(==,!new), B(==,!new)>(a: A, ms: seq<B>): (r: seq<(A, B)>)
    ensures |r| == |ms|
    ensures forall x :: x in r <==> x.0 == a && x.1 in ms
    ensures forall x :: multiset(r)[x] == if x.0 == a then multiset(ms)[x.1] else 0
  {
    if ms == [] then []
    else
      assert ms == [ms[0]] + ms[1..];
      [(a, ms[0])] + Pairs(a, ms[1..])
  }

  /** as JOIN bs ON on: one row per matching pair of rows, in nested-loop order. */
  function InnerJoin<A(==,!new), B(==,!new)>(ls: seq<A>, bs: seq<B>, on: (A, B) -> bool): (j: seq<(A, B)>)
    ensures forall x :: x in j <==> x.0 in ls && x.1 in bs && on(x.0, x.1)
  {
    if ls == [] then []
    else Pairs(ls[0], Matching(ls[0], bs, on)) + InnerJoin(ls[1..], bs, on)
  }

  /** m copies of n rows each: m * n, written so that a join's proofs stay linear. */
  function Times(m: nat, n: nat): (r: nat)
  {
    if m == 0 then 0 else n + Times(m - 1, n)
  }

  lemma {:induction false} TimesIsProduct(m: nat, n: nat)
    ensures Times(m, n) == m * n
  {
    if m > 0 {
      TimesIsProduct(m - 1, n);
    }
  }

  /**
    A joined pair occurs as often as its two rows occur together: once per
    pair of source rows, so Times(copies of the left row, copies of the right).
  */
  lemma {:induction false} InnerJoinCopies<A(!new), B(!new)>(ls: seq<A>, bs: seq<B>, on: (A, B) -> bool)
    ensures forall x :: (multiset(InnerJoin(ls, bs, on))[x] ==
      if on(x.0, x.1) then Times(multiset(ls)[x.0], multiset(bs)[x.1]) else 0)
  {
    if ls != [] {
      var ms := Matching(ls[0], bs, on);
      var p := Pairs(ls[0], ms);
      var tail := InnerJoin(ls[1..], bs, on);
      InnerJoinCopies(ls[1..], bs, on);
      MatchingCopies(ls[0], bs, on);
      assert InnerJoin(ls, bs, on) == p + tail;
      assert ls == [ls[0]] + ls[1..];
      forall x: (A, B)
        ensures multiset(p + tail)[x] == if on(x.0, x.1) then Times(multiset(ls)[x.0], multiset(bs)[x.1]) else 0
      {
        assert multiset(p)[x] == if x.0 == ls[0] then multiset(ms)[x.1] else 0;
        JoinCons(ls[0], ls[1..], bs, on, p, tail, x);
      }
    }
  }

  /** The pairs p of one more left row l0 added to the join of the rest, at one pair x. */
  lemma JoinCons<A, B>(l0: A, rest: seq<A>, bs: seq<B>, on: (A, B) -> bool, p: seq<(A, B)>, tail: seq<(A, B)>, x: (A, B))
    requires multiset(p)[x] == if x.0 == l0 && on(x.0, x.1) then multiset(bs)[x.1] else 0
    requires multiset(tail)[x] == if on(x.0, x.1) then Times(multiset(rest)[x.0], multiset(bs)[x.1]) else 0
    ensures multiset(p + tail)[x] == if on(x.0, x.1) then Times(multiset([l0] + rest)[x.0], multiset(bs)[x.1]) else 0
  {
    assert multiset([l0] + rest)[x.0] == (if x.0 == l0 then 1 else 0) + multiset(rest)[x.0];
  }

  /** The rows a LEFT JOIN produces for one left row a whose partners are ms. */
  function Padded<A(==,!new), B(==,!new)>(a: A, ms: seq<B>): (r: seq<(A, Option<B>)>)
    ensures |r| == if ms == [] then 1 else |ms|
    ensures forall x :: x in r <==> x.0 == a && (if ms == [] then x.1 == None else x.1.Some? && x.1.value in ms)
  {
    if ms == [] then [(a, None)]
    else if |ms| == 1 then [(a, Some(ms[0]))]
    else [(a, Some(ms[0]))] + Padded(a, ms[1..])
  }

  /**
    as LEFT JOIN bs ON on: like the inner join, but a left row without any
    partner survives once, paired with NULL (None).
  */
  function LeftJoin<A(==,!new), B(==,!new)>(ls: seq<A>, bs: seq<B>, on: (A, B) -> bool): (j: seq<(A, Option<B>)>)
    ensures forall a, b :: (a, Some(b)) in j <==> a in ls && b in bs && on(a, b)
    ensures forall a :: (a, None) in j <==> a in ls && Matching(a, bs, on) == []
    ensures forall x :: x in j ==> x.0 in ls
  {
    if ls == [] then []
    else Padded(ls[0], Matching(ls[0], bs, on)) + LeftJoin(ls[1..], bs, on)
  }

  /** The row columns of a LEFT JOIN that COUNT(right.column) counts: those with a partner. */
  function Present<A, B>(row: (A, Option<B>)): bool { row.1.Some? }

  /** COUNT(*) counts every row. */
  function Always<X>(x: X): bool { true }

  /** The summed column of a query that only counts. */
  function NoAmount<X>(x: X): int { 0 }

  // ---------------------------------------------------------------------
  // Aggregates over a relation

  /** COUNT for group k: the rows of xs with key k that counted accepts. */
  function CountOf<X, K(==,!new)>(xs: seq<X>, key: X -> K, counted: X -> bool, k: K): nat
  {
    if xs == [] then 0
    else (if key(xs[0]) == k && counted(xs[0]) then 1 else 0) + CountOf(xs[1..], key, counted, k)
  }

  /** SUM(amount) for group k. */
  function TotalOf<X, K(==,!new)>(xs: seq<X>, key: X -> K, amount: X -> int, k: K): int
  {
    if xs == [] then 0
    else (if key(xs[0]) == k then amount(xs[0]) else 0) + TotalOf(xs[1..], key, amount, k)
  }

  /** COUNT without GROUP BY. */
  function CountAll<X>(xs: seq<X>, counted: X -> bool): nat
  {
    if xs == [] then 0 else (if counted(xs[0]) then 1 else 0) + CountAll(xs[1..], counted)
  }

  /** SUM without GROUP BY (0 for no rows; SQL's NULL is handled by the caller). */
  function TotalAll<X>(xs: seq<X>, amount: X -> int): int
  {
    if xs == [] then 0 else amount(xs[0]) + TotalAll(xs[1..], amount)
  }

  /** The set of grouping keys occurring in xs. */
  function KeysOf<X, K>(xs: seq<X>, key: X -> K): set<K>
  {
    set i | 0 <= i < |xs| :: key(xs[i])
  }

  lemma KeysOfCons<X, K>(xs: seq<X>, key: X -> K)
    requires xs != []
    ensures KeysOf(xs, key) == {key(xs[0])} + KeysOf(xs[1..], key)
  {
    var rest := xs[1..];
    forall k | k in KeysOf(xs, key) ensures k in {key(xs[0])} + KeysOf(rest, key) {
      var i :| 0 <= i < |xs| && key(xs[i]) == k;
      if i > 0 { assert key(rest[i - 1]) == k; }
    }
    forall k | k in KeysOf(rest, key) ensures k in KeysOf(xs, key) {
      var i :| 0 <= i < |rest| && key(rest[i]) == k;
      assert key(xs[i + 1]) == k;
    }
  }

  lemma {:induction false} CountAllAlways<X>(xs: seq<X>)
    ensures CountAll(xs, Always) == |xs|
  {
    if xs != [] { CountAllAlways(xs[1..]); }
  }

  /** SUM over a concatenation is the sum of the two SUMs. */
  lemma {:induction false} TotalAllAppend<X>(xs: seq<X>, ys: seq<X>, amount: X -> int)
    ensures TotalAll(xs + ys, amount) == TotalAll(xs, amount) + TotalAll(ys, amount)
  {
    if xs == [] {
      assert xs + ys == ys;
    } else {
      assert (xs + ys)[1..] == xs[1..] + ys;
      TotalAllAppend(xs[1..], ys, amount);
    }
  }

  /** COUNT over a concatenation is the sum of the two COUNTs. */
  lemma {:induction false} CountOfAppend<X, K(!new)>(xs: seq<X>, ys: seq<X>, key: X -> K, counted: X -> bool, k: K)
    ensures CountOf(xs + ys, key, counted, k) == CountOf(xs, key, counted, k) + CountOf(ys, key, counted, k)
  {
    if xs == [] {
      assert xs + ys == ys;
    } else {
      assert (xs + ys)[1..] == xs[1..] + ys;
      CountOfAppend(xs[1..], ys, key, counted, k);
    }
  }

  /** There are never more distinct keys than rows, and at least one when there are rows. */
  lemma {:induction false} KeysOfSize<X, K>(xs: seq<X>, key: X -> K)
    ensures |KeysOf(xs, key)| <= |xs|
    ensures xs != [] ==> |KeysOf(xs, key)| >= 1
  {
    if xs != [] {
      KeysOfCons(xs, key);
      KeysOfSize(xs[1..], key);
    }
  }

  /** Distinct keys on distinct rows: one key per row. */
  lemma {:induction false} KeysOfInjective<X, K(!new)>(xs: seq<X>, key: X -> K)
    requires forall p, q :: 0 <= p < q < |xs| ==> key(xs[p]) != key(xs[q])
    ensures |KeysOf(xs, key)| == |xs|
  {
    if xs != [] {
      var rest := xs[1..];
      KeysOfCons(xs, key);
      forall p, q | 0 <= p < q < |rest| ensures key(rest[p]) != key(rest[q]) {
        assert rest[p] == xs[p + 1] && rest[q] == xs[q + 1];
      }
      KeysOfInjective(rest, key);
      forall k | k in KeysOf(rest, key) ensures k != key(xs[0]) {
        var j :| 0 <= j < |rest| && key(rest[j]) == k;
        assert rest[j] == xs[j + 1];
      }
    }
  }

  /** COUNT(*) of group k is positive exactly when k occurs. */
  lemma {:induction false} CountOfPositive<X, K(!new)>(xs: seq<X>, key: X -> K, k: K)
    ensures CountOf(xs, key, Always, k) > 0 <==> k in KeysOf(xs, key)
  {
    if xs != [] {
      KeysOfCons(xs, key);
      CountOfPositive(xs[1..], key, k);
    }
  }

  /** Membership in the key set, stated by rows rather than positions. */
  lemma KeysOfMembers<X(!new), K(!new)>(xs: seq<X>, key: X -> K)
    ensures forall k :: k in KeysOf(xs, key) <==> exists x :: x in xs && key(x) == k
  {
  }

  // ---------------------------------------------------------------------
  // Successive WHERE clauses

  /** Filtering by p and then by q is filtering once by their conjunction. */
  lemma {:induction false} WhereCompose<X(!new)>(xs: seq<X>, p: X -> bool, q: X -> bool, pq: X -> bool)
    requires forall x :: x in xs ==> pq(x) == (p(x) && q(x))
    ensures Where(Where(xs, p), q) == Where(xs, pq)
  {
    if xs != [] {
      WhereCompose(xs[1..], p, q, pq);
    }
  }

  /** Two conditions that agree on every row select the same rows. */
  lemma {:induction false} WhereAgree<X(!new)>(xs: seq<X>, p: X -> bool, q: X -> bool)
    requires forall x :: x in xs ==> p(x) == q(x)
    ensures Where(xs, p) == Where(xs, q)
  {
    if xs != [] {
      WhereAgree(xs[1..], p, q);
    }
  }

  /** A condition every row meets keeps the relation as it is. */
  lemma {:induction false} WhereAll<X(!new)>(xs: seq<X>, p: X -> bool)
    requires forall x :: x in xs ==> p(x)
    ensures Where(xs, p) == xs
  {
    if xs != [] {
      WhereAll(xs[1..], p);
      assert xs == [xs[0]] + xs[1..];
    }
  }

  /** A WHERE that keeps every row of group k leaves that group's COUNT and SUM alone. */
  lemma {:induction false} WhereKeepsGroup<X(!new), K(!new)>(
    xs: seq<X>, p: X -> bool, key: X -> K, counted: X -> bool, amount: X -> int, k: K)
    requires forall x :: x in xs && key(x) == k ==> p(x)
    ensures CountOf(Where(xs, p), key, counted, k) == CountOf(xs, key, counted, k)
    ensures TotalOf(Where(xs, p), key, amount, k) == TotalOf(xs, key, amount, k)
  {
    if xs != [] {
      WhereKeepsGroup(xs[1..], p, key, counted, amount, k);
    }
  }

  // ---------------------------------------------------------------------
  // Counting joined rows

  /** The number of partners in bs of the rows of ls whose key is k. */
  function MatchCount<A, B(==,!new), K(==)>(ls: seq<A>, bs: seq<B>, on: (A, B) -> bool, key: A -> K, k: K): nat
  {
    if ls == [] then 0
    else (if key(ls[0]) == k then |Matching(ls[0], bs, on)| else 0) + MatchCount(ls[1..], bs, on, key, k)
  }

  lemma {:induction false} PaddedCount<A(!new), B(!new), K(!new)>(
    a: A, ms: seq<B>, key: A -> K, rowKey: ((A, Option<B>)) -> K, k: K)
    requires forall x :: rowKey(x) == key(x.0)
    ensures CountOf(Padded(a, ms), rowKey, Present, k) == if key(a) == k then |ms| else 0
    decreases |ms|
  {
    if |ms| > 1 {
      var r := Padded(a, ms);
      assert r[1..] == Padded(a, ms[1..]);
      PaddedCount(a, ms[1..], key, rowKey, k);
    }
  }

  /**
    COUNT(right column) of a LEFT JOIN grouped by a key of the left row:
    the number of partners the left rows of that key have, so a left row
    without partners contributes 0 rather than 1.
  */
  lemma {:induction false} LeftJoinCount<A(!new), B(!new), K(!new)>(
    ls: seq<A>, bs: seq<B>, on: (A, B) -> bool, key: A -> K, rowKey: ((A, Option<B>)) -> K, k: K)
    requires forall x :: rowKey(x) == key(x.0)
    ensures CountOf(LeftJoin(ls, bs, on), rowKey, Present, k) == MatchCount(ls, bs, on, key, k)
  {
    if ls != [] {
      var ms := Matching(ls[0], bs, on);
      CountOfAppend(Padded(ls[0], ms), LeftJoin(ls[1..], bs, on), rowKey, Present, k);
      PaddedCount(ls[0], ms, key, rowKey, k);
      LeftJoinCount(ls[1..], bs, on, key, rowKey, k);
    }
  }

  lemma {:induction false} PairsCount<A(!new), B(!new), K(!new)>(
    a: A, ms: seq<B>, key: A -> K, rowKey: ((A, B)) -> K, counted: ((A, B)) -> bool, k: K)
    requires forall x :: rowKey(x) == key(x.0) && counted(x)
    ensures CountOf(Pairs(a, ms), rowKey, counted, k) == if key(a) == k then |ms| else 0
  {
    if ms != [] {
      PairsCount(a, ms[1..], key, rowKey, counted, k);
    }
  }

  /** COUNT of an inner join grouped by a key of the left row: again the number of partners. */
  lemma {:induction false} InnerJoinCount<A(!new), B(!new), K(!new)>(
    ls: seq<A>, bs: seq<B>, on: (A, B) -> bool, key: A -> K, rowKey: ((A, B)) -> K, counted: ((A, B)) -> bool, k: K)
    requires forall x :: rowKey(x) == key(x.0) && counted(x)
    ensures CountOf(InnerJoin(ls, bs, on), rowKey, counted, k) == MatchCount(ls, bs, on, key, k)
  {
    if ls != [] {
      var ms := Matching(ls[0], bs, on);
      CountOfAppend(Pairs(ls[0], ms), InnerJoin(ls[1..], bs, on), rowKey, counted, k);
      PairsCount(ls[0], ms, key, rowKey, counted, k);
      InnerJoinCount(ls[1..], bs, on, key, rowKey, counted, k);
    }
  }

  /** The summed amounts of the partners in bs of the rows of ls whose key is k. */
  function MatchTotal<A, B(==,!new), K(==)>(
    ls: seq<A>, bs: seq<B>, on: (A, B) -> bool, key: A -> K, amount: B -> int, k: K): int
  {
    if ls == [] then 0
    else (if key(ls[0]) == k then TotalAll(Matching(ls[0], bs, on), amount) else 0) + MatchTotal(ls[1..], bs, on, key, amount, k)
  }

  lemma {:induction false} PairsTotal<A(!new), B(!new), K(!new)>(
    a: A, ms: seq<B>, key: A -> K, amount: B -> int, rowKey: ((A, B)) -> K, rowAmount: ((A, B)) -> int, k: K)
    requires forall x :: rowKey(x) == key(x.0) && rowAmount(x) == amount(x.1)
    ensures TotalOf(Pairs(a, ms), rowKey, rowAmount, k) == if key(a) == k then TotalAll(ms, amount) else 0
  {
    if ms != [] {
      PairsTotal(a, ms[1..], key, amount, rowKey, rowAmount, k);
    }
  }

  lemma {:induction false} TotalOfAppend<X, K(!new)>(xs: seq<X>, ys: seq<X>, key: X -> K, amount: X -> int, k: K)
    ensures TotalOf(xs + ys, key, amount, k) == TotalOf(xs, key, amount, k) + TotalOf(ys, key, amount, k)
  {
    if xs == [] {
      assert xs + ys == ys;
    } else {
      assert (xs + ys)[1..] == xs[1..] + ys;
      TotalOfAppend(xs[1..], ys, key, amount, k);
    }
  }

  /** SUM over an inner join grouped by a key of the left row: the partners' amounts, left row by left row. */
  lemma {:induction false} InnerJoinTotal<A(!new), B(!new), K(!new)>(
    ls: seq<A>, bs: seq<B>, on: (A, B) -> bool, key: A -> K, amount: B -> int,
    rowKey: ((A, B)) -> K, rowAmount: ((A, B)) -> int, k: K)
    requires forall x :: rowKey(x) == key(x.0) && rowAmount(x) == amount(x.1)
    ensures TotalOf(InnerJoin(ls, bs, on), rowKey, rowAmount, k) == MatchTotal(ls, bs, on, key, amount, k)
  {
    if ls != [] {
      var ms := Matching(ls[0], bs, on);
      TotalOfAppend(Pairs(ls[0], ms), InnerJoin(ls[1..], bs, on), rowKey, rowAmount, k);
      PairsTotal(ls[0], ms, key, amount, rowKey, rowAmount, k);
      InnerJoinTotal(ls[1..], bs, on, key, amount, rowKey, rowAmount, k);
    }
  }

  /** A LEFT JOIN keeps every left row, so grouping it by a left key gives the left keys. */
  lemma LeftJoinKeys<A(!new), B(!new), K(!new)>(
    ls: seq<A>, bs: seq<B>, on: (A, B) -> bool, key: A -> K, rowKey: ((A, Option<B>)) -> K)
    requires forall x :: rowKey(x) == key(x.0)
    ensures KeysOf(LeftJoin(ls, bs, on), rowKey) == KeysOf(ls, key)
  {
    var j := LeftJoin(ls, bs, on);
    KeysOfMembers(j, rowKey);
    KeysOfMembers(ls, key);
    forall k | k in KeysOf(ls, key) ensures k in KeysOf(j, rowKey) {
      var a :| a in ls && key(a) == k;
      var ms := Matching(a, bs, on);
      var x := if ms == [] then (a, None) else (a, Some(ms[0]));
      assert ms != [] ==> ms[0] in ms;
      assert x in j && rowKey(x) == k;
    }
  }

  /** Every row of key k contributes its partners to the count of k. */
  lemma {:induction false} MatchCountAtLeast<A, B(!new), K(!new)>(
    ls: seq<A>, bs: seq<B>, on: (A, B) -> bool, key: A -> K, i: nat)
    requires i < |ls|
    ensures MatchCount(ls, bs, on, key, key(ls[i])) >= |Matching(ls[i], bs, on)|
  {
    if i > 0 {
      MatchCountAtLeast(ls[1..], bs, on, key, i - 1);
    }
  }

  /** Two rows sharing a key are merged: the count of the key covers both rows' partners. */
  lemma {:induction false} MatchCountTwo<A, B(!new), K(!new)>(
    ls: seq<A>, bs: seq<B>, on: (A, B) -> bool, key: A -> K, i: nat, j: nat)
    requires i < j < |ls| && key(ls[i]) == key(ls[j])
    ensures MatchCount(ls, bs, on, key, key(ls[i])) >= |Matching(ls[i], bs, on)| + |Matching(ls[j], bs, on)|
  {
    if i == 0 {
      MatchCountAtLeast(ls[1..], bs, on, key, j - 1);
    } else {
      MatchCountTwo(ls[1..], bs, on, key, i - 1, j - 1);
    }
  }

  /** When no two left rows share a key, the partners of key k are those of its one row. */
  lemma {:induction false} MatchCountUnique<A, B(!new), K(!new)>(
    ls: seq<A>, bs: seq<B>, on: (A, B) -> bool, key: A -> K, i: nat)
    requires i < |ls|
    requires forall p, q :: 0 <= p < q < |ls| ==> key(ls[p]) != key(ls[q])
    ensures MatchCount(ls, bs, on, key, key(ls[i])) == |Matching(ls[i], bs, on)|
  {
    if i == 0 {
      MatchCountAbsent(ls[1..], bs, on, key, key(ls[0]));
    } else {
      MatchCountUnique(ls[1..], bs, on, key, i - 1);
    }
  }

  lemma {:induction false} MatchCountAbsent<A, B(!new), K(!new)>(ls: seq<A>, bs: seq<B>, on: (A, B) -> bool, key: A -> K, k: K)
    requires forall p :: 0 <= p < |ls| ==> key(ls[p]) != k
    ensures MatchCount(ls, bs, on, key, k) == 0
  {
    if ls != [] {
      MatchCountAbsent(ls[1..], bs, on, key, k);
    }
  }

  /** The left rows that have at least one partner: what an inner join keeps of ls. */
  function Joinable<A, B(==,!new)>(ls: seq<A>, bs: seq<B>, on: (A, B) -> bool): seq<A>
  {
    if ls == [] then []
    else (if Matching(ls[0], bs, on) != [] then [ls[0]] else []) + Joinable(ls[1..], bs, on)
  }

  /** No two rows of bs are both partners of a. */
  predicate AtMostOnePartner<A, B>(a: A, bs: seq<B>, on: (A, B) -> bool)
  {
    forall p, q :: 0 <= p < q < |bs| ==> !(on(a, bs[p]) && on(a, bs[q]))
  }

  lemma {:induction false} MatchingAtMostOne<A, B(!new)>(a: A, bs: seq<B>, on: (A, B) -> bool)
    requires AtMostOnePartner(a, bs, on)
    ensures |Matching(a, bs, on)| <= 1
  {
    if bs != [] {
      var rest := bs[1..];
      assert AtMostOnePartner(a, rest, on) by {
        forall p, q | 0 <= p < q < |rest| ensures !(on(a, rest[p]) && on(a, rest[q])) {
          assert rest[p] == bs[p + 1] && rest[q] == bs[q + 1];
        }
      }
      MatchingAtMostOne(a, rest, on);
      if on(a, bs[0]) {
        forall b | b in rest ensures !on(a, b) {
          var q :| 0 <= q < |rest| && rest[q] == b;
          assert bs[q + 1] == b;
        }
        MatchingNone(a, rest, on);
      }
    }
  }

  lemma {:induction false} MatchingNone<A, B(!new)>(a: A, bs: seq<B>, on: (A, B) -> bool)
    requires forall b :: b in bs ==> !on(a, b)
    ensures Matching(a, bs, on) == []
  {
    if bs != [] {
      assert bs[0] in bs;
      MatchingNone(a, bs[1..], on);
    }
  }

  /**
    When every left row has at most one partner, the inner join has exactly
    one row per left row that has a partner.
  */
  lemma {:induction false} InnerJoinSize<A(!new), B(!new)>(ls: seq<A>, bs: seq<B>, on: (A, B) -> bool)
    requires forall i :: 0 <= i < |ls| ==> AtMostOnePartner(ls[i], bs, on)
    ensures |InnerJoin(ls, bs, on)| == |Joinable(ls, bs, on)|
  {
    if ls != [] {
      MatchingAtMostOne(ls[0], bs, on);
      InnerJoinSize(ls[1..], bs, on);
    }
  }

  // ---------------------------------------------------------------------
  // Groups: the output rows of GROUP BY

  /** One output row of GROUP BY: the key, COUNT(...) and SUM(...) of its rows. */
  datatype Group<K> = Group(key: K, count: nat, total: int)

  /** The aggregate an ORDER BY ... DESC sorts on. */
  datatype Measure = ByCount | ByTotal

  function Value<K>(g: Group<K>, m: Measure): int
  {
    match m
    case ByCount => g.count
    case ByTotal => g.total
  }

  function KeySet<K>(gs: seq<Group<K>>): set<K>
  {
    set i | 0 <= i < |gs| :: gs[i].key
  }

  predicate DistinctKeys<K(==,!new)>(gs: seq<Group<K>>)
  {
    forall i, j :: 0 <= i < j < |gs| ==> gs[i].key != gs[j].key
  }

  /** The COUNT recorded for key k (summed over every row with that key). */
  function GroupCount<K(==,!new)>(gs: seq<Group<K>>, k: K): nat
  {
    if gs == [] then 0 else (if gs[0].key == k then gs[0].count else 0) + GroupCount(gs[1..], k)
  }

  /** The SUM recorded for key k. */
  function GroupTotal<K(==,!new)>(gs: seq<Group<K>>, k: K): int
  {
    if gs == [] then 0 else (if gs[0].key == k then gs[0].total else 0) + GroupTotal(gs[1..], k)
  }

  function SumCounts<K>(gs: seq<Group<K>>): nat
  {
    if gs == [] then 0 else gs[0].count + SumCounts(gs[1..])
  }

  function SumTotals<K>(gs: seq<Group<K>>): int
  {
    if gs == [] then 0 else gs[0].total + SumTotals(gs[1..])
  }

  lemma KeySetCons<K(!new)>(gs: seq<Group<K>>)
    requires gs != []
    ensures KeySet(gs) == {gs[0].key} + KeySet(gs[1..])
  {
    var rest := gs[1..];
    forall k | k in KeySet(gs) ensures k in {gs[0].key} + KeySet(rest) {
      var i :| 0 <= i < |gs| && gs[i].key == k;
      if i > 0 { assert rest[i - 1].key == k; }
    }
    forall k | k in KeySet(rest) ensures k in KeySet(gs) {
      var i :| 0 <= i < |rest| && rest[i].key == k;
      assert gs[i + 1].key == k;
    }
  }

  /** Distinctness of keys, one row at a time. */
  lemma DistinctCons<K(!new)>(gs: seq<Group<K>>)
    requires gs != []
    ensures DistinctKeys(gs) <==> gs[0].key !in KeySet(gs[1..]) && DistinctKeys(gs[1..])
  {
    var rest := gs[1..];
    if DistinctKeys(gs) {
      forall p, q | 0 <= p < q < |rest| ensures rest[p].key != rest[q].key {
        assert rest[p] == gs[p + 1] && rest[q] == gs[q + 1];
      }
      forall j | 0 <= j < |rest| ensures rest[j].key != gs[0].key {
        assert rest[j] == gs[j + 1];
      }
    }
    if gs[0].key !in KeySet(rest) && DistinctKeys(rest) {
      forall i, j | 0 <= i < j < |gs| ensures gs[i].key != gs[j].key {
        assert gs[j] == rest[j - 1];
        assert rest[j - 1].key in KeySet(rest);
        if i > 0 { assert gs[i] == rest[i - 1]; }
      }
    }
  }

  /** A key that no row carries has no count and no sum. */
  lemma {:induction false} GroupAbsent<K(!new)>(gs: seq<Group<K>>, k: K)
    requires k !in KeySet(gs)
    ensures GroupCount(gs, k) == 0 && GroupTotal(gs, k) == 0
  {
    if gs != [] {
      KeySetCons(gs);
      GroupAbsent(gs[1..], k);
    }
  }

  /** With distinct keys, the aggregates recorded for a key are those of its single row. */
  lemma {:induction false} GroupAt<K(!new)>(gs: seq<Group<K>>, i: nat)
    requires DistinctKeys(gs) && i < |gs|
    ensures GroupCount(gs, gs[i].key) == gs[i].count
    ensures GroupTotal(gs, gs[i].key) == gs[i].total
  {
    DistinctCons(gs);
    if i == 0 {
      GroupAbsent(gs[1..], gs[0].key);
    } else {
      assert gs[i] == gs[1..][i - 1];
      GroupAt(gs[1..], i - 1);
    }
  }

  /** Distinct keys: there are exactly as many rows as keys. */
  lemma {:induction false} DistinctKeysSize<K(!new)>(gs: seq<Group<K>>)
    requires DistinctKeys(gs)
    ensures |KeySet(gs)| == |gs|
  {
    if gs != [] {
      KeySetCons(gs);
      DistinctCons(gs);
      DistinctKeysSize(gs[1..]);
    }
  }

  // ---------------------------------------------------------------------
  // GROUP BY

  /** Adds one row with key k, COUNT contribution c and SUM contribution a to the groups gs. */
  function Add<K(==,!new)>(gs: seq<Group<K>>, k: K, c: nat, a: int): (r: seq<Group<K>>)
    ensures KeySet(r) == KeySet(gs) + {k}
    ensures DistinctKeys(gs) ==> DistinctKeys(r)
    ensures forall k' :: GroupCount(r, k') == GroupCount(gs, k') + (if k' == k then c else 0)
    ensures forall k' :: GroupTotal(r, k') == GroupTotal(gs, k') + (if k' == k then a else 0)
    ensures SumCounts(r) == SumCounts(gs) + c
    ensures SumTotals(r) == SumTotals(gs) + a
  {
    if gs == [] then
      KeySetCons([Group(k, c, a)]);
      [Group(k, c, a)]
    else if gs[0].key == k then
      var r := [Group(k, gs[0].count + c, gs[0].total + a)] + gs[1..];
      assert r[1..] == gs[1..];
      KeySetCons(r);
      KeySetCons(gs);
      DistinctCons(r);
      DistinctCons(gs);
      r
    else
      var tail := Add(gs[1..], k, c, a);
      var r := [gs[0]] + tail;
      assert r[1..] == tail;
      KeySetCons(r);
      KeySetCons(gs);
      DistinctCons(r);
      DistinctCons(gs);
      r
  }

  /**
    GROUP BY key with COUNT over the rows counted accepts and SUM(amount):
    one group per key that occurs, carrying exactly that key's count and sum.
    The order of the groups is not specified.
  */
  function GroupBy<X, K(==,!new)>(xs: seq<X>, key: X -> K, counted: X -> bool, amount: X -> int): (gs: seq<Group<K>>)
    ensures DistinctKeys(gs)
    ensures KeySet(gs) == KeysOf(xs, key)
    ensures forall k :: GroupCount(gs, k) == CountOf(xs, key, counted, k)
    ensures forall k :: GroupTotal(gs, k) == TotalOf(xs, key, amount, k)
    ensures SumCounts(gs) == CountAll(xs, counted)
    ensures SumTotals(gs) == TotalAll(xs, amount)
  {
    if xs == [] then []
    else
      KeysOfCons(xs, key);
      Add(GroupBy(xs[1..], key, counted, amount), key(xs[0]), if counted(xs[0]) then 1 else 0, amount(xs[0]))
  }

  // ---------------------------------------------------------------------
  // ORDER BY ... DESC

  /** Non-increasing in the measure m; the order of ties is unconstrained. */
  predicate SortedDesc<K>(gs: seq<Group<K>>, m: Measure)
  {
    forall i, j :: 0 <= i < j < |gs| ==> Value(gs[i], m) >= Value(gs[j], m)
  }

  /** Inserts g into the sorted s before the first row with a smaller value of m. */
  function InsertSorted<K(==,!new)>(g: Group<K>, s: seq<Group<K>>, m: Measure): (r: seq<Group<K>>)
    requires SortedDesc(s, m)
    ensures |r| == |s| + 1
    ensures r[0] == g || (s != [] && r[0] == s[0])
    ensures SortedDesc(r, m)
    ensures multiset(r) == multiset(s) + multiset{g}
  {
    if s == [] || Value(g, m) >= Value(s[0], m) then [g] + s
    else
      var tail := InsertSorted(g, s[1..], m);
      assert s == [s[0]] + s[1..];
      [s[0]] + tail
  }

  /** Inserting a group adds its key and nothing else. */
  lemma {:induction false} InsertKeys<K(!new)>(g: Group<K>, s: seq<Group<K>>, m: Measure)
    requires SortedDesc(s, m)
    ensures KeySet(InsertSorted(g, s, m)) == KeySet(s) + {g.key}
    ensures DistinctKeys(s) && g.key !in KeySet(s) ==> DistinctKeys(InsertSorted(g, s, m))
  {
    var r := InsertSorted(g, s, m);
    KeySetCons(r);
    if s == [] || Value(g, m) >= Value(s[0], m) {
      assert r == [g] + s;
      assert r[1..] == s;
      DistinctCons(r);
    } else {
      var tail := InsertSorted(g, s[1..], m);
      assert r == [s[0]] + tail;
      assert r[1..] == tail;
      InsertKeys(g, s[1..], m);
      KeySetCons(s);
      assert KeySet(r) == KeySet(s) + {g.key};
      if DistinctKeys(s) && g.key !in KeySet(s) {
        DistinctCons(s);
        assert DistinctKeys(tail);
        assert s[0].key !in KeySet(tail);
        DistinctCons(r);
      }
    }
  }

  /** Inserting a group adds its aggregates and nothing else. */
  lemma {:induction false} InsertAggregates<K(!new)>(g: Group<K>, s: seq<Group<K>>, m: Measure)
    requires SortedDesc(s, m)
    ensures forall k :: GroupCount(InsertSorted(g, s, m), k) == GroupCount(s, k) + (if g.key == k then g.count else 0)
    ensures forall k :: GroupTotal(InsertSorted(g, s, m), k) == GroupTotal(s, k) + (if g.key == k then g.total else 0)
    ensures SumCounts(InsertSorted(g, s, m)) == SumCounts(s) + g.count
    ensures SumTotals(InsertSorted(g, s, m)) == SumTotals(s) + g.total
  {
    var r := InsertSorted(g, s, m);
    if s == [] || Value(g, m) >= Value(s[0], m) {
      assert r[1..] == s;
    } else {
      InsertAggregates(g, s[1..], m);
      assert r[1..] == InsertSorted(g, s[1..], m);
    }
  }

  /** ORDER BY m DESC over groups: a permutation that is non-increasing in m. */
  function SortDesc<K(==,!new)>(gs: seq<Group<K>>, m: Measure): (r: seq<Group<K>>)
    ensures |r| == |gs|
    ensures SortedDesc(r, m)
    ensures multiset(r) == multiset(gs)
  {
    if gs == [] then []
    else
      assert gs == [gs[0]] + gs[1..];
      InsertSorted(gs[0], SortDesc(gs[1..], m), m)
  }

  /** Sorting keeps every key. */
  lemma {:induction false} SortDescKeys<K(!new)>(gs: seq<Group<K>>, m: Measure)
    ensures KeySet(SortDesc(gs, m)) == KeySet(gs)
  {
    if gs != [] {
      var rest := SortDesc(gs[1..], m);
      assert SortDesc(gs, m) == InsertSorted(gs[0], rest, m);
      SortDescKeys(gs[1..], m);
      KeySetCons(gs);
      InsertKeys(gs[0], rest, m);
    }
  }

  /** Sorting keeps keys distinct. */
  lemma {:induction false} SortDescDistinct<K(!new)>(gs: seq<Group<K>>, m: Measure)
    requires DistinctKeys(gs)
    ensures DistinctKeys(SortDesc(gs, m))
  {
    if gs != [] {
      var rest := SortDesc(gs[1..], m);
      assert SortDesc(gs, m) == InsertSorted(gs[0], rest, m);
      DistinctCons(gs);
      SortDescDistinct(gs[1..], m);
      SortDescKeys(gs[1..], m);
      InsertKeys(gs[0], rest, m);
    }
  }

  /** Sorting keeps every COUNT. */
  lemma {:induction false} SortDescCounts<K(!new)>(gs: seq<Group<K>>, m: Measure)
    ensures forall k :: GroupCount(SortDesc(gs, m), k) == GroupCount(gs, k)
    ensures SumCounts(SortDesc(gs, m)) == SumCounts(gs)
  {
    if gs != [] {
      var rest := SortDesc(gs[1..], m);
      assert SortDesc(gs, m) == InsertSorted(gs[0], rest, m);
      SortDescCounts(gs[1..], m);
      InsertAggregates(gs[0], rest, m);
      assert SumCounts(gs) == gs[0].count + SumCounts(gs[1..]);
      forall k ensures GroupCount(SortDesc(gs, m), k) == GroupCount(gs, k) {
        assert GroupCount(gs, k) == (if gs[0].key == k then gs[0].count else 0) + GroupCount(gs[1..], k);
      }
    }
  }

  /** Sorting keeps every SUM. */
  lemma {:induction false} SortDescTotals<K(!new)>(gs: seq<Group<K>>, m: Measure)
    ensures forall k :: GroupTotal(SortDesc(gs, m), k) == GroupTotal(gs, k)
    ensures SumTotals(SortDesc(gs, m)) == SumTotals(gs)
  {
    if gs != [] {
      var rest := SortDesc(gs[1..], m);
      assert SortDesc(gs, m) == InsertSorted(gs[0], rest, m);
      SortDescTotals(gs[1..], m);
      InsertAggregates(gs[0], rest, m);
    }
  }

  // ---------------------------------------------------------------------
  // GROUP BY ... ORDER BY ... DESC [LIMIT n]

  /** The value of measure m for key k of the relation xs. */
  function Measured<X, K(==,!new)>(xs: seq<X>, key: X -> K, counted: X -> bool, amount: X -> int, m: Measure, k: K): int
  {
    match m
    case ByCount => CountOf(xs, key, counted, k)
    case ByTotal => TotalOf(xs, key, amount, k)
  }

  /**
    SELECT key, COUNT(..), SUM(..) FROM xs GROUP BY key ORDER BY m DESC:
    one row per key occurring in xs, each carrying that key's aggregates,
    in non-increasing order of m.
  */
  function Aggregate<X, K(==,!new)>(xs: seq<X>, key: X -> K, counted: X -> bool, amount: X -> int, m: Measure): (r: seq<Group<K>>)
    ensures SortedDesc(r, m)
    ensures DistinctKeys(r)
    ensures KeySet(r) == KeysOf(xs, key)
    ensures |r| == |KeysOf(xs, key)|
    ensures forall i :: 0 <= i < |r| ==>
      r[i].count == CountOf(xs, key, counted, r[i].key) && r[i].total == TotalOf(xs, key, amount, r[i].key)
    ensures SumCounts(r) == CountAll(xs, counted)
    ensures SumTotals(r) == TotalAll(xs, amount)
  {
    var gs := GroupBy(xs, key, counted, amount);
    var r := SortDesc(gs, m);
    SortDescKeys(gs, m);
    SortDescDistinct(gs, m);
    SortDescCounts(gs, m);
    SortDescTotals(gs, m);
    DistinctKeysSize(r);
    forall i | 0 <= i < |r|
      ensures r[i].count == CountOf(xs, key, counted, r[i].key) && r[i].total == TotalOf(xs, key, amount, r[i].key)
    {
      GroupAt(r, i);
    }
    r
  }

  /** LIMIT n: the first n rows. */
  function Limit<K>(s: seq<Group<K>>, n: nat): (r: seq<Group<K>>)
    ensures |r| == if |s| <= n then |s| else n
    ensures forall i :: 0 <= i < |r| ==> r[i] == s[i]
  {
    if |s| <= n then s else s[..n]
  }

  /** A prefix of sorted groups with distinct keys is sorted, has distinct keys and no other keys. */
  lemma LimitKeys<K(!new)>(all: seq<Group<K>>, n: nat)
    ensures forall m :: SortedDesc(all, m) ==> SortedDesc(Limit(all, n), m)
    ensures DistinctKeys(all) ==> DistinctKeys(Limit(all, n))
    ensures KeySet(Limit(all, n)) <= KeySet(all)
  {
  }

  /** In a sorted sequence, no row after a prefix beats a row of the prefix. */
  lemma PrefixDominates<K(!new)>(all: seq<Group<K>>, r: seq<Group<K>>, m: Measure, j: nat, i: nat)
    requires SortedDesc(all, m) && DistinctKeys(all)
    requires |r| <= |all| && forall p :: 0 <= p < |r| ==> r[p] == all[p]
    requires j < |all| && all[j].key !in KeySet(r) && i < |r|
    ensures Value(all[j], m) <= Value(r[i], m)
  {
    InKeySet(r, j);
  }

  lemma InKeySet<K>(gs: seq<Group<K>>, i: nat)
    ensures i < |gs| ==> gs[i].key in KeySet(gs)
  {
  }

  /**
    ... ORDER BY m DESC LIMIT n: at most n groups of xs, each with its own
    aggregates, in non-increasing order of m, and no group left out has a
    larger value of m than any group returned.
  */
  function Top<X, K(==,!new)>(xs: seq<X>, key: X -> K, counted: X -> bool, amount: X -> int, m: Measure, n: nat): (r: seq<Group<K>>)
    ensures |r| == if |KeysOf(xs, key)| <= n then |KeysOf(xs, key)| else n
    ensures SortedDesc(r, m)
    ensures DistinctKeys(r)
    ensures KeySet(r) <= KeysOf(xs, key)
    ensures forall i :: 0 <= i < |r| ==>
      r[i].count == CountOf(xs, key, counted, r[i].key) && r[i].total == TotalOf(xs, key, amount, r[i].key)
    ensures forall k, i :: k in KeysOf(xs, key) && k !in KeySet(r) && 0 <= i < |r| ==>
      Measured(xs, key, counted, amount, m, k) <= Value(r[i], m)
  {
    var all := Aggregate(xs, key, counted, amount, m);
    var r := Limit(all, n);
    LimitKeys(all, n);
    forall k, i | k in KeysOf(xs, key) && k !in KeySet(r) && 0 <= i < |r|
      ensures Measured(xs, key, counted, amount, m, k) <= Value(r[i], m)
    {
      var j :| 0 <= j < |all| && all[j].key == k;
      PrefixDominates(all, r, m, j, i);
    }
    r
  }

  /**
    ... GROUP BY key ORDER BY COUNT(*) DESC LIMIT 1: no row for no input,
    otherwise one key that occurs, with its count, and no key has more.
  */
  function Best<X, K(==,!new)>(xs: seq<X>, key: X -> K): (r: seq<Group<K>>)
    ensures |r| <= 1
    ensures r == [] <==> xs == []
    ensures r != [] ==> r[0].key in KeysOf(xs, key) && r[0].count == CountOf(xs, key, Always, r[0].key)
    ensures r != [] ==> forall k :: CountOf(xs, key, Always, k) <= r[0].count
  {
    var r := Top(xs, key, Always, NoAmount, ByCount, 1);
    KeysOfSize(xs, key);
    InKeySet(r, 0);
    forall k | r != []
      ensures CountOf(xs, key, Always, k) <= r[0].count
    {
      CountOfPositive(xs, key, k);
    }
    r
  }
}
