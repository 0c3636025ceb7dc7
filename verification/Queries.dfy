/** ORDER BY ... LIMIT. SQL leaves the order of ties open, so a query result is a relation. */
module Queries {
  import opened Common
  import opened Records

  type Order<!T> = (T, T) -> bool

  ghost predicate TotalPreorder<T(!new)>(before: Order<T>) {
    && (forall a, b :: before(a, b) || before(b, a))
    && (forall a, b, c :: before(a, b) && before(b, c) ==> before(a, c))
  }

  ghost predicate Sorted<T>(s: seq<T>, before: Order<T>) {
    forall i, j :: 0 <= i < j < |s| ==> before(s[i], s[j])
  }

  /** `res` lists, in order and without repetition, `limit` least elements of `all` (or all of them). */
  ghost predicate Limited<T(!new)>(res: seq<T>, all: set<T>, before: Order<T>, limit: nat) {
    && Distinct(res)
    && Sorted(res, before)
    && Elems(res) <= all
    && |res| == (if |all| <= limit then |all| else limit)
    && (forall r, s :: r in all && r !in res && s in res ==> before(s, r))
  }

  predicate NewestFirst(a: Row, b: Row) { a.createdAt >= b.createdAt }

  /** retry_after ASC with NULL first, then created_at ASC. */
  predicate DueFirst(a: Row, b: Row) {
    match (a.retryAfter, b.retryAfter)
    case (None, Some(_)) => true
    case (Some(_), None) => false
    case (None, None) => a.createdAt <= b.createdAt
    case (Some(x), Some(y)) => x < y || (x == y && a.createdAt <= b.createdAt)
  }

  function Matching<T(!new)>(rows: seq<T>, where: T -> bool): set<T> {
    set r | r in rows && where(r)
  }

  /** An unlimited query returns every matching row. */
  lemma UnlimitedIsAll<T(!new)>(res: seq<T>, all: set<T>, before: Order<T>, limit: nat)
    requires Limited(res, all, before, limit) && |all| <= limit
    ensures Elems(res) == all
  {
    DistinctCount(res);
    SubsetCount(Elems(res), all);
  }

  lemma MatchingBound<T(!new)>(rows: seq<T>, where: T -> bool)
    ensures |Matching(rows, where)| <= |rows|
  {
    ElemsCount(rows);
    SubsetCount(Matching(rows, where), Elems(rows));
  }

  lemma InsertAt<T(!new)>(s: seq<T>, i: nat, x: T, before: Order<T>)
    requires TotalPreorder(before) && Sorted(s, before) && Distinct(s) && x !in s && i <= |s|
    requires forall j :: 0 <= j < i ==> before(s[j], x)
    requires i < |s| ==> !before(s[i], x)
    ensures var t := s[..i] + [x] + s[i..]; Sorted(t, before) && Distinct(t) && Elems(t) == Elems(s) + {x}
  {
    var t := s[..i] + [x] + s[i..];
    forall j | i <= j < |s| ensures before(x, s[j]) {
      assert before(x, s[i]);
      assert before(s[i], s[j]);
    }
    forall j | 0 <= j < |t| ensures t[j] == if j < i then s[j] else if j == i then x else s[j - 1] {
    }
    InsertElems(s, i, x);
  }

  lemma InsertElems<T>(s: seq<T>, i: nat, x: T)
    requires i <= |s|
    ensures Elems(s[..i] + [x] + s[i..]) == Elems(s) + {x}
  {
    assert s == s[..i] + s[i..];
    assert Elems(s[..i] + [x] + s[i..]) == Elems(s[..i]) + {x} + Elems(s[i..]);
    assert Elems(s) == Elems(s[..i]) + Elems(s[i..]);
  }

  method InsertSorted<T(==,!new)>(s: seq<T>, x: T, before: Order<T>) returns (t: seq<T>)
    requires TotalPreorder(before) && Sorted(s, before) && Distinct(s) && x !in s
    ensures Sorted(t, before) && Distinct(t)
    ensures Elems(t) == Elems(s) + {x}
  {
    var i := 0;
    while i < |s| && before(s[i], x)
      invariant 0 <= i <= |s|
      invariant forall j :: 0 <= j < i ==> before(s[j], x)
    {
      i := i + 1;
    }
    t := s[..i] + [x] + s[i..];
    InsertAt(s, i, x, before);
  }

  method Select<T(==,!new)>(rows: seq<T>, where: T -> bool, before: Order<T>, limit: nat) returns (res: seq<T>)
    requires TotalPreorder(before)
    requires Distinct(rows)
    ensures Limited(res, Matching(rows, where), before, limit)
  {
    var acc: seq<T> := [];
    for n := 0 to |rows|
      invariant Sorted(acc, before) && Distinct(acc)
      invariant Elems(acc) == Matching(rows[..n], where)
    {
      assert rows[..n + 1] == rows[..n] + [rows[n]];
      assert rows[n] !in Elems(acc);
      if where(rows[n]) {
        acc := InsertSorted(acc, rows[n], before);
      }
    }
    assert rows[..|rows|] == rows;
    FirstOfSorted(acc, before, limit);
    res := if |acc| <= limit then acc else acc[..limit];
  }

  /** The first `limit` elements of a sorted listing of a set are a legal answer. */
  lemma FirstOfSorted<T(!new)>(s: seq<T>, before: Order<T>, limit: nat)
    requires Sorted(s, before) && Distinct(s)
    ensures Limited(if |s| <= limit then s else s[..limit], Elems(s), before, limit)
  {
    var res := if |s| <= limit then s else s[..limit];
    DistinctCount(s);
    forall x, y | x in Elems(s) && x !in res && y in res ensures before(y, x) {
      assert y in s[..|res|];
      assert x in s[|res|..];
    }
    assert forall y :: y in res ==> y in Elems(s);
  }

  lemma InsertPosition<T>(s: seq<T>, x: T, before: Order<T>) returns (i: nat)
    ensures i <= |s| && forall j :: 0 <= j < i ==> before(s[j], x)
    ensures i < |s| ==> !before(s[i], x)
  {
    i := 0;
    while i < |s| && before(s[i], x)
      invariant i <= |s| && forall j :: 0 <= j < i ==> before(s[j], x)
    {
      i := i + 1;
    }
  }

  /** Every set can be listed in order. */
  lemma SortedListing<T(!new)>(all: set<T>, before: Order<T>) returns (s: seq<T>)
    requires TotalPreorder(before)
    ensures Sorted(s, before) && Distinct(s) && Elems(s) == all
  {
    var todo := all;
    s := [];
    while todo != {}
      invariant Sorted(s, before) && Distinct(s)
      invariant todo <= all && Elems(s) == all - todo
      decreases |todo|
    {
      var x :| x in todo;
      assert x !in Elems(s);
      var i := InsertPosition(s, x, before);
      InsertAt(s, i, x, before);
      s := s[..i] + [x] + s[i..];
      todo := todo - {x};
    }
  }

  /** An answer for a set that comes before everything else, and is large enough, is an answer for the whole. */
  lemma LimitedByInitial<T(!new)>(res: seq<T>, low: set<T>, all: set<T>, before: Order<T>, limit: nat)
    requires Limited(res, low, before, limit) && low <= all && |low| >= limit
    requires forall r, s :: r in all && r !in low && s in low ==> before(s, r)
    ensures Limited(res, all, before, limit)
  {
    SubsetCount(low, all);
    assert forall s :: s in res ==> s in Elems(res);
  }

  /** A query always has an answer. */
  lemma LimitedExists<T(!new)>(all: set<T>, before: Order<T>, limit: nat) returns (res: seq<T>)
    requires TotalPreorder(before)
    ensures Limited(res, all, before, limit)
  {
    var s := SortedListing(all, before);
    FirstOfSorted(s, before, limit);
    res := if |s| <= limit then s else s[..limit];
  }

  /** One pair of `a LEFT JOIN b ON on(a, b)`. */
  ghost predicate LeftJoined<A(!new), B(!new)>(a: seq<A>, b: seq<B>, on: (A, B) -> bool, p: (A, Option<B>)) {
    && p.0 in a
    && match p.1
       case Some(y) => y in b && on(p.0, y)
       case None => forall y :: y in b ==> !on(p.0, y)
  }

  /** The rows `x` contributes: one per match, or one with nothing on the right. */
  function JoinRow<A, B>(x: A, b: seq<B>, on: (A, B) -> bool): seq<(A, Option<B>)> {
    if MatchesOf(x, b, on) == [] then [(x, None)] else MatchesOf(x, b, on)
  }

  function MatchesOf<A, B>(x: A, b: seq<B>, on: (A, B) -> bool): seq<(A, Option<B>)> {
    if b == [] then []
    else
      var n := |b| - 1;
      if on(x, b[n]) then MatchesOf(x, b[..n], on) + [(x, Some(b[n]))] else MatchesOf(x, b[..n], on)
  }

  function LeftJoinOf<A, B>(a: seq<A>, b: seq<B>, on: (A, B) -> bool): seq<(A, Option<B>)> {
    if a == [] then [] else LeftJoinOf(a[..|a| - 1], b, on) + JoinRow(a[|a| - 1], b, on)
  }

  /** Every row of `a` once per match in `b`, in order, and rows without a match once. */
  method LeftJoin<A, B>(a: seq<A>, b: seq<B>, on: (A, B) -> bool) returns (joined: seq<(A, Option<B>)>)
    ensures joined == LeftJoinOf(a, b, on)
  {
    joined := [];
    for i := 0 to |a|
      invariant joined == LeftJoinOf(a[..i], b, on)
    {
      var matches: seq<(A, Option<B>)> := [];
      for j := 0 to |b|
        invariant matches == MatchesOf(a[i], b[..j], on)
      {
        assert b[..j + 1][..j] == b[..j];
        if on(a[i], b[j]) {
          matches := matches + [(a[i], Some(b[j]))];
        }
      }
      assert b[..|b|] == b && a[..i + 1][..i] == a[..i];
      if |matches| == 0 {
        matches := [(a[i], None)];
      }
      joined := joined + matches;
    }
    assert a[..|a|] == a;
  }

  lemma {:induction false} MatchesMembers<A(!new), B(!new)>(x: A, b: seq<B>, on: (A, B) -> bool)
    ensures forall p :: p in MatchesOf(x, b, on) <==> p.0 == x && p.1.Some? && p.1.value in b && on(x, p.1.value)
  {
    if b != [] {
      var n := |b| - 1;
      MatchesMembers(x, b[..n], on);
      assert b == b[..n] + [b[n]];
    }
  }

  lemma {:induction false} LeftJoinMembers<A(!new), B(!new)>(a: seq<A>, b: seq<B>, on: (A, B) -> bool)
    ensures forall p :: p in LeftJoinOf(a, b, on) <==> LeftJoined(a, b, on, p)
  {
    if a != [] {
      var n := |a| - 1;
      LeftJoinMembers(a[..n], b, on);
      MatchesMembers(a[n], b, on);
      assert a == a[..n] + [a[n]];
      var m := MatchesOf(a[n], b, on);
      assert m == [] || m[0] in m;
      assert forall y :: y in b && on(a[n], y) ==> (a[n], Some(y)) in m;
    }
  }

  /** SELECT DISTINCT: each value once, in order of first occurrence. */
  method Deduplicate<T(==)>(s: seq<T>) returns (d: seq<T>)
    ensures Distinct(d)
    ensures Elems(d) == Elems(s)
  {
    d := [];
    for i := 0 to |s|
      invariant Distinct(d)
      invariant Elems(d) == Elems(s[..i])
    {
      assert s[..i + 1] == s[..i] + [s[i]];
      assert Elems(s[..i + 1]) == Elems(s[..i]) + {s[i]};
      if s[i] !in d {
        ghost var shorter := d;
        d := d + [s[i]];
        assert Elems(d) == Elems(shorter) + {s[i]};
      }
    }
    assert s[..|s|] == s;
  }
}
