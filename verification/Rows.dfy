/** Tables as lists of rows: selection, projection, join, grouping and the sums over them. */
module Rows {
  import opened Options
  import opened Sequences

  function Sum<T(!new)>(s: seq<T>, f: T -> int): int {
    if s == [] then 0 else f(s[0]) + Sum(s[1..], f)
  }

  function One(b: bool): int {
    if b then 1 else 0
  }

  lemma {:induction false} SumEq<T(!new)>(s: seq<T>, f: T -> int, g: T -> int)
    requires forall x :: x in s ==> f(x) == g(x)
    ensures Sum(s, f) == Sum(s, g)
  {
    if s != [] {
      assert s[0] in s;
      assert forall x :: x in s[1..] ==> x in s;
      SumEq(s[1..], f, g);
    }
  }

  lemma {:induction false} SumPlus<T(!new)>(s: seq<T>, f: T -> int, g: T -> int, h: T -> int)
    requires forall x :: x in s ==> h(x) == f(x) + g(x)
    ensures Sum(s, h) == Sum(s, f) + Sum(s, g)
  {
    if s != [] {
      assert s[0] in s;
      assert forall x :: x in s[1..] ==> x in s;
      SumPlus(s[1..], f, g, h);
    }
  }

  lemma {:induction false} SumMonotone<T(!new)>(s: seq<T>, f: T -> int, g: T -> int)
    requires forall x :: x in s ==> f(x) <= g(x)
    ensures Sum(s, f) <= Sum(s, g)
  {
    if s != [] {
      assert s[0] in s;
      assert forall x :: x in s[1..] ==> x in s;
      SumMonotone(s[1..], f, g);
    }
  }

  lemma {:induction false} SumOfZeros<T(!new)>(s: seq<T>, f: T -> int)
    requires forall x :: x in s ==> f(x) == 0
    ensures Sum(s, f) == 0
  {
    if s != [] {
      assert s[0] in s;
      assert forall x :: x in s[1..] ==> x in s;
      SumOfZeros(s[1..], f);
    }
  }

  lemma {:induction false} SumOfNonNegatives<T(!new)>(s: seq<T>, f: T -> int)
    requires forall x :: x in s ==> f(x) >= 0
    ensures Sum(s, f) >= 0
    ensures Sum(s, f) == 0 <==> forall x :: x in s ==> f(x) == 0
  {
    if s != [] {
      assert s[0] in s;
      assert forall x :: x in s[1..] ==> x in s;
      SumOfNonNegatives(s[1..], f);
      assert s == [s[0]] + s[1..];
    }
  }

  /** Exchange of summation. */
  lemma {:induction false} SumSwap<A(!new), B(!new)>(
    xs: seq<A>, ys: seq<B>, f: A -> B -> int, g: B -> A -> int, rows: A -> int, cols: B -> int)
    requires forall x, y :: f(x)(y) == g(y)(x)
    requires forall x :: x in xs ==> rows(x) == Sum(ys, f(x))
    requires forall y :: y in ys ==> cols(y) == Sum(xs, g(y))
    ensures Sum(xs, rows) == Sum(ys, cols)
  {
    if xs == [] {
      SumOfZeros(ys, cols);
    } else {
      assert forall x :: x in xs[1..] ==> x in xs;
      var rest := (y: B) => Sum(xs[1..], g(y));
      SumSwap(xs[1..], ys, f, g, rows, rest);
      SumPlus(ys, f(xs[0]), rest, cols);
    }
  }

  lemma {:induction false} SumAppend<T(!new)>(a: seq<T>, b: seq<T>, f: T -> int)
    ensures Sum(a + b, f) == Sum(a, f) + Sum(b, f)
  {
    if a == [] {
      assert a + b == b;
    } else {
      assert (a + b)[1..] == a[1..] + b;
      SumAppend(a[1..], b, f);
    }
  }

  function Without<T(!new)>(b: seq<T>, i: nat): seq<T>
    requires i < |b|
  {
    b[..i] + b[i + 1..]
  }

  lemma SplitAt<T(!new)>(b: seq<T>, i: nat)
    requires i < |b|
    ensures b == b[..i] + ([b[i]] + b[i + 1..])
  {
  }

  lemma RemoveAt<T(!new)>(b: seq<T>, i: nat)
    requires i < |b|
    ensures multiset(b) == multiset(Without(b, i)) + multiset{b[i]}
  {
    var h, t := b[..i], b[i + 1..];
    SplitAt(b, i);
    assert multiset(h + ([b[i]] + t)) == multiset(h) + multiset{b[i]} + multiset(t);
  }

  lemma SumRemoveAt<T(!new)>(b: seq<T>, i: nat, f: T -> int)
    requires i < |b|
    ensures Sum(b, f) == Sum(Without(b, i), f) + f(b[i])
  {
    var h, t := b[..i], b[i + 1..];
    SplitAt(b, i);
    SumAppend(h, [b[i]] + t, f);
    SumAppend(h, t, f);
    assert ([b[i]] + t)[1..] == t;
  }

  lemma SameRest<T>(whole: multiset<T>, a: multiset<T>, b: multiset<T>, x: T)
    requires whole == a + multiset{x} && whole == b + multiset{x}
    ensures a == b
  {
    assert a == whole - multiset{x} == b;
  }

  /** The order of the rows does not matter. */
  lemma {:induction false} SumPermutes<T(!new)>(a: seq<T>, b: seq<T>, f: T -> int)
    requires multiset(a) == multiset(b)
    ensures Sum(a, f) == Sum(b, f)
    decreases |a|
  {
    if a == [] {
      assert |multiset(b)| == 0;
    } else {
      assert a[0] in multiset(a);
      assert a[0] in multiset(b);
      var i :| 0 <= i < |b| && b[i] == a[0];
      RemoveAt(b, i);
      SumRemoveAt(b, i, f);
      RemoveAt(a, 0);
      SumRemoveAt(a, 0, f);
      SameRest(multiset(a), multiset(Without(a, 0)), multiset(Without(b, i)), a[0]);
      SumPermutes(Without(a, 0), Without(b, i), f);
    }
  }

  /** If exactly one row counts, the sum is its figure. */
  lemma {:induction false} SumOfOnly<T(!new)>(s: seq<T>, k: nat, f: T -> int)
    requires k < |s| && forall i :: 0 <= i < |s| && i != k ==> f(s[i]) == 0
    ensures Sum(s, f) == f(s[k])
  {
    if k == 0 {
      assert forall x :: x in s[1..] ==> exists i :: 0 < i < |s| && s[i] == x;
      SumOfZeros(s[1..], f);
    } else {
      SumOfOnly(s[1..], k - 1, f);
    }
  }

  lemma SumOfTwoOrMore<T(!new)>(s: seq<T>, i: nat, k: nat, f: T -> int)
    requires i < k < |s| && forall x :: f(x) >= 0
    ensures Sum(s, f) >= f(s[i]) + f(s[k])
  {
    SumRemoveAt(s, k, f);
    SumRemoveAt(Without(s, k), i, f);
    SumOfNonNegatives(Without(Without(s, k), i), f);
  }

  // ---- relational operations ----

  function Where<T(!new)>(s: seq<T>, p: T -> bool): seq<T> {
    if s == [] then [] else (if p(s[0]) then [s[0]] else []) + Where(s[1..], p)
  }

  function Select<T(!new), U>(s: seq<T>, f: T -> U): seq<U> {
    if s == [] then [] else [f(s[0])] + Select(s[1..], f)
  }

  /** Every pair of rows that satisfies the join condition, once per pair. */
  function Join<A(!new), B(!new)>(xs: seq<A>, ys: seq<B>, on: (A, B) -> bool): seq<(A, B)> {
    if xs == [] then []
    else Select(Where(ys, y => on(xs[0], y)), y => (xs[0], y)) + Join(xs[1..], ys, on)
  }

  /** Selecting first and adding up then is adding up what is selected. */
  lemma {:induction false} SumWhere<T(!new)>(s: seq<T>, p: T -> bool, f: T -> int, g: T -> int)
    requires forall x :: x in s ==> g(x) == if p(x) then f(x) else 0
    ensures Sum(Where(s, p), f) == Sum(s, g)
  {
    if s != [] {
      assert s[0] in s;
      assert forall x :: x in s[1..] ==> x in s;
      SumWhere(s[1..], p, f, g);
      SumAppend(if p(s[0]) then [s[0]] else [], Where(s[1..], p), f);
    }
  }

  lemma {:induction false} WhereMembers<T(!new)>(s: seq<T>, p: T -> bool)
    ensures forall x :: x in Where(s, p) <==> x in s && p(x)
  {
    if s != [] {
      WhereMembers(s[1..], p);
      assert s == [s[0]] + s[1..];
    }
  }

  lemma {:induction false} SumSelect<T(!new), U(!new)>(s: seq<T>, m: T -> U, f: U -> int, g: T -> int)
    requires forall x :: x in s ==> g(x) == f(m(x))
    ensures Sum(Select(s, m), f) == Sum(s, g)
  {
    if s != [] {
      assert s[0] in s;
      assert forall x :: x in s[1..] ==> x in s;
      SumSelect(s[1..], m, f, g);
      assert Select(s, m)[1..] == Select(s[1..], m);
    }
  }

  lemma {:induction false} SelectMembers<T(!new), U(!new)>(s: seq<T>, m: T -> U)
    ensures |Select(s, m)| == |s|
    ensures forall i :: 0 <= i < |s| ==> Select(s, m)[i] == m(s[i])
    ensures forall u :: u in Select(s, m) <==> exists x :: x in s && m(x) == u
  {
    if s != [] {
      SelectMembers(s[1..], m);
      forall i | 0 <= i < |s|
        ensures Select(s, m)[i] == m(s[i])
      {
        if i > 0 {
          assert s[i] == s[1..][i - 1];
        }
      }
      forall u
        ensures u in Select(s, m) <==> exists x :: x in s && m(x) == u
      {
        if u in Select(s, m) {
          var i :| 0 <= i < |s| && Select(s, m)[i] == u;
          assert s[i] in s;
        }
        if x :| x in s && m(x) == u {
          var i :| 0 <= i < |s| && s[i] == x;
          assert Select(s, m)[i] == u;
        }
      }
    }
  }

  /** A sum over a join is a sum over one table of sums over the other. */
  lemma {:induction false} SumJoin<A(!new), B(!new)>(
    xs: seq<A>, ys: seq<B>, on: (A, B) -> bool, f: ((A, B)) -> int, cell: A -> B -> int, rows: A -> int)
    requires forall x, y :: cell(x)(y) == if on(x, y) then f((x, y)) else 0
    requires forall x :: x in xs ==> rows(x) == Sum(ys, cell(x))
    ensures Sum(Join(xs, ys, on), f) == Sum(xs, rows)
  {
    if xs != [] {
      var x := xs[0];
      assert x in xs;
      assert forall z :: z in xs[1..] ==> z in xs;
      SumJoin(xs[1..], ys, on, f, cell, rows);
      var matched := Where(ys, y => on(x, y));
      SumAppend(Select(matched, y => (x, y)), Join(xs[1..], ys, on), f);
      SumSelect(matched, (y: B) => (x, y), f, y => f((x, y)));
      SumWhere(ys, y => on(x, y), y => f((x, y)), cell(x));
    }
  }

  /** Every row of the left table, with each matching row of the right one, or with null if there is none. */
  function LeftJoin<A(!new), B(!new)>(xs: seq<A>, ys: seq<B>, on: (A, B) -> bool): seq<(A, Option<B>)> {
    if xs == [] then []
    else
      var matched := Where(ys, y => on(xs[0], y));
      (if matched == [] then [(xs[0], None)] else Select(matched, y => (xs[0], Some(y)))) + LeftJoin(xs[1..], ys, on)
  }

  lemma {:induction false} SumLeftJoin<A(!new), B(!new)>(
    xs: seq<A>, ys: seq<B>, on: (A, B) -> bool, f: ((A, Option<B>)) -> int, cell: A -> B -> int, rows: A -> int)
    requires forall x, y :: cell(x)(y) == if on(x, y) then f((x, Some(y))) else 0
    requires forall x :: x in xs && (exists y :: y in ys && on(x, y)) ==> rows(x) == Sum(ys, cell(x))
    requires forall x :: x in xs && !(exists y :: y in ys && on(x, y)) ==> rows(x) == f((x, None))
    ensures Sum(LeftJoin(xs, ys, on), f) == Sum(xs, rows)
  {
    if xs != [] {
      var x := xs[0];
      assert x in xs;
      assert forall z :: z in xs[1..] ==> z in xs;
      SumLeftJoin(xs[1..], ys, on, f, cell, rows);
      var matched := Where(ys, y => on(x, y));
      WhereMembers(ys, y => on(x, y));
      var head := if matched == [] then [(x, None)] else Select(matched, y => (x, Some(y)));
      SumAppend(head, LeftJoin(xs[1..], ys, on), f);
      if matched == [] {
        SumOfOnly(head, 0, f);
      } else {
        assert matched[0] in matched;
        SumSelect(matched, (y: B) => (x, Some(y)), f, y => f((x, Some(y))));
        SumWhere(ys, y => on(x, y), y => f((x, Some(y))), cell(x));
      }
    }
  }

  lemma {:induction false} LeftJoinMembers<A(!new), B(!new)>(xs: seq<A>, ys: seq<B>, on: (A, B) -> bool)
    ensures forall p :: p in LeftJoin(xs, ys, on) && p.1.Some? ==> p.1.value in ys && on(p.0, p.1.value)
  {
    if xs != [] {
      var matched := Where(ys, y => on(xs[0], y));
      WhereMembers(ys, y => on(xs[0], y));
      SelectMembers(matched, y => (xs[0], Some(y)));
      LeftJoinMembers(xs[1..], ys, on);
    }
  }

  /** Counting the selected rows is adding one for each. */
  lemma {:induction false} CountIsSum<T(!new)>(s: seq<T>, p: T -> bool, f: T -> int)
    requires forall x :: f(x) == One(p(x))
    ensures |Where(s, p)| == Sum(s, f)
  {
    if s != [] {
      CountIsSum(s[1..], p, f);
    }
  }

  lemma {:induction false} WhereAll<T(!new)>(s: seq<T>, p: T -> bool)
    requires forall x :: x in s ==> p(x)
    ensures Where(s, p) == s
  {
    if s != [] {
      assert s[0] in s;
      assert forall x :: x in s[1..] ==> x in s;
      WhereAll(s[1..], p);
    }
  }

  lemma {:induction false} WhereTwice<T(!new)>(s: seq<T>, p: T -> bool, q: T -> bool, both: T -> bool)
    requires forall x :: x in s ==> both(x) == (p(x) && q(x))
    ensures Where(Where(s, p), q) == Where(s, both)
  {
    if s != [] {
      assert s[0] in s;
      assert forall x :: x in s[1..] ==> x in s;
      WhereTwice(s[1..], p, q, both);
      if p(s[0]) {
        assert Where(s, p)[1..] == Where(s[1..], p);
      } else {
        assert Where(s, p) == Where(s[1..], p);
      }
    }
  }

  lemma {:induction false} SameSelection<T(!new)>(s: seq<T>, p: T -> bool, q: T -> bool)
    requires forall x :: x in s ==> p(x) == q(x)
    ensures Where(s, p) == Where(s, q)
  {
    if s != [] {
      assert s[0] in s;
      assert forall x :: x in s[1..] ==> x in s;
      SameSelection(s[1..], p, q);
    }
  }

  lemma {:induction false} WhereCounts<T(!new)>(s: seq<T>, p: T -> bool, x: T)
    ensures multiset(Where(s, p))[x] == if p(x) then multiset(s)[x] else 0
  {
    if s != [] {
      WhereCounts(s[1..], p, x);
      assert s == [s[0]] + s[1..];
    }
  }

  lemma WherePermutes<T(!new)>(a: seq<T>, b: seq<T>, p: T -> bool)
    requires multiset(a) == multiset(b)
    ensures multiset(Where(a, p)) == multiset(Where(b, p))
  {
    forall x
      ensures multiset(Where(a, p))[x] == multiset(Where(b, p))[x]
    {
      WhereCounts(a, p, x);
      WhereCounts(b, p, x);
    }
  }

  /** Selecting rows before or after a projection is the same. */
  lemma {:induction false} SelectWhere<T(!new), U(!new)>(
    s: seq<T>, p: T -> bool, q: U -> bool, f: T -> U, g: T -> U)
    requires forall x :: x in s ==> q(f(x)) == p(x) && (p(x) ==> g(x) == f(x))
    ensures Select(Where(s, p), g) == Where(Select(s, f), q)
  {
    if s != [] {
      assert s[0] in s;
      assert forall x :: x in s[1..] ==> x in s;
      SelectWhere(s[1..], p, q, f, g);
      assert Select(s, f)[1..] == Select(s[1..], f);
      if p(s[0]) {
        assert Where(s, p)[1..] == Where(s[1..], p);
      } else {
        assert Where(s, p) == Where(s[1..], p);
      }
    }
  }

  lemma {:induction false} DistinctCounts<T>(s: seq<T>)
    requires Distinct(s)
    ensures forall x :: multiset(s)[x] <= 1
  {
    if s != [] {
      DistinctCounts(s[1..]);
      assert s == [s[0]] + s[1..];
      assert s[0] !in s[1..];
    }
  }

  lemma {:induction false} CountsDistinct<T>(s: seq<T>)
    requires forall x :: multiset(s)[x] <= 1
    ensures Distinct(s)
  {
    if s != [] {
      assert s == [s[0]] + s[1..];
      forall x
        ensures multiset(s[1..])[x] <= 1
      {
        assert multiset(s)[x] == multiset([s[0]])[x] + multiset(s[1..])[x];
      }
      CountsDistinct(s[1..]);
      var x := s[0];
      assert multiset(s)[x] == 1 + multiset(s[1..])[x];
      assert x !in multiset(s[1..]);
      assert forall i :: 0 < i < |s| ==> s[i] == s[1..][i - 1] && s[i] in multiset(s[1..]);
    }
  }

  lemma {:induction false} WhereKeepsDistinct<T(!new)>(s: seq<T>, p: T -> bool)
    requires Distinct(s)
    ensures Distinct(Where(s, p))
  {
    if s != [] {
      WhereKeepsDistinct(s[1..], p);
      WhereMembers(s[1..], p);
    }
  }

  lemma {:induction false} SizeIsSum<T(!new)>(s: seq<T>, f: T -> int)
    requires forall x :: f(x) == 1
    ensures |s| == Sum(s, f)
  {
    if s != [] {
      SizeIsSum(s[1..], f);
    }
  }

  lemma {:induction false} WhereKeepsAll<T(!new)>(s: seq<T>, p: T -> bool)
    ensures |Where(s, p)| <= |s|
    ensures |Where(s, p)| == |s| <==> forall x :: x in s ==> p(x)
  {
    if s != [] {
      WhereKeepsAll(s[1..], p);
      assert s == [s[0]] + s[1..];
    }
  }

  // ---- grouping ----

  ghost function SumOver<K(!new)>(keys: set<K>, f: K -> int): int {
    if keys == {} then 0
    else var k :| k in keys; f(k) + SumOver(keys - {k}, f)
  }

  /** The groups with keys among `keys` add up to the rows with such keys. */
  lemma {:induction false} GroupsAddUp<T(!new), K(!new)>(
    s: seq<T>, key: T -> K, keys: set<K>, f: T -> int, part: K -> T -> int, group: K -> int, total: T -> int)
    requires forall k, x :: part(k)(x) == if key(x) == k then f(x) else 0
    requires forall k :: k in keys ==> group(k) == Sum(s, part(k))
    requires forall x :: x in s ==> total(x) == if key(x) in keys then f(x) else 0
    ensures SumOver(keys, group) == Sum(s, total)
    decreases |keys|
  {
    if keys == {} {
      SumOfZeros(s, total);
    } else {
      var k :| k in keys && SumOver(keys, group) == group(k) + SumOver(keys - {k}, group);
      var rest := x => if key(x) in keys - {k} then f(x) else 0;
      GroupsAddUp(s, key, keys - {k}, f, part, group, rest);
      SumPlus(s, part(k), rest, total);
    }
  }

  lemma {:induction false} SumOverAtLeast<K(!new)>(keys: set<K>, f: K -> int, least: nat)
    requires forall k :: k in keys ==> f(k) >= least
    ensures SumOver(keys, f) >= least * |keys|
  {
    if keys != {} {
      var k :| k in keys && SumOver(keys, f) == f(k) + SumOver(keys - {k}, f);
      SumOverAtLeast(keys - {k}, f, least);
      assert least * |keys| == least * (|keys - {k}| + 1);
    }
  }

  // ---- one row more ----

  lemma WhereOneMore<T(!new)>(x: T, s: seq<T>, p: T -> bool)
    ensures Where([x] + s, p) == if p(x) then [x] + Where(s, p) else Where(s, p)
  {
    assert ([x] + s)[1..] == s && [] + Where(s, p) == Where(s, p);
  }

  lemma SelectOneMore<T(!new), U>(x: T, s: seq<T>, f: T -> U)
    ensures Select([x] + s, f) == [f(x)] + Select(s, f)
  {
    assert ([x] + s)[1..] == s;
  }

  lemma SumOneMore<T(!new)>(x: T, s: seq<T>, f: T -> int)
    ensures Sum([x] + s, f) == f(x) + Sum(s, f)
  {
    assert ([x] + s)[1..] == s;
  }
}
