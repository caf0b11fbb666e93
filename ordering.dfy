/**
 * Ordering of the candidate names before they are joined:
 * `OrderBy(item => item)` over the enumeration of a hash set, and the
 * ascending list of a set of names that it must agree with whatever the
 * enumeration order was.
 */
module Ordering {
  import opened Text

  /** Every element is ordinally less than every later one (so there are no duplicates). */
  predicate StrictlyAscending(xs: seq<string>) {
    forall i, j | 0 <= i < j < |xs| :: Less(xs[i], xs[j])
  }

  /** No element occurs twice. */
  predicate Distinct(xs: seq<string>) {
    forall i, j | 0 <= i < j < |xs| :: xs[i] != xs[j]
  }

  /** Places `x` before the first element of `xs` that is not ordinally less than it. */
  function Insert(x: string, xs: seq<string>): (r: seq<string>)
    ensures multiset(r) == multiset(xs) + multiset{x}
  {
    if xs == [] then [x]
    else if Less(xs[0], x) then
      assert xs == [xs[0]] + xs[1..];
      [xs[0]] + Insert(x, xs[1..])
    else [x] + xs
  }

  /** `OrderBy(item => item)`: the same elements, rearranged in ascending order. */
  function OrderByOrdinal(xs: seq<string>): (r: seq<string>)
    ensures multiset(r) == multiset(xs)
  {
    if xs == [] then []
    else
      assert xs == [xs[0]] + xs[1..];
      Insert(xs[0], OrderByOrdinal(xs[1..]))
  }

  lemma {:induction false} InsertKeepsAscending(x: string, xs: seq<string>)
    requires StrictlyAscending(xs) && x !in xs
    ensures StrictlyAscending(Insert(x, xs))
  {
    var r := Insert(x, xs);
    if xs == [] {
    } else if Less(xs[0], x) {
      var rest := Insert(x, xs[1..]);
      InsertKeepsAscending(x, xs[1..]);
      forall j | 0 < j < |r| ensures Less(r[0], r[j]) {
        assert r[j] == rest[j - 1];
        assert r[j] in multiset(rest);
        if r[j] != x {
          assert r[j] in xs[1..];
          var k :| 1 <= k < |xs| && xs[k] == r[j];
        }
      }
    } else {
      LessTotal(x, xs[0]);
      forall j | 0 < j < |r| ensures Less(r[0], r[j]) {
        if j > 1 {
          LessTransitive(x, xs[0], xs[j - 1]);
        }
      }
    }
  }

  /** Sorting distinct names gives a strictly ascending list. */
  lemma {:induction false} OrderByDistinctIsAscending(xs: seq<string>)
    requires Distinct(xs)
    ensures StrictlyAscending(OrderByOrdinal(xs))
  {
    if xs != [] {
      OrderByDistinctIsAscending(xs[1..]);
      assert xs[0] !in xs[1..] by {
        forall k | 1 <= k < |xs| ensures xs[k] != xs[0] { }
      }
      assert xs[0] !in multiset(OrderByOrdinal(xs[1..]));
      InsertKeepsAscending(xs[0], OrderByOrdinal(xs[1..]));
    }
  }

  /** A nonempty set of names has an ordinally least element. */
  lemma {:induction false} LeastExists(s: set<string>)
    requires s != {}
    ensures exists m :: m in s && forall y | y in s :: y == m || Less(m, y)
    decreases |s|
  {
    var x :| x in s;
    if s != {x} {
      var others := s - {x};
      LeastExists(others);
      var m :| m in others && forall y | y in others :: y == m || Less(m, y);
      LessTotal(x, m);
      if Less(x, m) {
        forall y | y in s ensures y == x || Less(x, y) {
          if y != x && y != m {
            LessTransitive(x, m, y);
          }
        }
      } else {
        assert forall y | y in s :: y == m || Less(m, y);
      }
    }
  }

  /** The names of `s` in strictly ascending ordinal order. */
  ghost function AscendingList(s: set<string>): (r: seq<string>)
    ensures StrictlyAscending(r)
    ensures forall x :: x in r <==> x in s
    ensures |r| == |s|
    decreases |s|
  {
    if s == {} then []
    else
      LeastExists(s);
      var m :| m in s && forall y | y in s :: y == m || Less(m, y);
      var rest := AscendingList(s - {m});
      assert forall k | 0 <= k < |rest| :: Less(m, rest[k]) by {
        forall k | 0 <= k < |rest| ensures Less(m, rest[k]) {
          assert rest[k] in s - {m};
        }
      }
      [m] + rest
  }

  lemma EmptyIffNoMember(s: seq<string>)
    ensures s == [] <==> forall x :: x !in s
  {
    if s != [] {
      assert s[0] in s;
    }
  }

  /** Two strictly ascending lists with the same elements are the same list. */
  lemma {:induction false} AscendingListsAreUnique(a: seq<string>, b: seq<string>)
    requires StrictlyAscending(a) && StrictlyAscending(b)
    requires forall x :: x in a <==> x in b
    ensures a == b
  {
    if a != [] && b != [] {
      if a[0] != b[0] {
        assert a[0] in b && b[0] in a;
        var i :| 0 <= i < |b| && b[i] == a[0];
        var j :| 0 <= j < |a| && a[j] == b[0];
        assert i > 0 && j > 0;
        LessAsymmetric(a[0], b[0]);
        assert false;
      }
      forall x ensures x in a[1..] <==> x in b[1..] {
        if x in a[1..] {
          var k :| 1 <= k < |a| && a[k] == x;
          LessIrreflexive(a[0]);
          assert x != a[0];
          assert x in b;
        }
        if x in b[1..] {
          var k :| 1 <= k < |b| && b[k] == x;
          LessIrreflexive(b[0]);
          assert x != b[0];
          assert x in a;
        }
      }
      AscendingListsAreUnique(a[1..], b[1..]);
      assert a == [a[0]] + a[1..] && b == [b[0]] + b[1..];
    } else {
      EmptyIffNoMember(a);
      EmptyIffNoMember(b);
    }
  }

  /** Sorting the enumeration of a set gives its ascending list, whatever the
      order of the enumeration. */
  lemma OrderByIsAscendingList(xs: seq<string>)
    requires Distinct(xs)
    ensures OrderByOrdinal(xs) == AscendingList(set x | x in xs)
  {
    var r := OrderByOrdinal(xs);
    OrderByDistinctIsAscending(xs);
    forall x ensures x in r <==> x in AscendingList(set y | y in xs) {
      assert x in r <==> x in multiset(r);
      assert x in xs <==> x in multiset(xs);
    }
    AscendingListsAreUnique(r, AscendingList(set y | y in xs));
  }
}
