/** `Array.prototype.sort` by a falling number, which is stable, and the sorted list of a set of names. */
module Sorting {

  // ---- By falling weight ----

  /** Insertion behind everything that is not lighter. */
  function Insert<T>(sorted: seq<T>, x: T, weight: T -> int): seq<T> {
    var n := |sorted| - 1;
    if sorted == [] || weight(sorted[n]) >= weight(x) then sorted + [x]
    else Insert(sorted[..n], x, weight) + [sorted[n]]
  }

  function SortedBy<T>(xs: seq<T>, weight: T -> int): seq<T> {
    if xs == [] then [] else Insert(SortedBy(xs[..|xs| - 1], weight), xs[|xs| - 1], weight)
  }

  predicate Falling<T>(xs: seq<T>, weight: T -> int) {
    forall i, j :: 0 <= i < j < |xs| ==> weight(xs[i]) >= weight(xs[j])
  }

  /** The elements of one weight, in order. */
  function OfWeight<T>(xs: seq<T>, weight: T -> int, w: int): seq<T> {
    if xs == [] then []
    else
      var last := xs[|xs| - 1];
      OfWeight(xs[..|xs| - 1], weight, w) + if weight(last) == w then [last] else []
  }

  lemma FallingAppend<T>(xs: seq<T>, x: T, weight: T -> int)
    requires Falling(xs, weight) && forall y :: y in xs ==> weight(y) >= weight(x)
    ensures Falling(xs + [x], weight)
  {
    var r := xs + [x];
    forall i, j | 0 <= i < j < |r| ensures weight(r[i]) >= weight(r[j]) {
      assert r[i] == xs[i] && xs[i] in xs;
    }
  }

  lemma FallingPrefix<T>(xs: seq<T>, n: nat, weight: T -> int)
    requires Falling(xs, weight) && n <= |xs|
    ensures Falling(xs[..n], weight)
    ensures n < |xs| ==> forall x :: x in xs[..n] ==> weight(x) >= weight(xs[n])
  {
  }

  lemma {:induction false} InsertMembers<T>(sorted: seq<T>, x: T, weight: T -> int)
    ensures multiset(Insert(sorted, x, weight)) == multiset(sorted) + multiset{x}
  {
    if sorted != [] {
      var n := |sorted| - 1;
      assert sorted == sorted[..n] + [sorted[n]];
      if weight(sorted[n]) < weight(x) { InsertMembers(sorted[..n], x, weight); }
    }
  }

  lemma {:induction false} InsertFalls<T>(sorted: seq<T>, x: T, weight: T -> int)
    requires Falling(sorted, weight)
    ensures Falling(Insert(sorted, x, weight), weight)
  {
    hide Falling;
    if sorted == [] {
      FallingAppend(sorted, x, weight);
    } else {
      var n := |sorted| - 1;
      FallingPrefix(sorted, n, weight);
      assert sorted == sorted[..n] + [sorted[n]];
      if weight(sorted[n]) >= weight(x) {
        FallingAppend(sorted, x, weight);
      } else {
        InsertFalls(sorted[..n], x, weight);
        InsertMembers(sorted[..n], x, weight);
        var r := Insert(sorted[..n], x, weight);
        forall y | y in r ensures weight(y) >= weight(sorted[n]) {
          assert y in multiset(r);
          assert y in multiset(sorted[..n]) || y == x;
        }
        FallingAppend(r, sorted[n], weight);
      }
    }
  }

  lemma {:induction false} InsertHead<T>(sorted: seq<T>, x: T, weight: T -> int)
    requires Falling(sorted, weight)
    ensures var r := Insert(sorted, x, weight);
            r != [] && r[0] == if sorted == [] || weight(sorted[0]) < weight(x) then x else sorted[0]
  {
    if |sorted| > 1 && weight(sorted[|sorted| - 1]) < weight(x) {
      FallingPrefix(sorted, |sorted| - 1, weight);
      InsertHead(sorted[..|sorted| - 1], x, weight);
    }
  }

  lemma OfWeightAppend<T>(xs: seq<T>, x: T, weight: T -> int, w: int)
    ensures OfWeight(xs + [x], weight, w) == OfWeight(xs, weight, w) + if weight(x) == w then [x] else []
  {
    assert (xs + [x])[..|xs|] == xs;
  }

  lemma {:induction false} InsertStable<T>(sorted: seq<T>, x: T, weight: T -> int, w: int)
    ensures OfWeight(Insert(sorted, x, weight), weight, w)
         == OfWeight(sorted, weight, w) + if weight(x) == w then [x] else []
  {
    var n := |sorted| - 1;
    if sorted == [] || weight(sorted[n]) >= weight(x) {
      OfWeightAppend(sorted, x, weight, w);
    } else {
      InsertStable(sorted[..n], x, weight, w);
      OfWeightAppend(Insert(sorted[..n], x, weight), sorted[n], weight, w);
    }
  }

  lemma NothingFalls<T>(weight: T -> int)
    ensures Falling([], weight)
  {
  }

  /** The sort permutes, puts the heavier first, and keeps the order among equals. */
  lemma {:induction false} SortedByIs<T>(xs: seq<T>, weight: T -> int, w: int)
    ensures var r := SortedBy(xs, weight);
            && Falling(r, weight) && multiset(r) == multiset(xs)
            && OfWeight(r, weight, w) == OfWeight(xs, weight, w)
  {
    hide Falling, Insert;
    if xs == [] {
      NothingFalls(weight);
    } else {
      var n := |xs| - 1;
      SortedByIs(xs[..n], weight, w);
      InsertMembers(SortedBy(xs[..n], weight), xs[n], weight);
      InsertFalls(SortedBy(xs[..n], weight), xs[n], weight);
      InsertStable(SortedBy(xs[..n], weight), xs[n], weight, w);
      assert xs == xs[..n] + [xs[n]];
    }
  }

  // ---- Sets of names ----

  /** The order of strings by their characters; a proper prefix comes first. */
  predicate Before(a: string, b: string) {
    b != "" && (a == "" || a[0] < b[0] || (a[0] == b[0] && Before(a[1..], b[1..])))
  }

  lemma {:induction false} BeforeIsStrict(a: string, b: string)
    ensures !(Before(a, b) && Before(b, a))
    ensures Before(a, b) || Before(b, a) || a == b
  {
    if a != "" && b != "" {
      BeforeIsStrict(a[1..], b[1..]);
      assert a == [a[0]] + a[1..] && b == [b[0]] + b[1..];
    }
  }

  lemma {:induction false} BeforeTransitive(a: string, b: string, c: string)
    requires Before(a, b) && Before(b, c)
    ensures Before(a, c)
  {
    if a != "" && Before(a[1..], b[1..]) && Before(b[1..], c[1..]) { BeforeTransitive(a[1..], b[1..], c[1..]); }
  }

  predicate Ascending(names: seq<string>) {
    forall i, j :: 0 <= i < j < |names| ==> Before(names[i], names[j])
  }

  /** Insertion in its place, once. */
  function InsertName(sorted: seq<string>, x: string): seq<string> {
    if sorted == [] || Before(x, sorted[0]) then [x] + sorted
    else if x == sorted[0] then sorted
    else [sorted[0]] + InsertName(sorted[1..], x)
  }

  ghost predicate Lists(names: seq<string>, all: set<string>) {
    Ascending(names) && forall x :: x in names <==> x in all
  }

  lemma {:induction false} InsertNameMembers(sorted: seq<string>, x: string)
    ensures forall y :: y in InsertName(sorted, x) <==> y in sorted || y == x
  {
    hide Before;
    if sorted != [] { InsertNameMembers(sorted[1..], x); }
  }

  lemma AscendingCons(x: string, rest: seq<string>)
    ensures Ascending([x] + rest) <==> Ascending(rest) && forall y :: y in rest ==> Before(x, y)
  {
    hide Before;
    var r := [x] + rest;
    if Ascending(r) {
      forall y | y in rest ensures Before(x, y) {
        var j :| 0 <= j < |rest| && rest[j] == y;
        assert Before(r[0], r[j + 1]);
      }
      forall i, j | 0 <= i < j < |rest| ensures Before(rest[i], rest[j]) {
        assert Before(r[i + 1], r[j + 1]);
      }
    }
    if Ascending(rest) && forall y :: y in rest ==> Before(x, y) {
      forall i, j | 0 <= i < j < |r| ensures Before(r[i], r[j]) {
        assert r[j] == rest[j - 1] && rest[j - 1] in rest;
      }
    }
  }

  lemma {:induction false} InsertNameAscends(sorted: seq<string>, x: string)
    requires Ascending(sorted)
    ensures Ascending(InsertName(sorted, x))
  {
    hide Before, Ascending;
    if sorted == [] {
      AscendingCons(x, []);
    } else {
      var first, rest := sorted[0], sorted[1..];
      assert sorted == [first] + rest;
      AscendingCons(first, rest);
      BeforeIsStrict(x, first);
      if Before(x, first) {
        forall y | y in rest ensures Before(x, y) { BeforeTransitive(x, first, y); }
        AscendingCons(x, sorted);
      } else if x != first {
        InsertNameAscends(rest, x);
        InsertNameMembers(rest, x);
        AscendingCons(first, InsertName(rest, x));
      }
    }
  }

  /** An ascending list is determined by its set of names. */
  lemma {:induction false} ListsUnique(a: seq<string>, b: seq<string>, all: set<string>)
    requires Lists(a, all) && Lists(b, all)
    ensures a == b
  {
    hide Before, Ascending;
    assert b != [] ==> b[0] in b;
    if a != [] {
      assert a[0] in all;
      assert a == [a[0]] + a[1..] && b == [b[0]] + b[1..];
      AscendingCons(a[0], a[1..]);
      AscendingCons(b[0], b[1..]);
      BeforeIsStrict(a[0], b[0]);
      BeforeIsStrict(a[0], a[0]);
      BeforeIsStrict(b[0], b[0]);
      assert a[0] in b && b[0] in a;
      ListsUnique(a[1..], b[1..], all - {a[0]});
    }
  }

  ghost function SortedNames(all: set<string>): (names: seq<string>)
    ensures Lists(names, all)
  {
    if all == {} then []
    else
      var x :| x in all;
      var rest := SortedNames(all - {x});
      InsertNameAscends(rest, x);
      InsertNameMembers(rest, x);
      InsertName(rest, x)
  }

  /** `[...new Set(names)].sort()`. */
  method SortNames(names: seq<string>) returns (sorted: seq<string>)
    ensures sorted == SortedNames(set x | x in names)
  {
    sorted := [];
    for i := 0 to |names|
      invariant Ascending(sorted) && forall x :: x in sorted <==> x in names[..i]
    {
      InsertNameAscends(sorted, names[i]);
      InsertNameMembers(sorted, names[i]);
      sorted := InsertName(sorted, names[i]);
    }
    ListsUnique(sorted, SortedNames(set x | x in names), set x | x in names);
  }
}
