/** Putting the headers and the body fields of a request in the order a CLI sends them.

  Both functions arrange entries by kind, headers by lower-cased name and fields by exact name.
  `Ordered` says what the arrangement is without any map.
 */
module CliFingerprints {
  import opened JsString
  import opened Basics

  // ---- Records under update ----

  predicate Distinct(s: seq<string>) {
    forall i, j :: 0 <= i < j < |s| ==> s[i] != s[j]
  }

  function Find<V>(r: Record<V>, key: string): Option<V> {
    if r == [] then None else if r[0].0 == key then Some(r[0].1) else Find(r[1..], key)
  }

  /** `r[key] = value`: in place when the key is there, else at the end. */
  function Put<V>(r: Record<V>, key: string, value: V): Record<V> {
    if r == [] then [(key, value)]
    else if r[0].0 == key then [(key, value)] + r[1..]
    else [r[0]] + Put(r[1..], key, value)
  }

  function Remove<V>(r: Record<V>, key: string): Record<V> {
    if r == [] then []
    else
      var n := |r| - 1;
      Remove(r[..n], key) + if r[n].0 == key then [] else [r[n]]
  }

  // ---- The arrangement ----

  /** Each name once, where it first appears. */
  function Dedup(s: seq<string>): (d: seq<string>)
    ensures forall x :: x in d <==> x in s
  {
    if s == [] then []
    else
      var n := |s| - 1;
      Dedup(s[..n]) + if s[n] in s[..n] then [] else [s[n]]
  }

  function KeepIn(s: seq<string>, names: seq<string>): (r: seq<string>)
    ensures forall x :: x in r <==> x in s && x in names
  {
    if s == [] then []
    else
      var n := |s| - 1;
      KeepIn(s[..n], names) + if s[n] in names then [s[n]] else []
  }

  function DropIn(s: seq<string>, names: seq<string>): (r: seq<string>)
    ensures forall x :: x in r <==> x in s && x !in names
  {
    if s == [] then []
    else
      var n := |s| - 1;
      DropIn(s[..n], names) + if s[n] in names then [] else [s[n]]
  }

  /** The kinds that occur: the ordered ones in the given order, then the rest by first appearance. */
  function Layout(kinds: seq<string>, order: seq<string>): (r: seq<string>)
    ensures forall x :: x in r <==> x in kinds
  {
    KeepIn(Dedup(order), kinds) + DropIn(Dedup(kinds), order)
  }

  type Norm = string -> string

  function Normed(norm: Norm, names: seq<string>): (r: seq<string>)
    ensures |r| == |names| && forall i :: 0 <= i < |names| ==> r[i] == norm(names[i])
  {
    seq(|names|, i requires 0 <= i < |names| => norm(names[i]))
  }

  function Kinds<V>(norm: Norm, r: Record<V>): (kinds: seq<string>)
    ensures |kinds| == |r| && forall i :: 0 <= i < |r| ==> kinds[i] == norm(r[i].0)
  {
    Normed(norm, Keys(r))
  }

  /** The last entry of a kind. */
  function LastOf<V>(norm: Norm, r: Record<V>, kind: string): (e: (string, V))
    requires kind in Kinds(norm, r)
    ensures e in r && norm(e.0) == kind
  {
    var n := |r| - 1;
    assert Kinds(norm, r)[..n] == Kinds(norm, r[..n]);
    assert Kinds(norm, r) == Kinds(norm, r[..n]) + [norm(r[n].0)];
    if norm(r[n].0) == kind then r[n] else LastOf(norm, r[..n], kind)
  }

  function Arranged<V>(norm: Norm, r: Record<V>, kinds: seq<string>): (out: Record<V>)
    requires forall k :: k in kinds ==> k in Kinds(norm, r)
    ensures |out| == |kinds| && forall i :: 0 <= i < |kinds| ==> out[i] == LastOf(norm, r, kinds[i])
  {
    seq(|kinds|, i requires 0 <= i < |kinds| => LastOf(norm, r, kinds[i]))
  }

  function Ordered<V>(norm: Norm, r: Record<V>, order: seq<string>): Record<V> {
    Arranged(norm, r, Layout(Kinds(norm, r), Normed(norm, order)))
  }

  // ---- Facts about names ----

  lemma {:induction false} DedupDistinct(s: seq<string>)
    ensures Distinct(Dedup(s))
  {
    if s != [] { DedupDistinct(s[..|s| - 1]); }
  }

  lemma {:induction false} DedupOfDistinct(s: seq<string>)
    requires Distinct(s)
    ensures Dedup(s) == s
  {
    if s != [] {
      var n := |s| - 1;
      DedupOfDistinct(s[..n]);
      assert s == s[..n] + [s[n]];
    }
  }

  lemma {:induction false} KeepDropDistinct(s: seq<string>, names: seq<string>)
    requires Distinct(s)
    ensures Distinct(KeepIn(s, names)) && Distinct(DropIn(s, names))
  {
    if s != [] {
      var n := |s| - 1;
      KeepDropDistinct(s[..n], names);
      assert forall x :: x in s[..n] ==> x != s[n];
    }
  }

  lemma LayoutDistinct(kinds: seq<string>, order: seq<string>)
    ensures Distinct(Layout(kinds, order))
  {
    DedupDistinct(order);
    DedupDistinct(kinds);
    KeepDropDistinct(Dedup(order), kinds);
    KeepDropDistinct(Dedup(kinds), order);
    var a, b := KeepIn(Dedup(order), kinds), DropIn(Dedup(kinds), order);
    forall i, j | 0 <= i < j < |a + b| ensures (a + b)[i] != (a + b)[j] {
      if i < |a| <= j {
        assert a[i] in a && b[j - |a|] in b;
      }
    }
  }

  // ---- Laws of the arrangement ----

  lemma {:induction false} LastOfDistinct<V>(norm: Norm, r: Record<V>, i: nat)
    requires i < |r| && Distinct(Kinds(norm, r))
    ensures LastOf(norm, r, norm(r[i].0)) == r[i]
  {
    var n := |r| - 1;
    assert Kinds(norm, r)[i] == norm(r[i].0);
    if i < n {
      assert Kinds(norm, r)[i] != Kinds(norm, r)[n];
      assert Kinds(norm, r)[..n] == Kinds(norm, r[..n]);
      LastOfDistinct(norm, r[..n], i);
    }
  }

  lemma KindsOfOrdered<V>(norm: Norm, r: Record<V>, order: seq<string>)
    ensures Kinds(norm, Ordered(norm, r, order)) == Layout(Kinds(norm, r), Normed(norm, order))
  {
  }

  /** The names of the result are distinct up to `norm`, and each carries the last entry of its kind. */
  lemma OrderedKeepsLast<V>(norm: Norm, r: Record<V>, order: seq<string>)
    ensures var out := Ordered(norm, r, order);
            && Distinct(Kinds(norm, out))
            && (forall k :: k in Kinds(norm, out) <==> k in Kinds(norm, r))
            && (forall i :: 0 <= i < |out| ==> out[i] == LastOf(norm, r, norm(out[i].0)))
  {
    KindsOfOrdered(norm, r, order);
    LayoutDistinct(Kinds(norm, r), Normed(norm, order));
  }

  lemma {:induction false} DropAll(s: seq<string>, names: seq<string>)
    requires forall x :: x in s ==> x in names
    ensures DropIn(s, names) == []
  {
    if s != [] { DropAll(s[..|s| - 1], names); }
  }

  lemma {:induction false} DropNone(s: seq<string>, names: seq<string>)
    requires forall x :: x in s ==> x !in names
    ensures DropIn(s, names) == s
  {
    if s != [] {
      var n := |s| - 1;
      DropNone(s[..n], names);
      assert s == s[..n] + [s[n]];
    }
  }

  lemma {:induction false} DropConcat(a: seq<string>, b: seq<string>, names: seq<string>)
    ensures DropIn(a + b, names) == DropIn(a, names) + DropIn(b, names)
  {
    if b == [] {
      assert a + b == a;
    } else {
      var n := |b| - 1;
      assert (a + b)[..|a + b| - 1] == a + b[..n];
      DropConcat(a, b[..n], names);
    }
  }

  lemma {:induction false} KeepSameNames(s: seq<string>, a: seq<string>, b: seq<string>)
    requires forall x :: x in a <==> x in b
    ensures KeepIn(s, a) == KeepIn(s, b)
  {
    if s != [] { KeepSameNames(s[..|s| - 1], a, b); }
  }

  lemma LayoutIdempotent(kinds: seq<string>, order: seq<string>)
    ensures Layout(Layout(kinds, order), order) == Layout(kinds, order)
  {
    hide Dedup, KeepIn, DropIn;
    var once := Layout(kinds, order);
    var a, b := KeepIn(Dedup(order), kinds), DropIn(Dedup(kinds), order);
    LayoutDistinct(kinds, order);
    DedupOfDistinct(once);
    KeepSameNames(Dedup(order), kinds, once);
    DropConcat(a, b, order);
    DropAll(a, order);
    DropNone(b, order);
  }

  /** Ordering again changes nothing. */
  lemma {:induction false} OrderedIdempotent<V>(norm: Norm, r: Record<V>, order: seq<string>)
    ensures Ordered(norm, Ordered(norm, r, order), order) == Ordered(norm, r, order)
  {
    var once := Ordered(norm, r, order);
    KindsOfOrdered(norm, r, order);
    LayoutIdempotent(Kinds(norm, r), Normed(norm, order));
    OrderedKeepsLast(norm, r, order);
    var twice := Ordered(norm, once, order);
    forall i | 0 <= i < |once| ensures twice[i] == once[i] {
      LastOfDistinct(norm, once, i);
      assert Kinds(norm, once)[i] == norm(once[i].0);
    }
  }

  lemma {:induction false} DistinctCount<T>(s: seq<T>, e: T)
    requires forall i, j :: 0 <= i < j < |s| ==> s[i] != s[j]
    ensures multiset(s)[e] == if e in s then 1 else 0
  {
    if s != [] {
      var n := |s| - 1;
      DistinctCount(s[..n], e);
      assert s == s[..n] + [s[n]];
    }
  }

  lemma KindsDistinctEntries<V>(norm: Norm, r: Record<V>)
    requires Distinct(Kinds(norm, r))
    ensures forall i, j :: 0 <= i < j < |r| ==> r[i] != r[j]
  {
    forall i, j | 0 <= i < j < |r| ensures r[i] != r[j] {
      assert Kinds(norm, r)[i] != Kinds(norm, r)[j];
    }
  }

  /** Without two entries of one kind nothing is lost: the result is a permutation. */
  lemma {:induction false} OrderedPermutes<V>(norm: Norm, r: Record<V>, order: seq<string>)
    requires Distinct(Kinds(norm, r))
    ensures multiset(Ordered(norm, r, order)) == multiset(r)
  {
    var out := Ordered(norm, r, order);
    OrderedKeepsLast(norm, r, order);
    KindsDistinctEntries(norm, r);
    KindsDistinctEntries(norm, out);
    forall e ensures multiset(out)[e] == multiset(r)[e] {
      DistinctCount(out, e);
      DistinctCount(r, e);
      if e in r {
        var i :| 0 <= i < |r| && r[i] == e;
        assert Kinds(norm, r)[i] in Kinds(norm, out);
        var j :| 0 <= j < |out| && Kinds(norm, out)[j] == norm(e.0);
        LastOfDistinct(norm, r, i);
        assert out[j] == e;
      }
    }
  }

  // ---- Where a name ends up ----

  /** Index of the first occurrence, the length when there is none. */
  function FirstIndex(s: seq<string>, x: string): (i: nat)
    ensures i <= |s| && (i < |s| <==> x in s) && (i < |s| ==> s[i] == x)
    ensures forall j :: 0 <= j < i ==> s[j] != x
  {
    if s == [] then 0 else if s[0] == x then 0 else 1 + FirstIndex(s[1..], x)
  }

  /** The names of `sub` appear in `s` in this order. */
  predicate FollowsOrder(sub: seq<string>, s: seq<string>) {
    forall i, j :: 0 <= i < j < |sub| ==> FirstIndex(s, sub[i]) < FirstIndex(s, sub[j])
  }

  lemma FirstIndexOfPrefix(s: seq<string>, n: nat, x: string)
    requires n <= |s|
    ensures x in s[..n] ==> FirstIndex(s, x) == FirstIndex(s[..n], x)
    ensures x !in s[..n] ==> FirstIndex(s, x) >= n
  {
    var i := FirstIndex(s, x);
    if i < n { assert s[..n][i] == x; }
    if x in s[..n] {
      var j := FirstIndex(s[..n], x);
      assert s[j] == x;
    }
  }

  lemma {:induction false} DedupFollows(s: seq<string>)
    ensures FollowsOrder(Dedup(s), s)
  {
    if s != [] {
      var n := |s| - 1;
      DedupFollows(s[..n]);
      var d, e := Dedup(s[..n]), Dedup(s);
      forall i, j | 0 <= i < j < |e| ensures FirstIndex(s, e[i]) < FirstIndex(s, e[j]) {
        assert e[i] == d[i] && d[i] in d;
        FirstIndexOfPrefix(s, n, e[i]);
        FirstIndexOfPrefix(s, n, e[j]);
        if j < |d| { assert d[j] in d; }
      }
    }
  }

  lemma FollowsAppend(s: seq<string>, x: string, of: seq<string>)
    requires FollowsOrder(s, of) && forall y :: y in s ==> FirstIndex(of, y) < FirstIndex(of, x)
    ensures FollowsOrder(s + [x], of)
  {
    hide FirstIndex;
    var t := s + [x];
    forall i, j | 0 <= i < j < |t| ensures FirstIndex(of, t[i]) < FirstIndex(of, t[j]) {
      assert t[i] == s[i] && s[i] in s;
    }
  }

  lemma {:induction false} FilterFollows(s: seq<string>, names: seq<string>, of: seq<string>)
    requires FollowsOrder(s, of)
    ensures FollowsOrder(KeepIn(s, names), of) && FollowsOrder(DropIn(s, names), of)
  {
    hide FirstIndex;
    if s != [] {
      var n := |s| - 1;
      FilterFollows(s[..n], names, of);
      assert forall x :: x in s[..n] ==> FirstIndex(of, x) < FirstIndex(of, s[n]);
      if s[n] in names { FollowsAppend(KeepIn(s[..n], names), s[n], of); }
      else { FollowsAppend(DropIn(s[..n], names), s[n], of); }
    }
  }

  lemma LayoutFollows(of: seq<string>, names: seq<string>)
    ensures var kinds := Layout(of, names);
            forall i, j :: 0 <= i < j < |kinds| ==>
              if kinds[j] in names then kinds[i] in names && FirstIndex(names, kinds[i]) < FirstIndex(names, kinds[j])
              else kinds[i] in names || FirstIndex(of, kinds[i]) < FirstIndex(of, kinds[j])
  {
    hide FirstIndex, KeepIn, DropIn, Dedup;
    DedupFollows(names);
    DedupFollows(of);
    FilterFollows(Dedup(names), of, names);
    FilterFollows(Dedup(of), names, of);
    var a, b := KeepIn(Dedup(names), of), DropIn(Dedup(of), names);
    assert forall i :: 0 <= i < |a| ==> a[i] in a;
    assert forall i :: 0 <= i < |b| ==> b[i] in b;
  }

  /** Names of the given order come before all others, in that order; the others keep the order in which
    they first appear. With `OrderedKeepsLast` this determines the result. */
  lemma {:induction false} OrderedFollows<V>(norm: Norm, r: Record<V>, order: seq<string>)
    ensures var kinds, names := Kinds(norm, Ordered(norm, r, order)), Normed(norm, order);
            forall i, j :: 0 <= i < j < |kinds| ==>
              if kinds[j] in names then kinds[i] in names && FirstIndex(names, kinds[i]) < FirstIndex(names, kinds[j])
              else kinds[i] in names || FirstIndex(Kinds(norm, r), kinds[i]) < FirstIndex(Kinds(norm, r), kinds[j])
  {
    KindsOfOrdered(norm, r, order);
    LayoutFollows(Kinds(norm, r), Normed(norm, order));
  }

  /** `e` is the last entry of its kind. */
  ghost predicate IsLastOfKind<V>(norm: Norm, r: Record<V>, e: (string, V)) {
    exists i :: 0 <= i < |r| && r[i] == e && forall j :: i < j < |r| ==> norm(r[j].0) != norm(e.0)
  }

  /** The order clause of an arrangement. */
  predicate InOrder(out: seq<string>, kinds: seq<string>, names: seq<string>) {
    forall i, j :: 0 <= i < j < |out| ==>
      if out[j] in names then out[i] in names && FirstIndex(names, out[i]) < FirstIndex(names, out[j])
      else out[i] in names || FirstIndex(kinds, out[i]) < FirstIndex(kinds, out[j])
  }

  /** `out` is `r` rearranged by `order`: one entry of each kind, the last one; the kinds of the order first and in
    that order, the others as they first appear. */
  ghost predicate IsArrangement<V>(norm: Norm, r: Record<V>, order: seq<string>, out: Record<V>) {
    && Distinct(Kinds(norm, out))
    && (forall k :: 0 <= k < |out| ==> IsLastOfKind(norm, r, out[k]))
    && (forall x :: x in Kinds(norm, r) ==> x in Kinds(norm, out))
    && InOrder(Kinds(norm, out), Kinds(norm, r), Normed(norm, order))
  }

  lemma {:induction false} LastOfIsLast<V>(norm: Norm, r: Record<V>, kind: string)
    requires kind in Kinds(norm, r)
    ensures IsLastOfKind(norm, r, LastOf(norm, r, kind))
  {
    var n := |r| - 1;
    if norm(r[n].0) == kind {
      assert r[n] == LastOf(norm, r, kind);
    } else {
      assert Kinds(norm, r)[..n] == Kinds(norm, r[..n]);
      assert Kinds(norm, r) == Kinds(norm, r[..n]) + [norm(r[n].0)];
      LastOfIsLast(norm, r[..n], kind);
      var e := LastOf(norm, r[..n], kind);
      var i :| 0 <= i < n && r[..n][i] == e && forall j :: i < j < n ==> norm(r[..n][j].0) != norm(e.0);
      assert r[i] == e;
      forall j | i < j < |r| ensures norm(r[j].0) != norm(e.0) {
        if j < n { assert r[j] == r[..n][j]; }
      }
    }
  }

  lemma OrderedInOrder<V>(norm: Norm, r: Record<V>, order: seq<string>)
    ensures InOrder(Kinds(norm, Ordered(norm, r, order)), Kinds(norm, r), Normed(norm, order))
  {
    OrderedFollows(norm, r, order);
    hide FirstIndex, Ordered;
  }

  lemma OrderedAreLast<V>(norm: Norm, r: Record<V>, order: seq<string>)
    ensures var out := Ordered(norm, r, order); forall k :: 0 <= k < |out| ==> IsLastOfKind(norm, r, out[k])
  {
    hide LastOf, IsLastOfKind;
    OrderedKeepsLast(norm, r, order);
    hide Ordered;
    var out := Ordered(norm, r, order);
    forall k | 0 <= k < |out| ensures IsLastOfKind(norm, r, out[k]) {
      assert Kinds(norm, out)[k] in Kinds(norm, out);
      LastOfIsLast(norm, r, norm(out[k].0));
    }
  }

  lemma OrderedIsArrangement<V>(norm: Norm, r: Record<V>, order: seq<string>)
    ensures IsArrangement(norm, r, order, Ordered(norm, r, order))
  {
    OrderedKeepsLast(norm, r, order);
    OrderedInOrder(norm, r, order);
    OrderedAreLast(norm, r, order);
    hide LastOf, FirstIndex, IsLastOfKind, Ordered, InOrder, Distinct, Kinds, Normed;
  }

  // ---- Facts about updates ----

  lemma {:induction false} PutNew<V>(r: Record<V>, key: string, value: V)
    requires key !in Keys(r)
    ensures Put(r, key, value) == r + [(key, value)]
  {
    if r != [] {
      assert Keys(r)[0] == r[0].0;
      assert forall i :: 0 <= i < |r| - 1 ==> Keys(r[1..])[i] == Keys(r)[i + 1];
      PutNew(r[1..], key, value);
      assert r == [r[0]] + r[1..];
    }
  }

  lemma KeysTail<V>(r: Record<V>)
    requires r != []
    ensures Keys(r[1..]) == Keys(r)[1..] && Keys(r)[0] == r[0].0
  {
  }

  lemma {:induction false} FindAt<V>(r: Record<V>, i: nat)
    requires i < |r| && Distinct(Keys(r))
    ensures Find(r, r[i].0) == Some(r[i].1)
  {
    if i > 0 {
      KeysTail(r);
      assert Keys(r)[0] != Keys(r)[i];
      FindAt(r[1..], i - 1);
    }
  }

  lemma {:induction false} PutAt<V>(r: Record<V>, i: nat, value: V)
    requires i < |r| && Distinct(Keys(r))
    ensures Put(r, r[i].0, value) == r[i := (r[i].0, value)]
  {
    if i > 0 {
      KeysTail(r);
      assert Keys(r)[0] != Keys(r)[i];
      PutAt(r[1..], i - 1, value);
      assert [r[0]] + r[1..][i - 1 := (r[i].0, value)] == r[i := (r[i].0, value)];
    } else {
      assert [(r[0].0, value)] + r[1..] == r[0 := (r[0].0, value)];
    }
  }

  lemma {:induction false} FindNone<V>(r: Record<V>, key: string)
    requires key !in Keys(r)
    ensures Find(r, key) == None
  {
    if r != [] {
      assert Keys(r)[0] == r[0].0;
      assert forall i :: 0 <= i < |r| - 1 ==> Keys(r[1..])[i] == Keys(r)[i + 1];
      FindNone(r[1..], key);
    }
  }

  /** The lookup table of the entries of `r`: each of `kinds` with its last entry. */
  function Table<V>(norm: Norm, r: Record<V>, kinds: seq<string>): (t: Record<(string, V)>)
    requires forall k :: k in kinds ==> k in Kinds(norm, r)
    ensures Keys(t) == kinds
  {
    seq(|kinds|, i requires 0 <= i < |kinds| => (kinds[i], LastOf(norm, r, kinds[i])))
  }

  lemma LastOfMore<V>(norm: Norm, r: Record<V>, e: (string, V), kind: string)
    requires kind in Kinds(norm, r + [e])
    ensures kind in Kinds(norm, r) || kind == norm(e.0)
    ensures LastOf(norm, r + [e], kind) == if kind == norm(e.0) then e else LastOf(norm, r, kind)
  {
    assert (r + [e])[..|r|] == r;
    assert Kinds(norm, r + [e]) == Kinds(norm, r) + [norm(e.0)];
  }

  lemma TableSame<V>(norm: Norm, r: Record<V>, e: (string, V), names: seq<string>, j: nat)
    requires j < |names| && names[j] != norm(e.0) && forall x :: x in names ==> x in Kinds(norm, r)
    ensures norm(e.0) in Kinds(norm, r + [e]) && forall x :: x in names ==> x in Kinds(norm, r + [e])
    ensures LastOf(norm, r + [e], names[j]) == LastOf(norm, r, names[j])
  {
    assert Kinds(norm, r + [e]) == Kinds(norm, r) + [norm(e.0)];
    assert names[j] in names;
    LastOfMore(norm, r, e, names[j]);
  }

  lemma {:induction false} TableReplace<V>(norm: Norm, r: Record<V>, e: (string, V), names: seq<string>)
    requires Distinct(names) && norm(e.0) in names && forall x :: x in names ==> x in Kinds(norm, r)
    ensures forall x :: x in names ==> x in Kinds(norm, r + [e])
    ensures Put(Table(norm, r, names), norm(e.0), e) == Table(norm, r + [e], names)
  {
    hide LastOf, Put;
    assert Kinds(norm, r + [e]) == Kinds(norm, r) + [norm(e.0)];
    var t, i := Table(norm, r, names), FirstIndex(names, norm(e.0));
    PutAt(t, i, e);
    LastOfMore(norm, r, e, norm(e.0));
    forall j | 0 <= j < |names| && j != i ensures t[j] == Table(norm, r + [e], names)[j] {
      TableSame(norm, r, e, names, j);
    }
    assert t[i := (norm(e.0), e)] == Table(norm, r + [e], names);
  }

  lemma TableExtend<V>(norm: Norm, r: Record<V>, e: (string, V), names: seq<string>)
    requires norm(e.0) !in names && forall x :: x in names ==> x in Kinds(norm, r)
    ensures forall x :: x in names + [norm(e.0)] ==> x in Kinds(norm, r + [e])
    ensures Put(Table(norm, r, names), norm(e.0), e) == Table(norm, r + [e], names + [norm(e.0)])
  {
    hide LastOf, Put;
    assert Kinds(norm, r + [e]) == Kinds(norm, r) + [norm(e.0)];
    var t := Table(norm, r, names);
    PutNew(t, norm(e.0), e);
    assert Kinds(norm, r + [e])[|r|] == norm(e.0);
    LastOfMore(norm, r, e, norm(e.0));
    var u := Table(norm, r + [e], names + [norm(e.0)]);
    forall j | 0 <= j < |names| ensures t[j] == u[j] {
      TableSame(norm, r, e, names, j);
    }
    assert t + [(norm(e.0), e)] == u;
  }

  lemma {:induction false} TableStep<V>(norm: Norm, r: Record<V>, e: (string, V))
    ensures Put(Table(norm, r, Dedup(Kinds(norm, r))), norm(e.0), e)
         == Table(norm, r + [e], Dedup(Kinds(norm, r + [e])))
  {
    var k, kinds, more := norm(e.0), Kinds(norm, r), Kinds(norm, r + [e]);
    assert more == kinds + [k] && more[..|r|] == kinds;
    var names := Dedup(kinds);
    assert Dedup(more) == names + if k in kinds then [] else [k];
    hide Dedup, LastOf, Put;
    DedupDistinct(kinds);
    if k in kinds {
      assert Dedup(more) == names;
      TableReplace(norm, r, e, names);
    } else {
      TableExtend(norm, r, e, names);
    }
  }

  lemma DropOne(x: string, names: seq<string>)
    ensures DropIn([x], names) == if x in names then [] else [x]
  {
    assert [x][..0] == [];
  }

  lemma {:induction false} DropMore(s: seq<string>, names: seq<string>, x: string)
    ensures DropIn(DropIn(s, names), [x]) == DropIn(s, names + [x])
  {
    if s == [] {
      assert DropIn(DropIn(s, names), [x]) == [] == DropIn(s, names + [x]);
    } else {
      var n := |s| - 1;
      var d, last := DropIn(s[..n], names), if s[n] in names then [] else [s[n]];
      assert DropIn(s, names) == d + last;
      assert DropIn(s, names + [x]) == DropIn(s[..n], names + [x]) + if s[n] in names + [x] then [] else [s[n]];
      DropOne(s[n], [x]);
      DropAll([], [x]);
      DropMore(s[..n], names, x);
      DropConcat(d, last, [x]);
      hide DropIn;
    }
  }

  lemma {:induction false} RemoveFromTable<V>(norm: Norm, r: Record<V>, kinds: seq<string>, x: string)
    requires forall k :: k in kinds ==> k in Kinds(norm, r)
    ensures Remove(Table(norm, r, kinds), x) == Table(norm, r, DropIn(kinds, [x]))
  {
    hide LastOf;
    if kinds != [] {
      var n := |kinds| - 1;
      assert Table(norm, r, kinds)[..n] == Table(norm, r, kinds[..n]);
      RemoveFromTable(norm, r, kinds[..n], x);
    }
  }

  lemma {:induction false} KeepConcat(a: seq<string>, b: seq<string>, names: seq<string>)
    ensures KeepIn(a + b, names) == KeepIn(a, names) + KeepIn(b, names)
  {
    if b == [] {
      assert a + b == a;
    } else {
      var n := |b| - 1;
      assert (a + b)[..|a + b| - 1] == a + b[..n];
      KeepConcat(a, b[..n], names);
    }
  }

  lemma KeepOne(x: string, names: seq<string>)
    ensures KeepIn([x], names) == if x in names then [x] else []
  {
    assert [x][..0] == [];
  }

  lemma {:induction false} KeepStep(order: seq<string>, x: string, kinds: seq<string>)
    ensures KeepIn(Dedup(order + [x]), kinds)
         == KeepIn(Dedup(order), kinds) + if x in order || x !in kinds then [] else [x]
  {
    assert (order + [x])[..|order|] == order;
    if x in order {
      assert Dedup(order + [x]) == Dedup(order);
    } else {
      assert Dedup(order + [x]) == Dedup(order) + [x];
      hide Dedup, KeepIn;
      KeepConcat(Dedup(order), [x], kinds);
      KeepOne(x, kinds);
    }
  }

  lemma ArrangedKeys<V>(norm: Norm, r: Record<V>, kinds: seq<string>)
    requires forall k :: k in kinds ==> k in Kinds(norm, r)
    ensures forall key :: key in Keys(Arranged(norm, r, kinds)) ==> norm(key) in kinds
  {
  }

  lemma ArrangedMore<V>(norm: Norm, r: Record<V>, kinds: seq<string>, x: string)
    requires forall k :: k in kinds + [x] ==> k in Kinds(norm, r)
    requires x !in kinds
    ensures x in Kinds(norm, r) && forall k :: k in kinds ==> k in Kinds(norm, r)
    ensures var e := LastOf(norm, r, x);
            Put(Arranged(norm, r, kinds), e.0, e.1) == Arranged(norm, r, kinds + [x])
  {
    assert (kinds + [x])[|kinds|] == x;
    assert forall k :: k in kinds ==> k in kinds + [x];
    hide Put;
    var out, e := Arranged(norm, r, kinds), LastOf(norm, r, x);
    ArrangedKeys(norm, r, kinds);
    PutNew(out, e.0, e.1);
    assert out + [(e.0, e.1)] == Arranged(norm, r, kinds + [x]);
  }

  /** One ordered name: its entry moves from the table to the result. */
  lemma {:induction false} MoveStep<V>(norm: Norm, r: Record<V>, done: seq<string>, x: string)
    ensures var kinds := Kinds(norm, r);
            var left, out := Table(norm, r, DropIn(Dedup(kinds), done)), Arranged(norm, r, KeepIn(Dedup(done), kinds));
            var left', out' := Table(norm, r, DropIn(Dedup(kinds), done + [x])),
                               Arranged(norm, r, KeepIn(Dedup(done + [x]), kinds));
            match Find(left, x)
            case Some(e) => Put(out, e.0, e.1) == out' && Remove(left, x) == left'
            case None => out == out' && left == left'
  {
    hide Put, Remove, Find, Dedup, KeepIn, DropIn, LastOf;
    var kinds := Kinds(norm, r);
    var d, k := DropIn(Dedup(kinds), done), KeepIn(Dedup(done), kinds);
    var left := Table(norm, r, d);
    DedupDistinct(kinds);
    KeepDropDistinct(Dedup(kinds), done);
    DropMore(Dedup(kinds), done, x);
    KeepStep(done, x, kinds);
    RemoveFromTable(norm, r, d, x);
    if x in d {
      FindAt(left, FirstIndex(d, x));
      ArrangedMore(norm, r, k, x);
    } else {
      FindNone(left, x);
      DropNone(d, [x]);
      assert k + [] == k;
    }
  }

  // ---- The two functions ----

  lemma EmptyNames()
    ensures Dedup([]) == [] && forall names :: KeepIn([], names) == []
  {
  }

  /** The case-insensitive lookup, one entry for each lower-cased name. */
  method IndexHeaders(headers: Record<string>) returns (headerMap: Record<(string, string)>)
    ensures headerMap == Table(Lower, headers, Dedup(Kinds(Lower, headers)))
  {
    hide Put, Dedup, LastOf;
    headerMap := [];
    EmptyNames();
    for i := 0 to |headers|
      invariant headerMap == Table(Lower, headers[..i], Dedup(Kinds(Lower, headers[..i])))
    {
      TableStep(Lower, headers[..i], headers[i]);
      assert headers[..i + 1] == headers[..i] + [headers[i]];
      headerMap := Put(headerMap, Lower(headers[i].0), headers[i]);
    }
    assert headers[..|headers|] == headers;
  }

  function HeadersInOrder(headers: Record<string>, headerOrder: seq<string>): Record<string> {
    if headerOrder == [] then headers else Ordered(Lower, headers, headerOrder)
  }

  /** An empty order leaves the headers alone, so names that agree up to case survive only then. */
  lemma {:induction false} HeadersDistinctIff(headers: Record<string>, headerOrder: seq<string>)
    ensures Distinct(Kinds(Lower, HeadersInOrder(headers, headerOrder)))
       <==> headerOrder != [] || Distinct(Kinds(Lower, headers))
  {
    hide Distinct;
    OrderedKeepsLast(Lower, headers, headerOrder);
  }

  /** Puts the entries left in the table after the result. */
  method AppendRest(ghost headers: Record<string>, headerMap: Record<(string, string)>, ordered: Record<string>,
                    ghost first: seq<string>, ghost rest: seq<string>)
    returns (result: Record<string>)
    requires Distinct(first + rest) && forall k :: k in first + rest ==> k in Kinds(Lower, headers)
    requires (forall k :: k in first ==> k in first + rest) && ordered == Arranged(Lower, headers, first)
    requires (forall k :: k in rest ==> k in first + rest) && headerMap == Table(Lower, headers, rest)
    ensures result == Arranged(Lower, headers, first + rest)
  {
    hide Put, LastOf;
    result := ordered;
    ghost var all, n := first + rest, |first|;
    assert all[..n] == first;
    for j := 0 to |headerMap|
      invariant result == Arranged(Lower, headers, all[..n + j])
    {
      assert all[n + j] == rest[j] == headerMap[j].0;
      assert all[..n + j + 1] == all[..n + j] + [all[n + j]];
      ArrangedMore(Lower, headers, all[..n + j], all[n + j]);
      result := Put(result, headerMap[j].1.0, headerMap[j].1.1);
    }
    assert all[..|all|] == all;
  }

  method OrderHeaders(headers: Record<string>, headerOrder: seq<string>) returns (result: Record<string>)
    ensures result == HeadersInOrder(headers, headerOrder)
    ensures if headerOrder == [] then result == headers else IsArrangement(Lower, headers, headerOrder, result)
  {
    hide Put, Remove, Find, Dedup, KeepIn, DropIn, LastOf, IsArrangement;
    if headerOrder != [] { OrderedIsArrangement(Lower, headers, headerOrder); }
    if headerOrder == [] { return headers; }
    ghost var kinds, order := Kinds(Lower, headers), Normed(Lower, headerOrder);
    EmptyNames();
    DropNone(Dedup(kinds), []);
    var headerMap := IndexHeaders(headers);
    result := [];
    for i := 0 to |headerOrder|
      invariant headerMap == Table(Lower, headers, DropIn(Dedup(kinds), order[..i]))
      invariant result == Arranged(Lower, headers, KeepIn(Dedup(order[..i]), kinds))
    {
      var lower := Lower(headerOrder[i]);
      MoveStep(Lower, headers, order[..i], lower);
      assert order[..i + 1] == order[..i] + [lower];
      var entry := Find(headerMap, lower);
      if entry.Some? {
        result := Put(result, entry.value.0, entry.value.1);
        headerMap := Remove(headerMap, lower);
      }
    }
    assert order[..|order|] == order;
    LayoutDistinct(kinds, order);
    result := AppendRest(headers, headerMap, result, KeepIn(Dedup(order), kinds), DropIn(Dedup(kinds), order));
  }

  function Same(name: string): string { name }

  function FieldsInOrder<V>(obj: Record<V>, fieldOrder: seq<string>): Record<V> {
    if fieldOrder == [] then obj else Ordered(Same, obj, fieldOrder)
  }

  lemma FieldOf<V>(obj: Record<V>, key: string)
    requires Distinct(Keys(obj)) && key in Keys(obj)
    ensures Kinds(Same, obj) == Keys(obj)
    ensures Find(obj, key).Some? && LastOf(Same, obj, key) == (key, Find(obj, key).value)
  {
    hide Find, LastOf;
    assert Kinds(Same, obj) == Keys(obj);
    var i := FirstIndex(Keys(obj), key);
    FindAt(obj, i);
    LastOfDistinct(Same, obj, i);
  }

  lemma {:induction false} FieldAgain<V>(obj: Record<V>, kinds: seq<string>, x: string)
    requires Distinct(Keys(obj)) && Distinct(kinds) && x in kinds
    requires forall k :: k in kinds ==> k in Kinds(Same, obj)
    ensures Find(obj, x).Some? && Put(Arranged(Same, obj, kinds), x, Find(obj, x).value) == Arranged(Same, obj, kinds)
  {
    hide Put, Find, LastOf;
    assert Kinds(Same, obj) == Keys(obj);
    FieldOf(obj, x);
    var out, i := Arranged(Same, obj, kinds), FirstIndex(kinds, x);
    assert Keys(out) == kinds;
    PutAt(out, i, Find(obj, x).value);
  }

  /** One ordered field. Naming it again puts the same value in the same place. */
  lemma {:induction false} FieldStep<V>(obj: Record<V>, done: seq<string>, x: string)
    requires Distinct(Keys(obj))
    ensures Kinds(Same, obj) == Keys(obj)
    ensures var keys := Keys(obj);
            var out := Arranged(Same, obj, KeepIn(Dedup(done), keys));
            var out' := Arranged(Same, obj, KeepIn(Dedup(done + [x]), keys));
            match Find(obj, x)
            case Some(v) => Put(out, x, v) == out' && DropIn(DropIn(keys, done), [x]) == DropIn(keys, done + [x])
            case None => out == out' && DropIn(keys, done) == DropIn(keys, done + [x])
  {
    hide Put, Find, Dedup, KeepIn, DropIn, LastOf;
    var keys := Keys(obj);
    assert Kinds(Same, obj) == keys;
    var k := KeepIn(Dedup(done), keys);
    KeepStep(done, x, keys);
    DropMore(keys, done, x);
    assert k + [] == k;
    if x !in keys {
      FindNone(obj, x);
      DropNone(DropIn(keys, done), [x]);
    } else {
      FieldOf(obj, x);
      if x in done {
        DedupDistinct(done);
        KeepDropDistinct(Dedup(done), keys);
        FieldAgain(obj, k, x);
      } else {
        ArrangedMore(Same, obj, k, x);
      }
    }
  }

  lemma FieldsArranged<V>(obj: Record<V>, fieldOrder: seq<string>)
    requires Distinct(Keys(obj))
    ensures var out := Ordered(Same, obj, fieldOrder);
            multiset(out) == multiset(obj) && InOrder(Keys(out), Keys(obj), fieldOrder)
  {
    var out := Ordered(Same, obj, fieldOrder);
    assert Kinds(Same, obj) == Keys(obj) && Kinds(Same, out) == Keys(out) && Normed(Same, fieldOrder) == fieldOrder;
    hide Ordered, InOrder, IsLastOfKind;
    OrderedPermutes(Same, obj, fieldOrder);
    OrderedIsArrangement(Same, obj, fieldOrder);
  }

  method OrderFields<V>(obj: Record<V>, fieldOrder: seq<string>) returns (result: Record<V>)
    requires Distinct(Keys(obj))
    ensures result == FieldsInOrder(obj, fieldOrder)
    ensures if fieldOrder == [] then result == obj
            else multiset(result) == multiset(obj) && InOrder(Keys(result), Keys(obj), fieldOrder)
  {
    hide Put, Find, Dedup, KeepIn, DropIn, LastOf, InOrder;
    if fieldOrder != [] { FieldsArranged(obj, fieldOrder); }
    if fieldOrder == [] { return obj; }
    var keys := Keys(obj);
    assert Kinds(Same, obj) == keys && Normed(Same, fieldOrder) == fieldOrder;
    EmptyNames();
    DropNone(keys, []);
    DedupOfDistinct(keys);
    var remaining := keys;
    result := [];
    for i := 0 to |fieldOrder|
      invariant remaining == DropIn(keys, fieldOrder[..i])
      invariant result == Arranged(Same, obj, KeepIn(Dedup(fieldOrder[..i]), keys))
    {
      FieldStep(obj, fieldOrder[..i], fieldOrder[i]);
      assert fieldOrder[..i + 1] == fieldOrder[..i] + [fieldOrder[i]];
      var value := Find(obj, fieldOrder[i]);
      if value.Some? {
        result := Put(result, fieldOrder[i], value.value);
        remaining := DropIn(remaining, [fieldOrder[i]]);
      }
    }
    assert fieldOrder[..|fieldOrder|] == fieldOrder;
    ghost var first := KeepIn(Dedup(fieldOrder), keys);
    LayoutDistinct(keys, fieldOrder);
    for j := 0 to |remaining|
      invariant result == Arranged(Same, obj, first + remaining[..j])
    {
      var value := Find(obj, remaining[j]);
      FieldOf(obj, remaining[j]);
      assert first + remaining[..j + 1] == first + remaining[..j] + [remaining[j]];
      assert (first + remaining)[|first| + j] == remaining[j];
      assert (first + remaining)[..|first| + j] == first + remaining[..j];
      ArrangedMore(Same, obj, first + remaining[..j], remaining[j]);
      result := Put(result, remaining[j], value.value);
    }
    assert first + remaining[..|remaining|] == first + remaining;
  }
}
