/** How much is free each month: token budgets summed over a catalog in which some rows share a pool.

  `DedupedSum` is one pass over the catalog with a map of pool maxima. `Deduped` is what it means: the
  loose rows, plus for every pool that occurs the largest of its rows. The laws are about the meaning.
 */
module FreeModelCatalog {
  import opened Basics
  import opened Sorting

  // ---- Regimes ----

  datatype FreeType =
    | RecurringDaily | RecurringMonthly | RecurringCredit | RecurringUncapped
    | OneTimeInitial | Keyless | Discontinued

  datatype Bucket = SteadyMonthly | RecurringCredits | OneTimeCredits | Uncapped | NoBucket

  function BucketOf(t: FreeType): Bucket {
    match t
    case RecurringDaily => SteadyMonthly
    case RecurringMonthly => SteadyMonthly
    case RecurringCredit => RecurringCredits
    case RecurringUncapped => Uncapped
    case OneTimeInitial => OneTimeCredits
    case Keyless => SteadyMonthly
    case Discontinued => NoBucket
  }

  const ALL_TYPES :=
    {RecurringDaily, RecurringMonthly, RecurringCredit, RecurringUncapped, OneTimeInitial, Keyless, Discontinued}

  function FreeTypesInBucket(b: Bucket): set<FreeType> {
    set t | t in ALL_TYPES && BucketOf(t) == b
  }

  // ---- Rows and pools ----

  /** `enabled` is false only when the row says so; `gated` when it names an eligibility gate. */
  datatype Row = Row(
    provider: string, monthlyTokens: int, creditTokens: int, freeType: FreeType,
    poolKey: Option<string>, tosAvoid: bool, gated: bool, enabled: bool)

  /** An empty pool key counts as none. */
  predicate Pooled(r: Row) { r.poolKey.Some? && r.poolKey.value != "" }

  predicate InPool(r: Row, key: string) { Pooled(r) && r.poolKey.value == key }

  type Amount = Row -> int

  type Filter = Row -> bool

  function LooseSum(rows: seq<Row>, pick: Amount, keep: Filter): int {
    if rows == [] then 0
    else (if keep(rows[0]) && !Pooled(rows[0]) then pick(rows[0]) else 0) + LooseSum(rows[1..], pick, keep)
  }

  function Pools(rows: seq<Row>, keep: Filter): set<string> {
    set r | r in rows && keep(r) && Pooled(r) :: r.poolKey.value
  }

  /** The largest amount in a pool, at least 0. */
  function PoolMax(rows: seq<Row>, pick: Amount, keep: Filter, key: string): (m: int)
    ensures m >= 0
  {
    if rows == [] then 0
    else
      var rest := PoolMax(rows[1..], pick, keep, key);
      if keep(rows[0]) && InPool(rows[0], key) then Max(pick(rows[0]), rest) else rest
  }

  ghost function SumOver(keys: set<string>, f: string -> int): int {
    if keys == {} then 0
    else
      var k :| k in keys;
      f(k) + SumOver(keys - {k}, f)
  }

  ghost function Deduped(rows: seq<Row>, pick: Amount, keep: Filter): int {
    LooseSum(rows, pick, keep) + SumOver(Pools(rows, keep), k => PoolMax(rows, pick, keep, k))
  }

  // ---- Sums over sets ----

  lemma {:induction false} SumRemove(keys: set<string>, f: string -> int, k: string)
    requires k in keys
    ensures SumOver(keys, f) == f(k) + SumOver(keys - {k}, f)
  {
    var j :| j in keys && SumOver(keys, f) == f(j) + SumOver(keys - {j}, f);
    if j != k {
      SumRemove(keys - {j}, f, k);
      SumRemove(keys - {k}, f, j);
      assert keys - {j} - {k} == keys - {k} - {j};
    }
  }

  lemma {:induction false} SumEqual(keys: set<string>, f: string -> int, g: string -> int)
    requires forall k :: k in keys ==> f(k) == g(k)
    ensures SumOver(keys, f) == SumOver(keys, g)
  {
    if keys != {} {
      var k :| k in keys;
      SumRemove(keys, f, k);
      SumRemove(keys, g, k);
      SumEqual(keys - {k}, f, g);
    }
  }

  /** Keys that contribute nothing may be added. */
  lemma {:induction false} SumExtend(keys: set<string>, all: set<string>, f: string -> int)
    requires keys <= all && forall k :: k in all - keys ==> f(k) == 0
    ensures SumOver(keys, f) == SumOver(all, f)
    decreases all
  {
    if keys != all {
      assert all == keys + (all - keys);
      var k :| k in all - keys;
      SumRemove(all, f, k);
      SumExtend(keys, all - {k}, f);
    }
  }

  /** The larger and the smaller of two amounts add up to both. */
  lemma {:induction false} SumMaxMin(keys: set<string>, f: string -> int, g: string -> int)
    ensures SumOver(keys, f) + SumOver(keys, g)
         == SumOver(keys, k => Max(f(k), g(k))) + SumOver(keys, k => Min(f(k), g(k)))
  {
    if keys != {} {
      var k :| k in keys;
      SumRemove(keys, f, k);
      SumRemove(keys, g, k);
      SumRemove(keys, k => Max(f(k), g(k)), k);
      SumRemove(keys, k => Min(f(k), g(k)), k);
      SumMaxMin(keys - {k}, f, g);
    }
  }

  lemma {:induction false} SumOfNonNegative(keys: set<string>, f: string -> int)
    requires forall k :: k in keys ==> f(k) >= 0
    ensures SumOver(keys, f) >= 0
    ensures SumOver(keys, f) == 0 <==> forall k :: k in keys ==> f(k) == 0
  {
    if keys != {} {
      var k :| k in keys;
      SumRemove(keys, f, k);
      SumOfNonNegative(keys - {k}, f);
    }
  }

  // ---- The one-pass sum ----

  function ValueAt(m: map<string, int>, k: string): int { if k in m then m[k] else 0 }

  /** Adds up the values of a map. */
  method AddValues(loose: int, m: map<string, int>) returns (total: int)
    ensures total == loose + SumOver(m.Keys, k => ValueAt(m, k))
  {
    ghost var f := k => ValueAt(m, k);
    total := loose;
    var keys := m.Keys;
    while keys != {}
      invariant keys <= m.Keys
      invariant total + SumOver(keys, f) == loose + SumOver(m.Keys, f)
      decreases |keys|
    {
      var k :| k in keys;
      SumRemove(keys, f, k);
      total := total + m[k];
      keys := keys - {k};
    }
  }

  lemma {:induction false} AppendRow(rows: seq<Row>, m: Row, pick: Amount, keep: Filter)
    ensures LooseSum(rows + [m], pick, keep)
         == LooseSum(rows, pick, keep) + if keep(m) && !Pooled(m) then pick(m) else 0
    ensures Pools(rows + [m], keep)
         == Pools(rows, keep) + if keep(m) && Pooled(m) then {m.poolKey.value} else {}
    ensures forall k :: PoolMax(rows + [m], pick, keep, k)
                     == if keep(m) && InPool(m, k) then Max(pick(m), PoolMax(rows, pick, keep, k))
                        else PoolMax(rows, pick, keep, k)
  {
    if rows != [] {
      assert (rows + [m])[1..] == rows[1..] + [m];
      AppendRow(rows[1..], m, pick, keep);
    } else {
      assert (rows + [m])[1..] == [];
    }
  }

  lemma {:induction false} NoPoolNoMax(rows: seq<Row>, pick: Amount, keep: Filter, key: string)
    requires key !in Pools(rows, keep)
    ensures PoolMax(rows, pick, keep, key) == 0
  {
    if rows != [] {
      assert Pools(rows[1..], keep) <= Pools(rows, keep);
      NoPoolNoMax(rows[1..], pick, keep, key);
    }
  }

  lemma NoRows(pick: Amount, keep: Filter)
    ensures LooseSum([], pick, keep) == 0 && Pools([], keep) == {}
  {
  }

  method DedupedSum(rows: seq<Row>, pick: Amount, keep: Filter) returns (total: int)
    ensures total == Deduped(rows, pick, keep)
  {
    hide LooseSum, Pools, PoolMax;
    var poolMax: map<string, int> := map[];
    var loose := 0;
    NoRows(pick, keep);
    for i := 0 to |rows|
      invariant loose == LooseSum(rows[..i], pick, keep)
      invariant poolMax.Keys == Pools(rows[..i], keep)
      invariant forall k :: k in poolMax ==> poolMax[k] == PoolMax(rows[..i], pick, keep, k)
    {
      var m := rows[i];
      AppendRow(rows[..i], m, pick, keep);
      assert rows[..i + 1] == rows[..i] + [m];
      if keep(m) {
        if Pooled(m) {
          var key := m.poolKey.value;
          if key !in poolMax { NoPoolNoMax(rows[..i], pick, keep, key); }
          poolMax := poolMax[key := Max(if key in poolMax then poolMax[key] else 0, pick(m))];
        } else {
          loose := loose + pick(m);
        }
      }
    }
    assert rows[..|rows|] == rows;
    total := AddValues(loose, poolMax);
    SumEqual(poolMax.Keys, k => ValueAt(poolMax, k), k => PoolMax(rows, pick, keep, k));
  }

  // ---- Order does not matter ----

  lemma {:induction false} LooseInsert(a: seq<Row>, r: Row, b: seq<Row>, pick: Amount, keep: Filter)
    ensures LooseSum(a + [r] + b, pick, keep)
         == LooseSum(a + b, pick, keep) + if keep(r) && !Pooled(r) then pick(r) else 0
  {
    if a == [] {
      assert a + [r] + b == [r] + b && a + b == b;
    } else {
      assert (a + [r] + b)[1..] == a[1..] + [r] + b && (a + b)[1..] == a[1..] + b;
      LooseInsert(a[1..], r, b, pick, keep);
    }
  }

  lemma MultisetCancel<T>(e: T, m: multiset<T>, n: multiset<T>)
    requires multiset{e} + m == multiset{e} + n
    ensures m == n
  {
    assert m == (multiset{e} + m) - multiset{e};
    assert n == (multiset{e} + n) - multiset{e};
  }

  lemma FindFirst(a: seq<Row>, b: seq<Row>) returns (j: nat)
    requires multiset(a) == multiset(b) && a != []
    ensures j < |b| && b[j] == a[0] && multiset(a[1..]) == multiset(b[..j] + b[j + 1..])
  {
    assert a[0] in multiset(b);
    j :| j < |b| && b[j] == a[0];
    var x, y := b[..j], b[j + 1..];
    assert a == [a[0]] + a[1..] && b == x + ([b[j]] + y);
    assert multiset(a) == multiset{a[0]} + multiset(a[1..]);
    assert multiset(b) == multiset(x) + (multiset{b[j]} + multiset(y));
    assert multiset(x + y) == multiset(x) + multiset(y);
    MultisetCancel(a[0], multiset(a[1..]), multiset(x + y));
  }

  lemma {:induction false} LoosePermutation(a: seq<Row>, b: seq<Row>, pick: Amount, keep: Filter)
    requires multiset(a) == multiset(b)
    ensures LooseSum(a, pick, keep) == LooseSum(b, pick, keep)
  {
    if a == [] {
      assert |multiset(b)| == 0;
    } else {
      var j := FindFirst(a, b);
      LoosePermutation(a[1..], b[..j] + b[j + 1..], pick, keep);
      LooseInsert(b[..j], b[j], b[j + 1..], pick, keep);
      assert b == b[..j] + [b[j]] + b[j + 1..];
    }
  }

  /** The pool maximum is the least amount that is at least 0 and at least every row of the pool. */
  lemma {:induction false} PoolMaxIsLeast(rows: seq<Row>, pick: Amount, keep: Filter, key: string)
    ensures forall r :: r in rows && keep(r) && InPool(r, key) ==> pick(r) <= PoolMax(rows, pick, keep, key)
    ensures var m := PoolMax(rows, pick, keep, key);
            m == 0 || exists r :: r in rows && keep(r) && InPool(r, key) && pick(r) == m
  {
    if rows != [] {
      PoolMaxIsLeast(rows[1..], pick, keep, key);
      assert forall r :: r in rows <==> r == rows[0] || r in rows[1..];
    }
  }

  lemma PoolMaxSameRows(a: seq<Row>, b: seq<Row>, pick: Amount, keep: Filter, key: string)
    requires forall r :: r in a <==> r in b
    ensures PoolMax(a, pick, keep, key) == PoolMax(b, pick, keep, key)
  {
    PoolMaxIsLeast(a, pick, keep, key);
    PoolMaxIsLeast(b, pick, keep, key);
  }

  lemma SameRows(a: seq<Row>, b: seq<Row>)
    requires multiset(a) == multiset(b)
    ensures forall r :: r in a <==> r in b
  {
    forall r ensures r in a <==> r in b {
      assert r in a <==> r in multiset(a);
      assert r in b <==> r in multiset(b);
    }
  }

  /** The deduplicated sum does not depend on the order of the catalog. */
  lemma DedupedPermutation(a: seq<Row>, b: seq<Row>, pick: Amount, keep: Filter)
    requires multiset(a) == multiset(b)
    ensures Deduped(a, pick, keep) == Deduped(b, pick, keep)
  {
    SameRows(a, b);
    LoosePermutation(a, b, pick, keep);
    assert Pools(a, keep) == Pools(b, keep);
    forall k { PoolMaxSameRows(a, b, pick, keep, k); }
    SumEqual(Pools(a, keep), k => PoolMax(a, pick, keep, k), k => PoolMax(b, pick, keep, k));
  }

  // ---- One row more ----

  /** What a row adds to a catalog: all of it when loose, its excess over its pool when pooled. */
  function Marginal(rows: seq<Row>, r: Row, pick: Amount, keep: Filter): int {
    if !keep(r) then 0
    else if Pooled(r) then Max(0, pick(r) - PoolMax(rows, pick, keep, r.poolKey.value))
    else pick(r)
  }

  lemma ConsParts(r: Row, rows: seq<Row>, pick: Amount, keep: Filter)
    ensures LooseSum([r] + rows, pick, keep)
         == LooseSum(rows, pick, keep) + if keep(r) && !Pooled(r) then pick(r) else 0
    ensures Pools([r] + rows, keep) == Pools(rows, keep) + if keep(r) && Pooled(r) then {r.poolKey.value} else {}
    ensures forall k :: PoolMax([r] + rows, pick, keep, k)
                     == if keep(r) && InPool(r, k) then Max(pick(r), PoolMax(rows, pick, keep, k))
                        else PoolMax(rows, pick, keep, k)
  {
    assert ([r] + rows)[1..] == rows;
    assert r in [r] + rows;
  }

  lemma DedupedCons(r: Row, rows: seq<Row>, pick: Amount, keep: Filter)
    ensures Deduped([r] + rows, pick, keep) == Deduped(rows, pick, keep) + Marginal(rows, r, pick, keep)
  {
    hide PoolMax, LooseSum, Pools;
    ConsParts(r, rows, pick, keep);
    var f, g := k => PoolMax(rows, pick, keep, k), k => PoolMax([r] + rows, pick, keep, k);
    var p, q := Pools(rows, keep), Pools([r] + rows, keep);
    if keep(r) && Pooled(r) {
      var key := r.poolKey.value;
      SumRemove(q, g, key);
      SumEqual(q - {key}, g, f);
      if key in p {
        SumRemove(p, f, key);
        assert q - {key} == p - {key};
      } else {
        NoPoolNoMax(rows, pick, keep, key);
        assert q - {key} == p;
      }
    } else {
      assert q == p;
      SumEqual(p, f, g);
    }
  }

  /** A loose row adds its whole amount; one that its pool already covers adds nothing; one on top of its pool adds
    what it has more than the largest of the pool, or than nothing. */
  lemma MarginalIs(rows: seq<Row>, r: Row, q: Row, pick: Amount, keep: Filter)
    requires keep(r)
    ensures r.poolKey == None || r.poolKey.value == "" ==> Marginal(rows, r, pick, keep) == pick(r)
    ensures r.poolKey.Some? && r.poolKey.value != "" ==>
              && (q in rows && keep(q) && q.poolKey == r.poolKey
                  && (forall x :: x in rows && keep(x) && x.poolKey == r.poolKey ==> pick(x) <= pick(q))
                  ==> Marginal(rows, r, pick, keep)
                      == if pick(r) <= Max(0, pick(q)) then 0 else pick(r) - Max(0, pick(q)))
              && ((forall x :: x in rows && keep(x) ==> x.poolKey != r.poolKey)
                  ==> Marginal(rows, r, pick, keep) == Max(0, pick(r)))
  {
    if Pooled(r) { PoolMaxIsLeast(rows, pick, keep, r.poolKey.value); }
  }

  /** Adding a row anywhere adds exactly its marginal amount. */
  lemma DedupedInsert(a: seq<Row>, r: Row, b: seq<Row>, pick: Amount, keep: Filter)
    ensures Deduped(a + [r] + b, pick, keep) == Deduped(a + b, pick, keep) + Marginal(a + b, r, pick, keep)
    ensures pick(r) >= 0 ==> Deduped(a + [r] + b, pick, keep) >= Deduped(a + b, pick, keep)
  {
    assert multiset(a + [r] + b) == multiset([r] + (a + b));
    DedupedPermutation(a + [r] + b, [r] + (a + b), pick, keep);
    DedupedCons(r, a + b, pick, keep);
  }

  /** Raising one row raises the sum by no more than the raise. */
  lemma DedupedRaise(a: seq<Row>, r: Row, raised: Row, b: seq<Row>, pick: Amount, keep: Filter)
    requires raised.poolKey == r.poolKey && keep(raised) == keep(r) && pick(r) <= pick(raised)
    ensures var before, after := Deduped(a + [r] + b, pick, keep), Deduped(a + [raised] + b, pick, keep);
            before <= after <= before + (pick(raised) - pick(r))
  {
    DedupedInsert(a, r, b, pick, keep);
    DedupedInsert(a, raised, b, pick, keep);
  }

  // ---- Splitting by the eligibility gate ----

  function Open(keep: Filter): Filter { (r: Row) => keep(r) && !r.gated }

  function Gated(keep: Filter): Filter { (r: Row) => keep(r) && r.gated }

  lemma {:induction false} LooseSplit(rows: seq<Row>, pick: Amount, keep: Filter)
    ensures LooseSum(rows, pick, keep) == LooseSum(rows, pick, Open(keep)) + LooseSum(rows, pick, Gated(keep))
  {
    if rows != [] { LooseSplit(rows[1..], pick, keep); }
  }

  lemma {:induction false} PoolMaxSplit(rows: seq<Row>, pick: Amount, keep: Filter, key: string)
    ensures PoolMax(rows, pick, keep, key)
         == Max(PoolMax(rows, pick, Open(keep), key), PoolMax(rows, pick, Gated(keep), key))
  {
    if rows != [] { PoolMaxSplit(rows[1..], pick, keep, key); }
  }

  /** What the open and the gated side of the pools have in common, pool by pool. */
  ghost function Shared(rows: seq<Row>, pick: Amount, keep: Filter): int {
    SumOver(Pools(rows, keep), k => Min(PoolMax(rows, pick, Open(keep), k), PoolMax(rows, pick, Gated(keep), k)))
  }

  /** Both sides together are the sum that ignores the gate, plus what mixed pools count twice. */
  lemma SplitByGate(rows: seq<Row>, pick: Amount, keep: Filter)
    ensures Deduped(rows, pick, Open(keep)) + Deduped(rows, pick, Gated(keep))
         == Deduped(rows, pick, keep) + Shared(rows, pick, keep)
  {
    var open, gated := Open(keep), Gated(keep);
    var all := Pools(rows, keep);
    var f, g := k => PoolMax(rows, pick, open, k), k => PoolMax(rows, pick, gated, k);
    LooseSplit(rows, pick, keep);
    forall k | k !in Pools(rows, open) ensures f(k) == 0 { NoPoolNoMax(rows, pick, open, k); }
    forall k | k !in Pools(rows, gated) ensures g(k) == 0 { NoPoolNoMax(rows, pick, gated, k); }
    SumExtend(Pools(rows, open), all, f);
    SumExtend(Pools(rows, gated), all, g);
    SumMaxMin(all, f, g);
    forall k { PoolMaxSplit(rows, pick, keep, k); }
    SumEqual(all, k => Max(f(k), g(k)), k => PoolMax(rows, pick, keep, k));
    SumEqual(all, k => Min(f(k), g(k)),
             k => Min(PoolMax(rows, pick, Open(keep), k), PoolMax(rows, pick, Gated(keep), k)));
  }

  lemma {:induction false} LooseNonNegative(rows: seq<Row>, pick: Amount, keep: Filter)
    requires forall r :: r in rows ==> pick(r) >= 0
    ensures LooseSum(rows, pick, keep) >= 0
  {
    if rows != [] { LooseNonNegative(rows[1..], pick, keep); }
  }

  lemma DedupedNonNegative(rows: seq<Row>, pick: Amount, keep: Filter)
    requires forall r :: r in rows ==> pick(r) >= 0
    ensures Deduped(rows, pick, keep) >= 0
  {
    LooseNonNegative(rows, pick, keep);
    SumOfNonNegative(Pools(rows, keep), k => PoolMax(rows, pick, keep, k));
  }

  /** An open and a gated row of one pool, both counted. */
  predicate MixesPool(r: Row, q: Row, keep: Filter) {
    keep(r) && keep(q) && !r.gated && q.gated && Pooled(r) && Pooled(q) && r.poolKey == q.poolKey
  }

  /** No pool grants something to both sides of the gate. */
  predicate NoMixedPool(rows: seq<Row>, pick: Amount, keep: Filter) {
    forall r, q :: r in rows && q in rows && MixesPool(r, q, keep) ==> pick(r) <= 0 || pick(q) <= 0
  }

  lemma PoolSharesIffMixed(rows: seq<Row>, pick: Amount, keep: Filter, key: string)
    ensures Min(PoolMax(rows, pick, Open(keep), key), PoolMax(rows, pick, Gated(keep), key)) == 0
       <==> forall r, q :: r in rows && q in rows && MixesPool(r, q, keep) && InPool(r, key)
                           ==> pick(r) <= 0 || pick(q) <= 0
  {
    PoolMaxIsLeast(rows, pick, Open(keep), key);
    PoolMaxIsLeast(rows, pick, Gated(keep), key);
    var f, g := PoolMax(rows, pick, Open(keep), key), PoolMax(rows, pick, Gated(keep), key);
    if f > 0 && g > 0 {
      var r :| r in rows && Open(keep)(r) && InPool(r, key) && pick(r) == f;
      var q :| q in rows && Gated(keep)(q) && InPool(q, key) && pick(q) == g;
      assert MixesPool(r, q, keep);
    } else {
      forall r, q | r in rows && q in rows && MixesPool(r, q, keep) && InPool(r, key)
        ensures pick(r) <= 0 || pick(q) <= 0
      {
        assert Open(keep)(r) && Gated(keep)(q) && InPool(q, key);
      }
    }
  }

  lemma PoolOf(r: Row)
    requires Pooled(r)
    ensures InPool(r, r.poolKey.value)
  {
  }

  lemma SharedIffMixed(rows: seq<Row>, pick: Amount, keep: Filter)
    ensures Shared(rows, pick, keep) >= 0
    ensures Shared(rows, pick, keep) == 0 <==> NoMixedPool(rows, pick, keep)
  {
    hide PoolMax, InPool;
    var f := k => Min(PoolMax(rows, pick, Open(keep), k), PoolMax(rows, pick, Gated(keep), k));
    var all := Pools(rows, keep);
    SumOfNonNegative(all, f);
    SumEqual(all, f, k => Min(PoolMax(rows, pick, Open(keep), k), PoolMax(rows, pick, Gated(keep), k)));
    if NoMixedPool(rows, pick, keep) {
      forall k | k in all ensures f(k) == 0 { PoolSharesIffMixed(rows, pick, keep, k); }
    } else {
      var r, q :| r in rows && q in rows && MixesPool(r, q, keep) && pick(r) > 0 && pick(q) > 0;
      PoolSharesIffMixed(rows, pick, keep, r.poolKey.value);
      assert InPool(r, r.poolKey.value) by { PoolOf(r); }
      assert r.poolKey.value in all && f(r.poolKey.value) != 0;
    }
  }

  lemma {:induction false} SumMonotone(keys: set<string>, f: string -> int, g: string -> int)
    requires forall k :: k in keys ==> f(k) <= g(k)
    ensures SumOver(keys, f) <= SumOver(keys, g)
  {
    if keys != {} {
      var k :| k in keys;
      SumRemove(keys, f, k);
      SumRemove(keys, g, k);
      SumMonotone(keys - {k}, f, g);
    }
  }

  lemma SharedAtMost(rows: seq<Row>, pick: Amount, keep: Filter)
    requires forall r :: r in rows ==> pick(r) >= 0
    ensures Shared(rows, pick, keep) <= Deduped(rows, pick, Open(keep))
    ensures Shared(rows, pick, keep) <= Deduped(rows, pick, Gated(keep))
  {
    var all := Pools(rows, keep);
    var f, g := k => PoolMax(rows, pick, Open(keep), k), k => PoolMax(rows, pick, Gated(keep), k);
    forall k | k !in Pools(rows, Open(keep)) ensures f(k) == 0 { NoPoolNoMax(rows, pick, Open(keep), k); }
    forall k | k !in Pools(rows, Gated(keep)) ensures g(k) == 0 { NoPoolNoMax(rows, pick, Gated(keep), k); }
    SumExtend(Pools(rows, Open(keep)), all, f);
    SumExtend(Pools(rows, Gated(keep)), all, g);
    LooseNonNegative(rows, pick, Open(keep));
    LooseNonNegative(rows, pick, Gated(keep));
    var h := k => Min(PoolMax(rows, pick, Open(keep), k), PoolMax(rows, pick, Gated(keep), k));
    SumMonotone(all, h, f);
    SumMonotone(all, h, g);
  }

  /** The gate splits a catalog of non-negative rows into two figures that bound the whole. */
  lemma SplitLaw(rows: seq<Row>, pick: Amount, keep: Filter)
    requires forall r :: r in rows ==> pick(r) >= 0
    ensures var open, gated, whole :=
              Deduped(rows, pick, Open(keep)), Deduped(rows, pick, Gated(keep)), Deduped(rows, pick, keep);
            && Max(open, gated) <= whole <= open + gated
            && (whole == open + gated <==> NoMixedPool(rows, pick, keep))
  {
    SplitByGate(rows, pick, keep);
    SharedIffMixed(rows, pick, keep);
    SharedAtMost(rows, pick, keep);
  }

  // ---- The totals ----

  datatype Boost = Boost(pool: string, tokens: int)

  datatype Totals = Totals(
    steady: int, steadyWithCredits: int, firstMonth: int, gated: int, boost: int,
    uncappedProviders: seq<string>, gatedProviders: seq<string>, modelCount: nat, poolCount: nat,
    perModel: seq<Row>, headline: string)

  function Monthly(r: Row): int { r.monthlyTokens }

  function Credits(r: Row): int { r.creditTokens }

  /** The rows whose regime feeds figure `b`. */
  function Feeds(b: Bucket): Filter { (r: Row) => r.freeType in FreeTypesInBucket(b) }

  /** The rows a caller asked to count. */
  function Counted(catalog: seq<Row>, excludeTosAvoid: bool): seq<Row> {
    if catalog == [] then []
    else (if !(excludeTosAvoid && catalog[0].tosAvoid) && catalog[0].enabled then [catalog[0]] else [])
         + Counted(catalog[1..], excludeTosAvoid)
  }

  function Providers(rows: seq<Row>, keep: Filter): set<string> {
    set r | r in rows && keep(r) :: r.provider
  }

  function ProviderNames(rows: seq<Row>, keep: Filter): (names: seq<string>)
    ensures forall x :: x in names <==> x in Providers(rows, keep)
  {
    if rows == [] then []
    else (if keep(rows[0]) then [rows[0].provider] else []) + ProviderNames(rows[1..], keep)
  }

  /** `fmt` prints an amount. */
  function Headline(steady: int, firstMonth: int, fmt: int -> string): string {
    "~" + fmt(steady) + " documented free tokens/month (steady), up to ~" + fmt(firstMonth)
    + " in your first month with signup credits"
  }

  function BoostSum(boosts: seq<Boost>, live: set<string>): int {
    if boosts == [] then 0
    else (if boosts[0].pool in live then boosts[0].tokens else 0) + BoostSum(boosts[1..], live)
  }

  ghost function TotalsOf(catalog: seq<Row>, excludeTosAvoid: bool, boosts: seq<Boost>, fmt: int -> string): Totals {
    var rows := Counted(catalog, excludeTosAvoid);
    var steady := Deduped(rows, Monthly, Open(Feeds(SteadyMonthly)));
    var withCredits := steady + Deduped(rows, Credits, Open(Feeds(RecurringCredits)));
    var firstMonth := withCredits + Deduped(rows, Credits, Open(Feeds(OneTimeCredits)));
    Totals(
      steady,
      withCredits,
      firstMonth,
      Deduped(rows, Monthly, Gated(Feeds(SteadyMonthly))),
      BoostSum(boosts, Pools(rows, Open(Feeds(SteadyMonthly)))),
      SortedNames(Providers(rows, Open(Feeds(Uncapped)))),
      SortedNames(Providers(rows, Gated(Feeds(SteadyMonthly)))),
      |rows|,
      |Pools(rows, Open(Feeds(SteadyMonthly)))|,
      SortedBy(rows, Monthly),
      Headline(steady, firstMonth, fmt))
  }

  method SortedProviders(rows: seq<Row>, keep: Filter) returns (names: seq<string>)
    ensures names == SortedNames(Providers(rows, keep))
  {
    names := SortNames(ProviderNames(rows, keep));
    assert (set x | x in ProviderNames(rows, keep)) == Providers(rows, keep);
  }

  method ComputeFreeModelTotals(catalog: seq<Row>, excludeTosAvoid: bool, boosts: seq<Boost>, fmt: int -> string)
    returns (t: Totals)
    ensures t == TotalsOf(catalog, excludeTosAvoid, boosts, fmt)
  {
    hide Deduped, Counted, Pools, Providers, BoostSum, SortedBy, Headline, FreeTypesInBucket, Open, Gated, Feeds,
         SortedNames, Lists;
    var rows := Counted(catalog, excludeTosAvoid);
    var steady := DedupedSum(rows, Monthly, Open(Feeds(SteadyMonthly)));
    var gated := DedupedSum(rows, Monthly, Gated(Feeds(SteadyMonthly)));
    var recurringCredits := DedupedSum(rows, Credits, Open(Feeds(RecurringCredits)));
    var oneTimeCredits := DedupedSum(rows, Credits, Open(Feeds(OneTimeCredits)));
    var gatedProviders := SortedProviders(rows, Gated(Feeds(SteadyMonthly)));
    var uncappedProviders := SortedProviders(rows, Open(Feeds(Uncapped)));
    var livePools := Pools(rows, Open(Feeds(SteadyMonthly)));
    var withCredits := steady + recurringCredits;
    var firstMonth := withCredits + oneTimeCredits;
    t := Totals(
      steady, withCredits, firstMonth, gated, BoostSum(boosts, livePools), uncappedProviders, gatedProviders,
      |rows|, |livePools|, SortedBy(rows, Monthly), Headline(steady, firstMonth, fmt));
  }

  lemma CountedCons(r: Row, rows: seq<Row>, excludeTosAvoid: bool)
    ensures Counted([r] + rows, excludeTosAvoid) == Counted([r], excludeTosAvoid) + Counted(rows, excludeTosAvoid)
  {
    assert ([r] + rows)[1..] == rows;
  }

  lemma {:induction false} CountedConcat(a: seq<Row>, b: seq<Row>, excludeTosAvoid: bool)
    ensures Counted(a + b, excludeTosAvoid) == Counted(a, excludeTosAvoid) + Counted(b, excludeTosAvoid)
  {
    if a == [] {
      assert a + b == b;
    } else {
      var rest := a[1..];
      ConcatAssociates([a[0]], rest, b);
      assert a == [a[0]] + rest;
      CountedCons(a[0], rest, excludeTosAvoid);
      CountedCons(a[0], rest + b, excludeTosAvoid);
      CountedConcat(rest, b, excludeTosAvoid);
      ConcatAssociates(Counted([a[0]], excludeTosAvoid), Counted(rest, excludeTosAvoid), Counted(b, excludeTosAvoid));
    }
    hide Counted;
  }

  lemma CountedSkips(a: seq<Row>, r: Row, b: seq<Row>, excludeTosAvoid: bool)
    requires !r.enabled || (excludeTosAvoid && r.tosAvoid)
    ensures Counted(a + [r] + b, excludeTosAvoid) == Counted(a + b, excludeTosAvoid)
  {
    CountedConcat(a + [r], b, excludeTosAvoid);
    CountedConcat(a, [r], excludeTosAvoid);
    CountedConcat(a, b, excludeTosAvoid);
    assert Counted([r], excludeTosAvoid) == [];
    assert Counted(a, excludeTosAvoid) + [] == Counted(a, excludeTosAvoid);
  }

  /** A row with `enabled` false gives exactly the totals of its absence. */
  lemma {:induction false} DisabledIsAbsent(a: seq<Row>, r: Row, b: seq<Row>, excludeTosAvoid: bool,
                                            boosts: seq<Boost>, fmt: int -> string)
    requires !r.enabled || (excludeTosAvoid && r.tosAvoid)
    ensures TotalsOf(a + [r] + b, excludeTosAvoid, boosts, fmt) == TotalsOf(a + b, excludeTosAvoid, boosts, fmt)
  {
    hide Deduped, Counted, Pools, Providers, BoostSum, SortedBy, Headline;
    CountedSkips(a, r, b, excludeTosAvoid);
  }

  lemma {:induction false} CountedRemove(rows: seq<Row>, j: nat, excludeTosAvoid: bool)
    requires j < |rows|
    ensures multiset(Counted(rows, excludeTosAvoid))
         == multiset(Counted(rows[..j] + rows[j + 1..], excludeTosAvoid))
            + multiset(Counted([rows[j]], excludeTosAvoid))
  {
    assert rows == rows[..j] + ([rows[j]] + rows[j + 1..]);
    CountedConcat(rows[..j], [rows[j]] + rows[j + 1..], excludeTosAvoid);
    CountedConcat([rows[j]], rows[j + 1..], excludeTosAvoid);
    CountedConcat(rows[..j], rows[j + 1..], excludeTosAvoid);
  }

  lemma {:induction false} CountedPermutation(a: seq<Row>, b: seq<Row>, excludeTosAvoid: bool)
    requires multiset(a) == multiset(b)
    ensures multiset(Counted(a, excludeTosAvoid)) == multiset(Counted(b, excludeTosAvoid))
  {
    hide Counted;
    if a == [] {
      assert |multiset(b)| == 0;
    } else {
      var j := FindFirst(a, b);
      CountedRemove(b, j, excludeTosAvoid);
      CountedRemove(a, 0, excludeTosAvoid);
      assert a[..0] + a[1..] == a[1..];
      CountedPermutation(a[1..], b[..j] + b[j + 1..], excludeTosAvoid);
    }
  }

  lemma SameSets(x: seq<Row>, y: seq<Row>, keep: Filter)
    requires multiset(x) == multiset(y)
    ensures Pools(x, keep) == Pools(y, keep) && Providers(x, keep) == Providers(y, keep) && |x| == |y|
  {
    SameRows(x, y);
    assert |x| == |multiset(x)| == |multiset(y)| == |y|;
  }

  /** No figure and no list of providers depends on the order of the catalog, and the list of rows only in
    how it orders rows of equal amount. */
  lemma TotalsPermutation(a: seq<Row>, b: seq<Row>, excludeTosAvoid: bool, boosts: seq<Boost>, fmt: int -> string)
    requires multiset(a) == multiset(b)
    ensures var t, u := TotalsOf(a, excludeTosAvoid, boosts, fmt), TotalsOf(b, excludeTosAvoid, boosts, fmt);
            && t == u.(perModel := t.perModel)
            && multiset(t.perModel) == multiset(u.perModel)
            && Falling(t.perModel, Monthly) && Falling(u.perModel, Monthly)
  {
    hide Deduped, Counted, Pools, Providers, SortedBy, Falling, OfWeight;
    CountedPermutation(a, b, excludeTosAvoid);
    var x, y := Counted(a, excludeTosAvoid), Counted(b, excludeTosAvoid);
    SameSets(x, y, Open(Feeds(SteadyMonthly)));
    SameSets(x, y, Open(Feeds(Uncapped)));
    SameSets(x, y, Gated(Feeds(SteadyMonthly)));
    DedupedPermutation(x, y, Monthly, Open(Feeds(SteadyMonthly)));
    DedupedPermutation(x, y, Monthly, Gated(Feeds(SteadyMonthly)));
    DedupedPermutation(x, y, Credits, Open(Feeds(RecurringCredits)));
    DedupedPermutation(x, y, Credits, Open(Feeds(OneTimeCredits)));
    SortedByIs(x, Monthly, 0);
    SortedByIs(y, Monthly, 0);
  }

  predicate NonNegative(rows: seq<Row>) {
    forall r :: r in rows ==> r.monthlyTokens >= 0 && r.creditTokens >= 0
  }

  lemma {:induction false} CountedAreRows(catalog: seq<Row>, excludeTosAvoid: bool)
    ensures forall r :: r in Counted(catalog, excludeTosAvoid) ==> r in catalog
  {
    if catalog != [] { CountedAreRows(catalog[1..], excludeTosAvoid); }
  }

  /** The figures are nested, and the gate splits the steady tokens. */
  lemma TotalsAreNested(catalog: seq<Row>, excludeTosAvoid: bool, boosts: seq<Boost>, fmt: int -> string)
    requires NonNegative(catalog)
    ensures var t, whole := TotalsOf(catalog, excludeTosAvoid, boosts, fmt),
                            Deduped(Counted(catalog, excludeTosAvoid), Monthly, Feeds(SteadyMonthly));
            && 0 <= t.steady <= t.steadyWithCredits <= t.firstMonth
            && Max(t.steady, t.gated) <= whole <= t.steady + t.gated
  {
    var rows := Counted(catalog, excludeTosAvoid);
    CountedAreRows(catalog, excludeTosAvoid);
    hide Deduped, Counted;
    DedupedNonNegative(rows, Monthly, Open(Feeds(SteadyMonthly)));
    DedupedNonNegative(rows, Credits, Open(Feeds(RecurringCredits)));
    DedupedNonNegative(rows, Credits, Open(Feeds(OneTimeCredits)));
    SplitLaw(rows, Monthly, Feeds(SteadyMonthly));
  }

  /** A row moves the one figure of its own bucket and its own side of the gate, by its marginal amount, and
    no other. */
  lemma RowFeedsOneFigure(rows: seq<Row>, r: Row, pick: Amount, b: Bucket)
    ensures Deduped([r] + rows, pick, Open(Feeds(b)))
         == Deduped(rows, pick, Open(Feeds(b)))
            + if b == BucketOf(r.freeType) && !r.gated then Marginal(rows, r, pick, Open(Feeds(b))) else 0
    ensures Deduped([r] + rows, pick, Gated(Feeds(b)))
         == Deduped(rows, pick, Gated(Feeds(b)))
            + if b == BucketOf(r.freeType) && r.gated then Marginal(rows, r, pick, Gated(Feeds(b))) else 0
  {
    hide Deduped;
    DedupedCons(r, rows, pick, Open(Feeds(b)));
    DedupedCons(r, rows, pick, Gated(Feeds(b)));
  }

  // ---- What each regime feeds ----

  /** Rows of the given regimes on one side of the gate. */
  function Among(types: set<FreeType>, gated: bool): Filter {
    (r: Row) => r.freeType in types && r.gated == gated
  }

  const STEADY_TYPES := {RecurringDaily, RecurringMonthly, Keyless}

  lemma {:induction false} PoolMaxSame(
    rows: seq<Row>, pick: Amount, other: Amount, keep: Filter, same: Filter, key: string)
    requires forall r :: pick(r) == other(r) && keep(r) == same(r)
    ensures PoolMax(rows, pick, keep, key) == PoolMax(rows, other, same, key)
  {
    if rows != [] { PoolMaxSame(rows[1..], pick, other, keep, same, key); }
  }

  lemma MarginalSame(rows: seq<Row>, r: Row, pick: Amount, other: Amount, keep: Filter, same: Filter)
    requires forall x :: pick(x) == other(x) && keep(x) == same(x)
    ensures Marginal(rows, r, pick, keep) == Marginal(rows, r, other, same)
  {
    if Pooled(r) { PoolMaxSame(rows, pick, other, keep, same, r.poolKey.value); }
  }

  /** What a row adds to the monthly tokens of its regimes and side of the gate. */
  function MoreMonthly(rows: seq<Row>, r: Row, types: set<FreeType>): int {
    Marginal(rows, r, (x: Row) => x.monthlyTokens, Among(types, r.gated))
  }

  /** What a row adds to the credits of its regime. */
  function MoreCredits(rows: seq<Row>, r: Row, types: set<FreeType>): int {
    Marginal(rows, r, (x: Row) => x.creditTokens, Among(types, r.gated))
  }

  lemma SteadyFilter(b: Bucket, types: set<FreeType>, gated: bool)
    requires b == SteadyMonthly ==> types == STEADY_TYPES
    requires b == RecurringCredits ==> types == {RecurringCredit}
    requires b == OneTimeCredits ==> types == {OneTimeInitial}
    requires b == Uncapped ==> types == {RecurringUncapped}
    requires b != NoBucket
    ensures forall r :: (if gated then Gated(Feeds(b)) else Open(Feeds(b)))(r) == Among(types, gated)(r)
  {
  }

  /** The rows of `r`'s regime and side already use its pool. */
  predicate SharesPool(rows: seq<Row>, r: Row, types: set<FreeType>) {
    exists q :: q in rows && q.freeType in types && q.gated == r.gated && q.poolKey == r.poolKey
  }

  function BoostOf(boosts: seq<Boost>, pool: string): int {
    if boosts == [] then 0
    else (if boosts[0].pool == pool then boosts[0].tokens else 0) + BoostOf(boosts[1..], pool)
  }

  lemma {:induction false} BoostSumAdds(boosts: seq<Boost>, live: set<string>, pool: string)
    requires pool !in live
    ensures BoostSum(boosts, live + {pool}) == BoostSum(boosts, live) + BoostOf(boosts, pool)
  {
    if boosts != [] { BoostSumAdds(boosts[1..], live, pool); }
  }

  lemma CountedFirst(catalog: seq<Row>, r: Row, excludeTosAvoid: bool)
    requires r.enabled && !(excludeTosAvoid && r.tosAvoid)
    ensures Counted([r] + catalog, excludeTosAvoid) == [r] + Counted(catalog, excludeTosAvoid)
  {
    assert ([r] + catalog)[1..] == catalog;
  }

  lemma DedupedMore(r: Row, rows: seq<Row>, b: Bucket, types: set<FreeType>, gated: bool)
    requires b == SteadyMonthly ==> types == STEADY_TYPES
    requires b == RecurringCredits ==> types == {RecurringCredit}
    requires b == OneTimeCredits ==> types == {OneTimeInitial}
    requires b == SteadyMonthly || b == RecurringCredits || b == OneTimeCredits
    ensures var keep := if gated then Gated(Feeds(b)) else Open(Feeds(b));
            var fed := r.freeType in types && r.gated == gated;
            && Deduped([r] + rows, Monthly, keep)
               == Deduped(rows, Monthly, keep) + (if fed then MoreMonthly(rows, r, types) else 0)
            && Deduped([r] + rows, Credits, keep)
               == Deduped(rows, Credits, keep) + (if fed then MoreCredits(rows, r, types) else 0)
  {
    hide Deduped;
    var keep := if gated then Gated(Feeds(b)) else Open(Feeds(b));
    SteadyFilter(b, types, gated);
    DedupedCons(r, rows, Monthly, keep);
    DedupedCons(r, rows, Credits, keep);
    MarginalSame(rows, r, Monthly, (x: Row) => x.monthlyTokens, keep, Among(types, gated));
    MarginalSame(rows, r, Credits, (x: Row) => x.creditTokens, keep, Among(types, gated));
  }

  /** The four figures, by the regime of one more row. */
  lemma {:induction false} FiguresByRegime(catalog: seq<Row>, r: Row, excludeTosAvoid: bool,
                                           boosts: seq<Boost>, fmt: int -> string)
    requires r.enabled && !(excludeTosAvoid && r.tosAvoid)
    ensures var t, u := TotalsOf(catalog, excludeTosAvoid, boosts, fmt),
                        TotalsOf([r] + catalog, excludeTosAvoid, boosts, fmt);
            var rows := Counted(catalog, excludeTosAvoid);
            var steady, recurring, once :=
              (if r.freeType in {RecurringDaily, RecurringMonthly, Keyless}
               then MoreMonthly(rows, r, STEADY_TYPES) else 0),
              (if r.freeType == RecurringCredit then MoreCredits(rows, r, {RecurringCredit}) else 0),
              (if r.freeType == OneTimeInitial then MoreCredits(rows, r, {OneTimeInitial}) else 0);
            if r.gated then
              u.steady == t.steady && u.steadyWithCredits == t.steadyWithCredits && u.firstMonth == t.firstMonth
              && u.gated == t.gated + steady
            else
              u.gated == t.gated && u.steady == t.steady + steady
              && u.steadyWithCredits == t.steadyWithCredits + steady + recurring
              && u.firstMonth == t.firstMonth + steady + recurring + once
  {
    hide Deduped, Counted, Pools, Providers, BoostSum, SortedBy, SortedNames, Lists, Headline, Marginal;
    var rows := Counted(catalog, excludeTosAvoid);
    CountedFirst(catalog, r, excludeTosAvoid);
    DedupedMore(r, rows, SteadyMonthly, STEADY_TYPES, false);
    DedupedMore(r, rows, SteadyMonthly, STEADY_TYPES, true);
    DedupedMore(r, rows, RecurringCredits, {RecurringCredit}, false);
    DedupedMore(r, rows, OneTimeCredits, {OneTimeInitial}, false);
  }

  lemma ProvidersMore(r: Row, rows: seq<Row>, keep: Filter)
    ensures Providers([r] + rows, keep) == Providers(rows, keep) + if keep(r) then {r.provider} else {}
    ensures Pools([r] + rows, keep) == Pools(rows, keep) + if keep(r) && Pooled(r) then {r.poolKey.value} else {}
  {
    assert r in [r] + rows;
  }

  lemma NewPool(rows: seq<Row>, r: Row)
    requires Pooled(r) && !r.gated
    ensures r.poolKey.value in Pools(rows, Open(Feeds(SteadyMonthly))) <==> SharesPool(rows, r, STEADY_TYPES)
  {
    SteadyFilter(SteadyMonthly, STEADY_TYPES, false);
    hide Open, Feeds;
  }

  /** A row opens a pool of steady tokens: it is the first of its pool that everyone may use. */
  predicate OpensPool(rows: seq<Row>, r: Row) {
    r.freeType in {RecurringDaily, RecurringMonthly, Keyless} && !r.gated && r.poolKey.Some? && r.poolKey.value != ""
    && !SharesPool(rows, r, STEADY_TYPES)
  }

  lemma PoolSetMore(r: Row, rows: seq<Row>)
    ensures var p, q := Pools(rows, Open(Feeds(SteadyMonthly))), Pools([r] + rows, Open(Feeds(SteadyMonthly)));
            if OpensPool(rows, r) then r.poolKey.value !in p && q == p + {r.poolKey.value} else q == p
  {
    var keep := Open(Feeds(SteadyMonthly));
    ProvidersMore(r, rows, keep);
    SteadyFilter(SteadyMonthly, STEADY_TYPES, false);
    assert keep(r) <==> r.freeType in STEADY_TYPES && !r.gated;
    if Pooled(r) && !r.gated { NewPool(rows, r); }
    hide Open, Feeds, Pools, SharesPool;
  }

  lemma PoolsMore(r: Row, rows: seq<Row>, boosts: seq<Boost>)
    ensures var p, q := Pools(rows, Open(Feeds(SteadyMonthly))), Pools([r] + rows, Open(Feeds(SteadyMonthly)));
            && |q| == |p| + (if OpensPool(rows, r) then 1 else 0)
            && BoostSum(boosts, q)
               == BoostSum(boosts, p) + (if OpensPool(rows, r) then BoostOf(boosts, r.poolKey.value) else 0)
  {
    PoolSetMore(r, rows);
    assert OpensPool(rows, r) ==> r.poolKey.Some?;
    hide Pools, BoostSum, OpensPool, Open, Feeds;
    if OpensPool(rows, r) { BoostSumAdds(boosts, Pools(rows, Open(Feeds(SteadyMonthly))), r.poolKey.value); }
  }

  lemma NamesMore(r: Row, rows: seq<Row>, b: Bucket, types: set<FreeType>, gated: bool)
    requires (b == SteadyMonthly && types == STEADY_TYPES) || (b == Uncapped && types == {RecurringUncapped})
    ensures var keep := if gated then Gated(Feeds(b)) else Open(Feeds(b));
            forall p :: p in SortedNames(Providers([r] + rows, keep)) <==>
              p in SortedNames(Providers(rows, keep)) || (r.freeType in types && r.gated == gated && p == r.provider)
  {
    hide SortedNames, Providers, Ascending;
    var keep := if gated then Gated(Feeds(b)) else Open(Feeds(b));
    SteadyFilter(b, types, gated);
    ProvidersMore(r, rows, keep);
    hide Open, Gated, Feeds;
  }

  /** Everything else the totals hold, by the regime of one more row. */
  lemma {:induction false} ListsByRegime(catalog: seq<Row>, r: Row, excludeTosAvoid: bool,
                                         boosts: seq<Boost>, fmt: int -> string)
    requires r.enabled && !(excludeTosAvoid && r.tosAvoid)
    ensures var t, u := TotalsOf(catalog, excludeTosAvoid, boosts, fmt),
                        TotalsOf([r] + catalog, excludeTosAvoid, boosts, fmt);
            var opens := OpensPool(Counted(catalog, excludeTosAvoid), r);
            && u.poolCount == t.poolCount + (if opens then 1 else 0)
            && u.boost == t.boost + (if opens then BoostOf(boosts, r.poolKey.value) else 0)
            && u.modelCount == t.modelCount + 1
            && (forall p :: p in u.uncappedProviders <==>
                  p in t.uncappedProviders || (r.freeType == RecurringUncapped && !r.gated && p == r.provider))
            && (forall p :: p in u.gatedProviders <==>
                  p in t.gatedProviders
                  || (r.freeType in {RecurringDaily, RecurringMonthly, Keyless} && r.gated && p == r.provider))
  {
    hide Deduped, Counted, Pools, Providers, BoostSum, SortedBy, Headline, SortedNames, OpensPool, Lists;
    hide Open, Gated, Feeds;
    var rows := Counted(catalog, excludeTosAvoid);
    CountedFirst(catalog, r, excludeTosAvoid);
    PoolsMore(r, rows, boosts);
    NamesMore(r, rows, Uncapped, {RecurringUncapped}, false);
    NamesMore(r, rows, SteadyMonthly, STEADY_TYPES, true);
  }

  lemma FallingTokens(rows: seq<Row>)
    requires Falling(rows, Monthly)
    ensures forall i, j :: 0 <= i < j < |rows| ==> rows[i].monthlyTokens >= rows[j].monthlyTokens
  {
  }

  lemma {:induction false} NoBoost(boosts: seq<Boost>)
    ensures BoostSum(boosts, {}) == 0
  {
    if boosts != [] { NoBoost(boosts[1..]); }
  }

  lemma EmptyTotals(excludeTosAvoid: bool, boosts: seq<Boost>, fmt: int -> string)
    ensures var t := TotalsOf([], excludeTosAvoid, boosts, fmt);
            && t.steady == t.steadyWithCredits == t.firstMonth == t.gated == t.boost == 0
            && t.uncappedProviders == t.gatedProviders == [] && t.modelCount == t.poolCount == 0 && t.perModel == []
  {
    NoBoost(boosts);
    forall keep: Filter ensures Pools([], keep) == {} && Providers([], keep) == {} {}
    hide Headline;
  }

  /** With no rows every figure is 0 and every list empty; and what the totals list and say. */
  lemma TotalsShow(catalog: seq<Row>, excludeTosAvoid: bool, boosts: seq<Boost>, fmt: int -> string)
    ensures var t := TotalsOf([], excludeTosAvoid, boosts, fmt);
            && t.steady == t.steadyWithCredits == t.firstMonth == t.gated == t.boost == 0
            && t.uncappedProviders == t.gatedProviders == [] && t.modelCount == t.poolCount == 0 && t.perModel == []
    ensures var t := TotalsOf(catalog, excludeTosAvoid, boosts, fmt);
            && multiset(t.perModel) == multiset(Counted(catalog, excludeTosAvoid))
            && (forall i, j :: 0 <= i < j < |t.perModel| ==> t.perModel[i].monthlyTokens >= t.perModel[j].monthlyTokens)
            && t.headline == "~" + fmt(t.steady) + " documented free tokens/month (steady), up to ~" + fmt(t.firstMonth)
                             + " in your first month with signup credits"
  {
    EmptyTotals(excludeTosAvoid, boosts, fmt);
    hide Deduped, Counted, Pools, Providers, BoostSum, SortedBy, SortedNames, Lists, Open, Gated, Feeds;
    hide Falling, OfWeight;
    SortedByIs(Counted(catalog, excludeTosAvoid), Monthly, 0);
    FallingTokens(SortedBy(Counted(catalog, excludeTosAvoid), Monthly));
  }
}
