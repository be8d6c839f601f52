/** Merging the betas a client negotiated into the `anthropic-beta` header of the proxy.

  The header is a comma list. `Merged` reads both lists, keeps the base list and appends the client
  tokens that are allowed and new, comparing without case.
 */
module AnthropicHeaders {
  import opened JsString
  import opened Basics

  const CONTEXT_1M := "context-1m-2025-08-07"

  // ---- Comma lists ----

  function Cleaned(fields: seq<string>): seq<string> {
    if fields == [] then []
    else (if Trim(fields[0]) != "" then [Trim(fields[0])] else []) + Cleaned(fields[1..])
  }

  predicate IsToken(t: string) { t != "" && Trimmed(t) && ',' !in t }

  lemma {:induction false} CleanedAreTokens(fields: seq<string>)
    requires forall f :: f in fields ==> ',' !in f
    ensures forall t :: t in Cleaned(fields) ==> IsToken(t)
  {
    hide Trimmed;
    if fields != [] {
      CleanedAreTokens(fields[1..]);
      assert fields[0] in fields;
    }
  }

  /** The tokens of a comma list, trimmed, the empty ones dropped. */
  function Tokens(list: string): (r: seq<string>)
    ensures forall t :: t in r ==> IsToken(t)
  {
    CleanedAreTokens(Split(list, ','));
    Cleaned(Split(list, ','))
  }

  lemma CleanedCons(f: string, fields: seq<string>)
    ensures Cleaned([f] + fields) == Cleaned([f]) + Cleaned(fields)
  {
    hide Trim;
    assert ([f] + fields)[1..] == fields;
  }

  lemma {:induction false} CleanedConcat(a: seq<string>, b: seq<string>)
    ensures Cleaned(a + b) == Cleaned(a) + Cleaned(b)
  {
    if a == [] {
      assert a + b == b;
    } else {
      var rest := a[1..];
      ConcatAssociates([a[0]], rest, b);
      assert a == [a[0]] + rest;
      CleanedCons(a[0], rest);
      CleanedCons(a[0], rest + b);
      CleanedConcat(rest, b);
      ConcatAssociates(Cleaned([a[0]]), Cleaned(rest), Cleaned(b));
    }
    hide Cleaned;
  }

  lemma {:induction false} TokensConcat(a: string, b: string)
    ensures Tokens(a + "," + b) == Tokens(a) + Tokens(b)
  {
    SplitConcat(a, ',', b);
    CleanedConcat(Split(a, ','), Split(b, ','));
  }

  lemma {:induction false} CleanedTokens(tokens: seq<string>)
    requires forall t :: t in tokens ==> IsToken(t)
    ensures Cleaned(tokens) == tokens
  {
    if tokens != [] {
      assert IsToken(tokens[0]);
      TrimFixesTrimmed(tokens[0]);
      CleanedTokens(tokens[1..]);
    }
  }

  /** Reading back a printed list of tokens gives the list. */
  lemma TokensOfJoin(tokens: seq<string>)
    requires forall t :: t in tokens ==> IsToken(t)
    ensures Tokens(Join(tokens, ',')) == tokens
  {
    if tokens == [] {
      assert Split("", ',') == [""];
    } else {
      SplitJoin(tokens, ',');
      CleanedTokens(tokens);
    }
  }

  lemma {:induction false} SomethingLeft(s: string, lo: nat, hi: nat)
    requires lo < hi <= |s| && !IsSpace(s[lo])
    ensures DropSpaces(s, lo, hi) > lo
  {
    hide IsSpace;
    if IsSpace(s[hi - 1]) { SomethingLeft(s, lo, hi - 1); }
  }

  lemma {:induction false} AllSpaces(s: string)
    requires Trim(s) == ""
    ensures forall c :: c in s ==> IsSpace(c)
  {
    hide IsSpace;
    SkippedAreSpaces(s, 0);
    if SkipSpaces(s, 0) < |s| { SomethingLeft(s, SkipSpaces(s, 0), |s|); }
  }

  lemma BlankHasNoComma(s: string)
    requires Trim(s) == ""
    ensures ',' !in s
  {
    AllSpaces(s);
    assert !IsSpace(',');
  }

  lemma BlankHasNoTokens(s: string)
    requires Trim(s) == ""
    ensures Tokens(s) == []
  {
    hide Trim, IsSpace;
    BlankHasNoComma(s);
    SplitAtom(s, ',');
    assert Cleaned([s]) == Cleaned([]) == [];
  }

  // ---- What may be forwarded ----

  function LowerSet(tokens: seq<string>): set<string> {
    set t | t in tokens :: Lower(t)
  }

  /** The allow-list in lower case, without the long-context beta when the model is known not to take it. */
  function AllowSet(allow: seq<string>, model: Option<string>, supports1m: string -> bool): set<string> {
    set t | t in allow && (Lower(t) == CONTEXT_1M ==> model == None || model.value == "" || supports1m(model.value))
      :: Lower(t)
  }

  /** The client token at `i` is allowed, not in `seen`, and the first of its kind. */
  predicate IsNew(tokens: seq<string>, i: nat, seen: set<string>, allowed: set<string>)
    requires i < |tokens|
  {
    && Lower(tokens[i]) in allowed
    && Lower(tokens[i]) !in seen
    && forall j :: 0 <= j < i ==> Lower(tokens[j]) != Lower(tokens[i])
  }

  /** The new ones among the first `n` client tokens, in client order. */
  function NewTokens(tokens: seq<string>, n: nat, seen: set<string>, allowed: set<string>): seq<string>
    requires n <= |tokens|
  {
    if n == 0 then []
    else NewTokens(tokens, n - 1, seen, allowed) + if IsNew(tokens, n - 1, seen, allowed) then [tokens[n - 1]] else []
  }

  function MergedTokens(base: seq<string>, client: seq<string>, allowed: set<string>): seq<string> {
    base + NewTokens(client, |client|, LowerSet(base), allowed)
  }

  function ClientTokens(client: Option<string>): seq<string> {
    if client.Some? then Tokens(client.value) else []
  }

  function Merged(base: string, client: Option<string>, allowed: set<string>): string {
    Join(MergedTokens(Tokens(base), ClientTokens(client), allowed), ',')
  }

  lemma LowerSetIndex(tokens: seq<string>, n: nat, lower: string)
    requires n <= |tokens|
    ensures lower in LowerSet(tokens[..n]) <==> exists j :: 0 <= j < n && Lower(tokens[j]) == lower
  {
    hide Lower;
    if lower in LowerSet(tokens[..n]) {
      var t :| t in tokens[..n] && Lower(t) == lower;
      var j :| 0 <= j < n && tokens[..n][j] == t;
      assert Lower(tokens[j]) == lower;
    }
    if j :| 0 <= j < n && Lower(tokens[j]) == lower {
      assert tokens[..n][j] in tokens[..n];
    }
  }

  lemma LowerSetEmpty()
    ensures LowerSet([]) == {}
  {
  }

  lemma LowerSetOne(t: string)
    ensures LowerSet([t]) == {Lower(t)}
  {
    assert t in [t];
  }

  lemma LowerSetConcat(a: seq<string>, b: seq<string>)
    ensures LowerSet(a + b) == LowerSet(a) + LowerSet(b)
  {
  }

  /** A kind is among the new tokens exactly when it is allowed, unseen, and occurs. */
  lemma {:induction false} NewTokensLower(tokens: seq<string>, n: nat, seen: set<string>, allowed: set<string>)
    requires n <= |tokens|
    ensures LowerSet(NewTokens(tokens, n, seen, allowed)) == LowerSet(tokens[..n]) * allowed - seen
  {
    hide Lower, LowerSet;
    if n == 0 {
      LowerSetEmpty();
      assert tokens[..0] == [];
    } else {
      NewTokensLower(tokens, n - 1, seen, allowed);
      var last := tokens[n - 1];
      assert tokens[..n] == tokens[..n - 1] + [last];
      LowerSetConcat(tokens[..n - 1], [last]);
      LowerSetConcat(NewTokens(tokens, n - 1, seen, allowed), [last]);
      LowerSetOne(last);
      LowerSetIndex(tokens, n - 1, Lower(last));
      assert NewTokens(tokens, n - 1, seen, allowed) + [] == NewTokens(tokens, n - 1, seen, allowed);
    }
  }

  method MergeClientAnthropicBeta(
      base: string, client: Option<string>, allow: seq<string>, model: Option<string>, supports1m: string -> bool)
    returns (header: string)
    ensures header == Merged(base, client, AllowSet(allow, model, supports1m))
  {
    hide Lower, LowerSet, Trim, Tokens, AllowSet, Join;
    var baseList := Tokens(base);
    assert baseList + [] == baseList;
    if client.None? { return Join(baseList, ','); }
    if Trim(client.value) == "" {
      BlankHasNoTokens(client.value);
      return Join(baseList, ',');
    }
    ghost var first := baseList;
    var seen := LowerSet(baseList);
    var allowed := AllowSet(allow, model, supports1m);
    var tokens := Tokens(client.value);
    LowerSetEmpty();
    for i := 0 to |tokens|
      invariant baseList == first + NewTokens(tokens, i, LowerSet(first), allowed)
      invariant seen == LowerSet(first) + LowerSet(NewTokens(tokens, i, LowerSet(first), allowed))
    {
      NewTokensLower(tokens, i, LowerSet(first), allowed);
      LowerSetIndex(tokens, i, Lower(tokens[i]));
      LowerSetConcat(NewTokens(tokens, i, LowerSet(first), allowed), [tokens[i]]);
      LowerSetOne(tokens[i]);
      var lower := Lower(tokens[i]);
      if lower in allowed && lower !in seen {
        baseList := baseList + [tokens[i]];
        seen := seen + {lower};
        assert IsNew(tokens, i, LowerSet(first), allowed);
      } else {
        assert NewTokens(tokens, i, LowerSet(first), allowed) + [] == NewTokens(tokens, i, LowerSet(first), allowed);
      }
    }
    header := Join(baseList, ',');
  }

  /** The kinds that may be forwarded: those of the allow-list, but the long-context beta only for a model that is
    unknown or takes it. */
  lemma AllowSetIs(allow: seq<string>, model: Option<string>, supports1m: string -> bool, kind: string)
    ensures kind in AllowSet(allow, model, supports1m)
       <==> (exists i :: 0 <= i < |allow| && Lower(allow[i]) == kind)
            && (kind == "context-1m-2025-08-07" && model.Some? && model.value != "" ==> supports1m(model.value))
  {
    hide Lower;
    if i :| 0 <= i < |allow| && Lower(allow[i]) == kind { assert allow[i] in allow; }
  }

  /** One field of a list, trimmed, is its only token, unless it is blank. */
  lemma TokensOfField(f: string)
    requires ',' !in f
    ensures Tokens(f) == if Trim(f) == "" then [] else [Trim(f)]
  {
    hide Trim;
    SplitAtom(f, ',');
    assert Cleaned([f]) == (if Trim(f) != "" then [Trim(f)] else []) + Cleaned([]);
  }

  // ---- Laws ----

  lemma {:induction false} NewTokensAre(tokens: seq<string>, n: nat, seen: set<string>, allowed: set<string>)
    requires n <= |tokens|
    ensures forall t :: t in NewTokens(tokens, n, seen, allowed) ==>
              t in tokens && Lower(t) in allowed && Lower(t) !in seen
  {
    if n > 0 { NewTokensAre(tokens, n - 1, seen, allowed); }
  }

  lemma {:induction false} NewTokensOfPrefix(
      a: seq<string>, b: seq<string>, n: nat, seen: set<string>, allowed: set<string>)
    requires n <= |a|
    ensures NewTokens(a + b, n, seen, allowed) == NewTokens(a, n, seen, allowed)
  {
    hide Lower;
    if n > 0 {
      NewTokensOfPrefix(a, b, n - 1, seen, allowed);
      assert forall j :: 0 <= j < n ==> (a + b)[j] == a[j];
    }
  }

  lemma NewAfter(a: seq<string>, b: seq<string>, i: nat, seen: set<string>, allowed: set<string>)
    requires i < |b|
    ensures IsNew(a + b, |a| + i, seen, allowed)
       <==> IsNew(b, i, seen + LowerSet(NewTokens(a, |a|, seen, allowed)), allowed)
  {
    hide Lower, LowerSet;
    NewTokensLower(a, |a|, seen, allowed);
    LowerSetIndex(a, |a|, Lower(b[i]));
    assert a[..|a|] == a;
    assert forall j :: 0 <= j < |a| ==> (a + b)[j] == a[j];
    assert forall j :: 0 <= j <= i ==> (a + b)[|a| + j] == b[j];
    if IsNew(a + b, |a| + i, seen, allowed) {
      forall j | 0 <= j < i ensures Lower(b[j]) != Lower(b[i]) {
        assert (a + b)[|a| + j] == b[j];
      }
    }
    if IsNew(b, i, seen + LowerSet(NewTokens(a, |a|, seen, allowed)), allowed) {
      forall j | 0 <= j < |a| + i ensures Lower((a + b)[j]) != Lower(b[i]) {
        if j >= |a| { assert (a + b)[j] == b[j - |a|]; }
      }
    }
  }

  /** What is new in two lists is what is new in the first, and what is then still new in the second. */
  lemma {:induction false} NewTokensConcat(
      a: seq<string>, b: seq<string>, n: nat, seen: set<string>, allowed: set<string>)
    requires n <= |b|
    ensures var first := NewTokens(a, |a|, seen, allowed);
            NewTokens(a + b, |a| + n, seen, allowed) == first + NewTokens(b, n, seen + LowerSet(first), allowed)
  {
    hide Lower, LowerSet, IsNew;
    if n == 0 {
      NewTokensOfPrefix(a, b, |a|, seen, allowed);
    } else {
      NewTokensConcat(a, b, n - 1, seen, allowed);
      NewAfter(a, b, n - 1, seen, allowed);
      assert (a + b)[|a| + n - 1] == b[n - 1];
    }
  }

  lemma {:induction false} MergedReadsBack(base: string, client: Option<string>, allowed: set<string>)
    ensures Tokens(Merged(base, client, allowed)) == MergedTokens(Tokens(base), ClientTokens(client), allowed)
  {
    hide Tokens, Join, IsToken;
    var tokens := ClientTokens(client);
    NewTokensAre(tokens, |tokens|, LowerSet(Tokens(base)), allowed);
    TokensOfJoin(MergedTokens(Tokens(base), tokens, allowed));
  }

  function Both(a: Option<string>, b: Option<string>): Option<string> {
    match (a, b)
    case (Some(x), Some(y)) => Some(x + "," + y)
    case (None, _) => b
    case (_, None) => a
  }

  lemma {:induction false} ClientTokensOfBoth(a: Option<string>, b: Option<string>)
    ensures ClientTokens(Both(a, b)) == ClientTokens(a) + ClientTokens(b)
  {
    if a.Some? && b.Some? { TokensConcat(a.value, b.value); }
  }

  /** Merging two client lists one after the other is merging their concatenation. */
  lemma {:induction false} MergeHomomorphism(base: string, a: Option<string>, b: Option<string>, allowed: set<string>)
    ensures Merged(Merged(base, a, allowed), b, allowed) == Merged(base, Both(a, b), allowed)
  {
    hide Tokens, Join, ClientTokens, LowerSet;
    var x, y := ClientTokens(a), ClientTokens(b);
    var first := NewTokens(x, |x|, LowerSet(Tokens(base)), allowed);
    MergedReadsBack(base, a, allowed);
    ClientTokensOfBoth(a, b);
    NewTokensConcat(x, y, |y|, LowerSet(Tokens(base)), allowed);
    LowerSetConcat(Tokens(base), first);
    var second := NewTokens(y, |y|, LowerSet(Tokens(base)) + LowerSet(first), allowed);
    assert Tokens(base) + first + second == Tokens(base) + (first + second);
  }

  lemma {:induction false} NothingNew(tokens: seq<string>, n: nat, seen: set<string>, allowed: set<string>)
    requires n <= |tokens| && LowerSet(tokens[..n]) * allowed <= seen
    ensures NewTokens(tokens, n, seen, allowed) == []
  {
    if n > 0 {
      assert tokens[..n] == tokens[..n - 1] + [tokens[n - 1]];
      LowerSetConcat(tokens[..n - 1], [tokens[n - 1]]);
      LowerSetOne(tokens[n - 1]);
      NothingNew(tokens, n - 1, seen, allowed);
    }
  }

  /** Merging the same client list again changes nothing. */
  lemma {:induction false} MergeIdempotent(base: string, client: Option<string>, allowed: set<string>)
    ensures Merged(Merged(base, client, allowed), client, allowed) == Merged(base, client, allowed)
  {
    hide Tokens, Join, ClientTokens, LowerSet;
    var tokens := ClientTokens(client);
    var first := NewTokens(tokens, |tokens|, LowerSet(Tokens(base)), allowed);
    MergedReadsBack(base, client, allowed);
    LowerSetConcat(Tokens(base), first);
    NewTokensLower(tokens, |tokens|, LowerSet(Tokens(base)), allowed);
    NothingNew(tokens, |tokens|, LowerSet(Tokens(base) + first), allowed);
    assert Tokens(base) + first + [] == Tokens(base) + first;
  }

  lemma {:induction false} NewTokensDistinct(tokens: seq<string>, n: nat, seen: set<string>, allowed: set<string>)
    requires n <= |tokens|
    ensures var r := NewTokens(tokens, n, seen, allowed);
            forall i, j :: 0 <= j < i < |r| ==> Lower(r[j]) != Lower(r[i])
  {
    hide Lower, LowerSet;
    if n > 0 {
      NewTokensDistinct(tokens, n - 1, seen, allowed);
      var before := NewTokens(tokens, n - 1, seen, allowed);
      NewTokensLower(tokens, n - 1, seen, allowed);
      LowerSetIndex(tokens, n - 1, Lower(tokens[n - 1]));
      forall j | 0 <= j < |before| && IsNew(tokens, n - 1, seen, allowed)
        ensures Lower(before[j]) != Lower(tokens[n - 1])
      {
        assert before[..|before|] == before;
        LowerSetIndex(before, |before|, Lower(before[j]));
      }
    }
  }

  /** What the merge is for: the base comes first and in order, and the kinds of the result are those
    of the base and the allowed ones of the client, each new kind once. */
  lemma {:induction false} MergeAddsAllowedKinds(base: string, client: Option<string>, allowed: set<string>)
    ensures var r := Tokens(Merged(base, client, allowed));
            && Tokens(base) <= r
            && LowerSet(r) == LowerSet(Tokens(base)) + LowerSet(ClientTokens(client)) * allowed
            && (forall i, j :: |Tokens(base)| <= i < |r| && 0 <= j < i ==> Lower(r[j]) != Lower(r[i]))
  {
    hide Tokens, Join, ClientTokens, LowerSet;
    var tokens, b := ClientTokens(client), Tokens(base);
    var first := NewTokens(tokens, |tokens|, LowerSet(b), allowed);
    MergedReadsBack(base, client, allowed);
    LowerSetConcat(b, first);
    NewTokensLower(tokens, |tokens|, LowerSet(b), allowed);
    assert tokens[..|tokens|] == tokens;
    NewTokensDistinct(tokens, |tokens|, LowerSet(b), allowed);
    NewTokensAre(tokens, |tokens|, LowerSet(b), allowed);
    var r := b + first;
    forall i, j | |b| <= i < |r| && 0 <= j < i ensures Lower(r[j]) != Lower(r[i]) {
      assert r[i] == first[i - |b|] && first[i - |b|] in first;
      if j < |b| {
        assert b[..|b|] == b;
        LowerSetIndex(b, |b|, Lower(r[i]));
      }
    }
  }

  /** The long-context beta is never added for a model that is known not to take it. */
  lemma {:induction false} LongContextGated(allow: seq<string>, model: Option<string>, supports1m: string -> bool,
                         base: string, client: Option<string>)
    requires model.Some? && model.value != "" && !supports1m(model.value)
    requires CONTEXT_1M !in LowerSet(Tokens(base))
    ensures CONTEXT_1M !in LowerSet(Tokens(Merged(base, client, AllowSet(allow, model, supports1m))))
  {
    hide Tokens, Merged, Lower;
    MergeAddsAllowedKinds(base, client, AllowSet(allow, model, supports1m));
  }

  /** The client token at `i` is the first of its kind. */
  predicate IsFirstOfKind(tokens: seq<string>, i: nat)
    requires i < |tokens|
  {
    forall j :: 0 <= j < i ==> Lower(tokens[j]) != Lower(tokens[i])
  }

  /** Where the appended tokens come from: `at[k]` is the place of the k-th in the client's list. */
  predicate ArePlaces(at: seq<nat>, appended: seq<string>, client: seq<string>) {
    && |at| == |appended|
    && (forall k :: 0 <= k < |at| ==> at[k] < |client| && appended[k] == client[at[k]] && IsFirstOfKind(client, at[k]))
    && (forall k, l :: 0 <= k < l < |at| ==> at[k] < at[l])
  }

  lemma PlacesAppend(at: seq<nat>, appended: seq<string>, client: seq<string>, i: nat)
    requires ArePlaces(at, appended, client) && i < |client| && IsFirstOfKind(client, i)
    requires forall k :: 0 <= k < |at| ==> at[k] < i
    ensures ArePlaces(at + [i], appended + [client[i]], client)
  {
    hide IsFirstOfKind;
  }

  lemma NewIsFirst(tokens: seq<string>, i: nat, seen: set<string>, allowed: set<string>)
    requires i < |tokens| && IsNew(tokens, i, seen, allowed)
    ensures IsFirstOfKind(tokens, i)
  {
    hide Lower;
  }

  lemma {:induction false} NewTokensPlaces(tokens: seq<string>, n: nat, seen: set<string>, allowed: set<string>)
    returns (at: seq<nat>)
    requires n <= |tokens|
    ensures ArePlaces(at, NewTokens(tokens, n, seen, allowed), tokens)
    ensures forall k :: 0 <= k < |at| ==> at[k] < n
  {
    if n == 0 {
      at := [];
    } else {
      at := NewTokensPlaces(tokens, n - 1, seen, allowed);
      var before := NewTokens(tokens, n - 1, seen, allowed);
      if IsNew(tokens, n - 1, seen, allowed) {
        NewIsFirst(tokens, n - 1, seen, allowed);
        PlacesAppend(at, before, tokens, n - 1);
        at := at + [n - 1];
      } else {
        assert before + [] == before;
      }
    }
    hide IsNew, IsFirstOfKind;
  }

  /** The merge reads the base list and puts behind it client tokens as the client wrote them, each the first of
    its kind, in client order. Which kinds they are `MergeAddsAllowedKinds` says. */
  lemma {:induction false} AppendedAreFirst(base: string, client: Option<string>, allowed: set<string>)
    ensures var r, b := Tokens(Merged(base, client, allowed)), Tokens(base);
            |b| <= |r| && exists at: seq<nat> :: ArePlaces(at, r[|b|..], ClientTokens(client))
  {
    hide Tokens, Join, ClientTokens, LowerSet, ArePlaces;
    MergedReadsBack(base, client, allowed);
    var tokens, b := ClientTokens(client), Tokens(base);
    var at := NewTokensPlaces(tokens, |tokens|, LowerSet(b), allowed);
    var appended := NewTokens(tokens, |tokens|, LowerSet(b), allowed);
    assert (b + appended)[|b|..] == appended;
  }
}
