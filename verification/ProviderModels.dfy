/** Choosing a model by id across the catalogs of all providers. */
module ProviderModels {
  import opened Basics
  import opened Sorting

  /** Which capability flags an entry defines; their values play no part in the choice. */
  datatype Model = Model(
    id: string, xhighEffort: bool, reasoning: bool, contextLength: bool, maxOutputTokens: bool,
    vision: bool, toolCalling: bool, interleavedField: bool, unsupportedParams: bool)

  /** One catalog per provider, in registry order. */
  type Catalogs = seq<seq<Model>>

  function Points(defined: bool, n: nat): nat { if defined then n else 0 }

  function Richness(m: Model): (score: int)
    ensures score >= 0
  {
    Points(m.xhighEffort, 10) + Points(m.reasoning, 5) + Points(m.contextLength, 3) + Points(m.maxOutputTokens, 2)
    + Points(m.vision, 2) + Points(m.toolCalling, 2) + Points(m.interleavedField, 1) + Points(m.unsupportedParams, 1)
  }

  /** What each capability adds. */
  lemma RichnessIs(m: Model)
    ensures Richness(m) == (if m.xhighEffort then 10 else 0) + (if m.reasoning then 5 else 0)
                           + (if m.contextLength then 3 else 0) + (if m.maxOutputTokens then 2 else 0)
                           + (if m.vision then 2 else 0) + (if m.toolCalling then 2 else 0)
                           + (if m.interleavedField then 1 else 0) + (if m.unsupportedParams then 1 else 0)
  {
  }

  // ---- Lookups ----

  function FindById(models: seq<Model>, id: string): (r: Option<Model>)
    ensures r.Some? ==> r.value.id == id
  {
    if models == [] then None else if models[0].id == id then Some(models[0]) else FindById(models[1..], id)
  }

  /** It is the first entry with that id, and there is none exactly when no entry has it. */
  lemma {:induction false} FindByIdIsFirst(models: seq<Model>, id: string)
    ensures match FindById(models, id)
            case Some(m) =>
              exists i :: 0 <= i < |models| && models[i] == m && forall j :: 0 <= j < i ==> models[j].id != id
            case None => forall m :: m in models ==> m.id != id
  {
    if models != [] && models[0].id != id {
      FindByIdIsFirst(models[1..], id);
      var r := FindById(models[1..], id);
      if r.Some? {
        var i :| 0 <= i < |models| - 1 && models[1..][i] == r.value
                 && forall j :: 0 <= j < i ==> models[1..][j].id != id;
        assert models[i + 1] == r.value;
        forall j | 0 <= j < i + 1 ensures models[j].id != id {
          if j > 0 { assert models[j] == models[1..][j - 1]; }
        }
      } else {
        assert forall m :: m in models ==> m == models[0] || m in models[1..];
      }
    }
  }

  /** The providers' first matches, in provider order. */
  function Candidates(all: Catalogs, id: string): (r: seq<Model>)
    ensures forall m :: m in r ==> m.id == id
  {
    if all == [] then []
    else
      var n := |all| - 1;
      var found := FindById(all[n], id);
      Candidates(all[..n], id) + if found.Some? then [found.value] else []
  }

  /** What follows the last slash; the whole id when nothing does. */
  /** Catalog by catalog, the first entry with the id where there is one. */
  lemma CandidatesStep(all: Catalogs, models: seq<Model>, id: string)
    ensures Candidates([], id) == []
    ensures Candidates(all + [models], id) == Candidates(all, id) + match FindById(models, id)
                                                                    case Some(m) => [m]
                                                                    case None => []
  {
    assert (all + [models])[..|all|] == all;
  }

  function AfterLastSlash(s: string): string {
    if s == "" then ""
    else if s[|s| - 1] == '/' then ""
    else AfterLastSlash(s[..|s| - 1]) + [s[|s| - 1]]
  }

  function Basename(id: string): string {
    if AfterLastSlash(id) == "" then id else AfterLastSlash(id)
  }

  lemma {:induction false} AfterLastSlashIs(a: string, b: string)
    requires '/' !in b
    ensures AfterLastSlash(a + "/" + b) == b && AfterLastSlash(b) == b
  {
    var s := a + "/" + b;
    if b == "" {
      assert s[|s| - 1] == '/';
    } else {
      var n := |b| - 1;
      assert s[..|s| - 1] == a + "/" + b[..n] && s[|s| - 1] == b[n] && b[n] in b;
      assert b == b[..n] + [b[n]];
      AfterLastSlashIs(a, b[..n]);
    }
  }

  /** The basename is what follows the last slash; the whole id when nothing does, or when there is none. */
  lemma BasenameIs(a: string, b: string)
    requires '/' !in b
    ensures b != "" ==> Basename(a + "/" + b) == b
    ensures Basename(b) == b
    ensures Basename(a + "/") == a + "/"
  {
    AfterLastSlashIs(a, b);
    AfterLastSlashIs(a, "");
    assert a + "/" + "" == a + "/";
  }

  function Flatten(all: Catalogs): seq<Model> {
    if all == [] then [] else Flatten(all[..|all| - 1]) + all[|all| - 1]
  }

  function PrefixMatches(models: seq<Model>, name: string): (r: seq<Model>)
    ensures forall m :: m in r <==> m in models && m.id <= name
  {
    if models == [] then []
    else
      var n := |models| - 1;
      PrefixMatches(models[..n], name) + if models[n].id <= name then [models[n]] else []
  }

  // ---- The best of several ----

  datatype Score = Score(length: nat, richness: nat)

  predicate Less(a: Score, b: Score) {
    a.length < b.length || (a.length == b.length && a.richness < b.richness)
  }

  function ByRichness(m: Model): Score { Score(0, Richness(m)) }

  function ByLength(m: Model): Score { Score(|m.id|, Richness(m)) }

  predicate BestAt(models: seq<Model>, score: Model -> Score, i: nat)
    requires i < |models|
  {
    && (forall j :: 0 <= j < |models| ==> !Less(score(models[i]), score(models[j])))
    && (forall j :: 0 <= j < i ==> Less(score(models[j]), score(models[i])))
  }

  /** `m` stands at a place of `models` that no other beats, and that beats every place before it. */
  predicate EarliestBest(models: seq<Model>, score: Model -> Score, m: Model) {
    exists i :: 0 <= i < |models| && BestAt(models, score, i) && models[i] == m
  }

  function Best(models: seq<Model>, score: Model -> Score): (r: Option<Model>)
    ensures r.None? <==> models == []
  {
    if models == [] then None
    else
      var n := |models| - 1;
      var best := Best(models[..n], score);
      if best.None? || Less(score(best.value), score(models[n])) then Some(models[n]) else best
  }

  lemma BestAppend(models: seq<Model>, m: Model, score: Model -> Score)
    ensures var was := Best(models, score);
            Best(models + [m], score) == if was.None? || Less(score(was.value), score(m)) then Some(m) else was
  {
    hide Less;
    assert (models + [m])[..|models|] == models;
  }

  lemma LessIsWeakOrder(a: Score, b: Score, c: Score)
    ensures !Less(a, a)
    ensures Less(a, b) && !Less(a, c) ==> Less(c, b) && !Less(b, c)
  {
  }

  lemma BestAtGrows(models: seq<Model>, score: Model -> Score, i: nat)
    requires i < |models| - 1 && BestAt(models[..|models| - 1], score, i)
    ensures if Less(score(models[i]), score(models[|models| - 1])) then BestAt(models, score, |models| - 1)
            else BestAt(models, score, i)
  {
    hide Less;
    var n := |models| - 1;
    forall j | 0 <= j < n
      ensures !Less(score(models[i]), score(models[j])) && (j < i ==> Less(score(models[j]), score(models[i])))
      ensures Less(score(models[i]), score(models[n])) ==>
                Less(score(models[j]), score(models[n])) && !Less(score(models[n]), score(models[j]))
    {
      assert models[..n][j] == models[j];
      LessIsWeakOrder(score(models[i]), score(models[n]), score(models[j]));
    }
    LessIsWeakOrder(score(models[n]), score(models[n]), score(models[n]));
  }

  lemma {:induction false} BestIsEarliest(models: seq<Model>, score: Model -> Score)
    requires models != []
    ensures EarliestBest(models, score, Best(models, score).value)
  {
    hide Less;
    var n := |models| - 1;
    if n == 0 {
      LessIsWeakOrder(score(models[0]), score(models[0]), score(models[0]));
      assert BestAt(models, score, 0);
    } else {
      BestIsEarliest(models[..n], score);
      var best := Best(models[..n], score).value;
      var i :| 0 <= i < n && BestAt(models[..n], score, i) && models[..n][i] == best;
      BestAtGrows(models, score, i);
      if Less(score(best), score(models[n])) {
        assert BestAt(models, score, n);
      } else {
        assert BestAt(models, score, i);
      }
    }
  }

  /** There is only one earliest best place, so the property pins the result down. */
  lemma EarliestBestUnique(models: seq<Model>, score: Model -> Score, a: Model, b: Model)
    requires EarliestBest(models, score, a) && EarliestBest(models, score, b)
    ensures a == b
  {
    var i :| 0 <= i < |models| && BestAt(models, score, i) && models[i] == a;
    var j :| 0 <= j < |models| && BestAt(models, score, j) && models[j] == b;
    assert !Less(score(models[i]), score(models[j])) && !Less(score(models[j]), score(models[i]));
  }

  // ---- Sorting by richness ----

  /** A stable sort by falling richness is a permutation whose head is the earliest of maximal richness. */
  lemma {:induction false} SortHead(models: seq<Model>)
    ensures var r := SortedBy(models, Richness);
            && Falling(r, Richness) && multiset(r) == multiset(models)
            && (models != [] ==> r != [] && Some(r[0]) == Best(models, ByRichness))
  {
    hide Points, Best, Falling, Insert;
    SortedByIs(models, Richness, 0);
    if models != [] {
      var n := |models| - 1;
      SortHead(models[..n]);
      InsertHead(SortedBy(models[..n], Richness), models[n], Richness);
      assert models == models[..n] + [models[n]];
      BestAppend(models[..n], models[n], ByRichness);
      if n == 0 { assert |multiset(SortedBy(models[..n], Richness))| == 0; }
    }
  }

  // ---- The three phases ----

  function GlobalModel(all: Catalogs, id: string): Option<Model> {
    var exact, byName := Candidates(all, id), Candidates(all, Basename(id));
    if exact != [] then Best(exact, ByRichness)
    else if byName != [] then Best(byName, ByRichness)
    else Best(PrefixMatches(Flatten(all), Basename(id)), ByLength)
  }

  method CollectCandidates(all: Catalogs, id: string) returns (candidates: seq<Model>)
    ensures candidates == Candidates(all, id)
  {
    candidates := [];
    for i := 0 to |all|
      invariant candidates == Candidates(all[..i], id)
    {
      assert all[..i + 1][..i] == all[..i];
      var found := FindById(all[i], id);
      if found.Some? { candidates := candidates + [found.value]; }
    }
    assert all[..|all|] == all;
  }

  lemma NothingBest(name: string)
    ensures Best(PrefixMatches(Flatten([]), name), ByLength) == None
  {
  }

  lemma FlattenStep(all: Catalogs, i: nat)
    requires i < |all|
    ensures Flatten(all[..i + 1]) == Flatten(all[..i]) + all[i]
  {
    assert all[..i + 1][..i] == all[..i];
  }

  lemma PrefixAppend(models: seq<Model>, m: Model, name: string)
    ensures PrefixMatches(models + [m], name)
         == if m.id <= name then PrefixMatches(models, name) + [m] else PrefixMatches(models, name)
  {
    assert (models + [m])[..|models|] == models;
    assert PrefixMatches(models, name) + [] == PrefixMatches(models, name);
  }

  lemma {:induction false} PrefixStep(models: seq<Model>, m: Model, name: string)
    ensures var was, now := Best(PrefixMatches(models, name), ByLength),
                            Best(PrefixMatches(models + [m], name), ByLength);
            now == if m.id <= name && (was.None? || Less(ByLength(was.value), ByLength(m))) then Some(m) else was
  {
    hide Best, PrefixMatches, ByLength, Less;
    PrefixAppend(models, m, name);
    BestAppend(PrefixMatches(models, name), m, ByLength);
  }

  method LongestPrefix(all: Catalogs, basename: string) returns (bestMatch: Option<Model>)
    ensures bestMatch == Best(PrefixMatches(Flatten(all), basename), ByLength)
  {
    hide Richness, Best, PrefixMatches, Flatten;
    bestMatch := None;
    NothingBest(basename);
    for i := 0 to |all|
      invariant bestMatch == Best(PrefixMatches(Flatten(all[..i]), basename), ByLength)
    {
      var models := all[i];
      ghost var before := Flatten(all[..i]);
      assert before + [] == before;
      for j := 0 to |models|
        invariant bestMatch == Best(PrefixMatches(before + models[..j], basename), ByLength)
      {
        assert before + models[..j + 1] == before + models[..j] + [models[j]];
        PrefixStep(before + models[..j], models[j], basename);
        var m := models[j];
        if m.id <= basename {
          if bestMatch.None? || |m.id| > |bestMatch.value.id|
             || (|m.id| == |bestMatch.value.id| && Richness(m) > Richness(bestMatch.value)) {
            bestMatch := Some(m);
          }
        }
      }
      assert models[..|models|] == models;
      FlattenStep(all, i);
    }
    assert all[..|all|] == all;
  }

  method GetGlobalModel(all: Catalogs, id: string) returns (r: Option<Model>)
    ensures r == GlobalModel(all, id)
  {
    hide Richness;
    var candidates := CollectCandidates(all, id);
    SortHead(candidates);
    if |candidates| > 0 { return Some(SortedBy(candidates, Richness)[0]); }
    var basename := Basename(id);
    candidates := CollectCandidates(all, basename);
    SortHead(candidates);
    if |candidates| > 0 { return Some(SortedBy(candidates, Richness)[0]); }
    r := LongestPrefix(all, basename);
  }

  lemma {:induction false} BestIsMember(models: seq<Model>, score: Model -> Score)
    requires models != []
    ensures Best(models, score).value in models
  {
    if |models| > 1 { BestIsMember(models[..|models| - 1], score); }
  }

  /** Who is chosen: an exact match if there is one, else a match of the basename, each the earliest of
    the richest first matches; else the earliest of the longest, then richest, prefixes of the basename. */
  lemma {:induction false} GlobalModelIsBest(all: Catalogs, id: string)
    ensures var r, exact, byName := GlobalModel(all, id), Candidates(all, id), Candidates(all, Basename(id));
            var prefixes := PrefixMatches(Flatten(all), Basename(id));
            if exact != [] then r.Some? && r.value.id == id && EarliestBest(exact, ByRichness, r.value)
            else if byName != [] then r.Some? && r.value.id == Basename(id) && EarliestBest(byName, ByRichness, r.value)
            else if prefixes != [] then r.Some? && EarliestBest(prefixes, ByLength, r.value)
            else r.None?
  {
    hide Richness, EarliestBest;
    var exact, byName := Candidates(all, id), Candidates(all, Basename(id));
    var prefixes := PrefixMatches(Flatten(all), Basename(id));
    if exact != [] {
      BestIsEarliest(exact, ByRichness);
      BestIsMember(exact, ByRichness);
    } else if byName != [] {
      BestIsEarliest(byName, ByRichness);
      BestIsMember(byName, ByRichness);
    } else if prefixes != [] {
      BestIsEarliest(prefixes, ByLength);
    }
  }

  // ---- The exact lookup ----

  function FirstAnywhere(all: Catalogs, id: string): (r: Option<Model>)
    ensures r.Some? ==> r.value.id == id
  {
    if all == [] then None
    else
      var found := FindById(all[0], id);
      if found.Some? then found else FirstAnywhere(all[1..], id)
  }

  function FindRegistryModelById(all: Catalogs, id: string): Option<Model> {
    if id == "" then None
    else
      var exact := FirstAnywhere(all, id);
      if exact.Some? then exact
      else if Basename(id) == id then None
      else FirstAnywhere(all, Basename(id))
  }

  lemma {:induction false} CandidatesConcat(a: Catalogs, b: Catalogs, id: string)
    ensures Candidates(a + b, id) == Candidates(a, id) + Candidates(b, id)
  {
    if b == [] {
      assert a + b == a;
    } else {
      var n := |b| - 1;
      assert (a + b)[..|a + b| - 1] == a + b[..n];
      CandidatesConcat(a, b[..n], id);
    }
  }

  lemma {:induction false} FirstIsCandidate(all: Catalogs, id: string)
    ensures FirstAnywhere(all, id) == if Candidates(all, id) == [] then None else Some(Candidates(all, id)[0])
  {
    if all != [] {
      assert all == [all[0]] + all[1..];
      CandidatesConcat([all[0]], all[1..], id);
      assert [all[0]][..0] == [];
      FirstIsCandidate(all[1..], id);
    }
  }

  /** The exact lookup answers exactly when the choice does not have to guess by prefix, and then both
    name the same id. */
  lemma ExactLookupAgrees(all: Catalogs, id: string)
    requires id != ""
    ensures var found := FindRegistryModelById(all, id);
            && (found.Some? <==> Candidates(all, id) != [] || Candidates(all, Basename(id)) != [])
            && (found.Some? ==> GlobalModel(all, id).Some? && GlobalModel(all, id).value.id == found.value.id)
            && (Candidates(all, id) != [] ==> found == Some(Candidates(all, id)[0]))
            && (Candidates(all, id) == [] && Candidates(all, Basename(id)) != [] ==>
                found == Some(Candidates(all, Basename(id))[0]))
  {
    hide Richness;
    FirstIsCandidate(all, id);
    FirstIsCandidate(all, Basename(id));
    GlobalModelIsBest(all, id);
  }
}
