/** Printing and parsing "provider/model" strings of the embedding registry.

  A registry is an insertion-ordered record of providers. `Scoped` prints an id, `Parse` reads one back,
  through an alias table, dynamic providers and models whose own id already carries a prefix.
 */
module EmbeddingRegistry {
  import opened JsString
  import opened Basics

  datatype Model = Model(id: string, name: string, dimensions: Option<nat>)

  type Registry = Record<seq<Model>>

  /** `model` is None only for an absent input. */
  datatype Parsed = Parsed(provider: Option<string>, model: Option<string>)

  datatype Listed = Listed(id: string, name: string, provider: string, dimensions: Option<nat>)

  // ---- Alias tables ----

  function ResolveProvider(id: string): string {
    if id == "jina" then "jina-ai"
    else if id == "voyage" then "voyage-ai"
    else if id == "lm-studio" then "lmstudio"
    else id
  }

  const OMNI := "jina-embeddings-v5-omni"
  const OMNI_SMALL := "jina-embeddings-v5-omni-small"

  const MODEL_ALIASES := [
    (OMNI, OMNI_SMALL),
    ("google/gemini-embedding-2", "gemini/gemini-embedding-2"),
    ("google/gemini-embedding-2-preview", "gemini/gemini-embedding-2-preview")]

  function ApplyAliasesFrom(s: string, aliases: seq<(string, string)>): string {
    if aliases == [] then s
    else
      var (alias, canonical) := aliases[0];
      if s == alias then canonical
      else if '/' !in alias && EndsWith(s, "/" + alias) then s[..|s| - |alias|] + canonical
      else ApplyAliasesFrom(s, aliases[1..])
  }

  function ApplyModelAliases(s: string): string { ApplyAliasesFrom(s, MODEL_ALIASES) }

  predicate Rewritten(s: string) { ApplyModelAliases(s) != s }

  // ---- Lookups ----

  function ModelsOf(reg: Registry, provider: string): Option<seq<Model>> {
    if reg == [] then None
    else if reg[0].0 == provider then Some(reg[0].1)
    else ModelsOf(reg[1..], provider)
  }

  predicate Lists(models: seq<Model>, id: string) {
    exists i :: 0 <= i < |models| && models[i].id == id
  }

  predicate HasModel(reg: Registry, provider: string, id: string) {
    ModelsOf(reg, provider).Some? && Lists(ModelsOf(reg, provider).value, id)
  }

  /** The first provider whose key, followed by a slash, starts `s`. */
  function ProviderPrefix(keys: seq<string>, s: string): (r: Option<string>)
    ensures r.Some? ==> r.value + "/" <= s && r.value in keys
    ensures r.None? ==> forall k :: k in keys ==> !(k + "/" <= s)
  {
    if keys == [] then None else if keys[0] + "/" <= s then Some(keys[0]) else ProviderPrefix(keys[1..], s)
  }

  function FindModelProvider(reg: Registry, id: string): Option<string> {
    if reg == [] then None
    else if Lists(reg[0].1, id) then Some(reg[0].0)
    else FindModelProvider(reg[1..], id)
  }

  // ---- Printing and parsing ----

  function Scoped(provider: string, id: string): string {
    if provider + "/" <= id then id else provider + "/" + id
  }

  function NormalizeModelId(reg: Registry, provider: string, id: string): string {
    var resolved := ResolveProvider(provider);
    if HasModel(reg, resolved, id) then id
    else if HasModel(reg, resolved, resolved + "/" + id) then resolved + "/" + id
    else if provider + "/" <= id then id[|provider| + 1..]
    else id
  }

  /** Index of the first slash, the length when there is none. */
  function SlashIndex(s: string): (i: nat)
    ensures i <= |s| && '/' !in s[..i] && (i < |s| ==> s[i] == '/')
  {
    if s == "" then 0
    else if s[0] == '/' then 0
    else
      var i := SlashIndex(s[1..]);
      assert s[..i + 1] == [s[0]] + s[1..][..i];
      i + 1
  }

  function ParsePrefixed(reg: Registry, s: string, slash: nat, dynamic: seq<string>): Parsed
    requires slash < |s|
  {
    var raw, rest := s[..slash], s[slash + 1..];
    if raw in dynamic then Parsed(Some(raw), Some(rest))
    else
      var resolved := ResolveProvider(raw);
      if ModelsOf(reg, resolved).Some?
      then Parsed(Some(resolved), Some(NormalizeModelId(reg, resolved, rest)))
      else
        match ProviderPrefix(Keys(reg), s)
        case Some(p) => Parsed(Some(p), Some(NormalizeModelId(reg, p, s[|p| + 1..])))
        case None =>
          match ProviderPrefix(dynamic, s)
          case Some(p) => Parsed(Some(p), Some(s[|p| + 1..]))
          case None => Parsed(Some(raw), Some(rest))
  }

  /** `dynamic` holds the ids of the dynamic providers. */
  function Parse(reg: Registry, input: Option<string>, dynamic: seq<string>): Parsed {
    if input == None || input.value == "" then Parsed(None, None)
    else
      var s := ApplyModelAliases(input.value);
      var slash := SlashIndex(s);
      if 0 < slash < |s| then ParsePrefixed(reg, s, slash, dynamic)
      else Parsed(FindModelProvider(reg, s), Some(s))
  }

  // ---- Reading other ids ----

  /** The entry at `i` is the first whose provider lists the model. */
  predicate ListsFirst(reg: Registry, id: string, i: nat)
    requires i < |reg|
  {
    (exists k :: 0 <= k < |reg[i].1| && reg[i].1[k].id == id)
    && forall j :: 0 <= j < i ==> forall k :: 0 <= k < |reg[j].1| ==> reg[j].1[k].id != id
  }

  lemma {:induction false} FindModelProviderIsFirst(reg: Registry, id: string)
    ensures match FindModelProvider(reg, id)
            case Some(p) => exists i: nat :: i < |reg| && reg[i].0 == p && ListsFirst(reg, id, i)
            case None => forall i :: 0 <= i < |reg| ==> !Lists(reg[i].1, id)
  {
    if reg != [] && !Lists(reg[0].1, id) {
      var rest := reg[1..];
      FindModelProviderIsFirst(rest, id);
      assert forall j :: 0 < j < |reg| ==> rest[j - 1] == reg[j];
      if FindModelProvider(rest, id).Some? {
        var i: nat :| i < |rest| && rest[i].0 == FindModelProvider(rest, id).value && ListsFirst(rest, id, i);
        forall j | 0 <= j < i + 1 ensures forall k :: 0 <= k < |reg[j].1| ==> reg[j].1[k].id != id {
          if j > 0 { assert reg[j] == rest[j - 1]; }
        }
        assert ListsFirst(reg, id, i + 1);
      }
    } else if reg != [] {
      assert ListsFirst(reg, id, 0);
    }
  }

  lemma {:induction false} NoSlash(s: string)
    requires '/' !in s
    ensures SlashIndex(s) == |s|
  {
    assert forall i :: 0 <= i < |s| ==> s[i] in s;
  }

  /** The alias table: the omni family stands for its small model under any provider, and two models go by the
    google name too. */
  lemma ModelAliasesAre(a: string)
    ensures ApplyModelAliases("jina-embeddings-v5-omni") == "jina-embeddings-v5-omni-small"
    ensures ApplyModelAliases(a + "/" + "jina-embeddings-v5-omni") == a + "/" + "jina-embeddings-v5-omni-small"
  {
    var s := a + "/" + OMNI;
    assert s[|s| - |OMNI|..] == OMNI && s[..|s| - |OMNI|] == a + "/";
    assert EndsWith(s, "/" + OMNI) by { assert s[|a|..] == "/" + OMNI; }
    assert s != OMNI by { assert s[|a|] == '/' && '/' !in OMNI; }
    assert '/' !in OMNI;
  }

  lemma NoOmni(s: string)
    requires s != "" && s[|s| - 1] != 'i'
    ensures s != OMNI && !EndsWith(s, "/" + OMNI)
  {
    assert OMNI[|OMNI| - 1] == 'i' && ("/" + OMNI)[|OMNI|] == 'i';
  }

  lemma SlashAlias(s: string, alias: string, canonical: string, more: seq<(string, string)>)
    requires '/' in alias
    ensures ApplyAliasesFrom(s, [(alias, canonical)] + more)
         == if s == alias then canonical else ApplyAliasesFrom(s, more)
  {
    assert ([(alias, canonical)] + more)[1..] == more;
  }

  lemma AfterOmni(s: string)
    requires s != OMNI && !EndsWith(s, "/" + OMNI)
    ensures ApplyModelAliases(s) == ApplyAliasesFrom(s, [MODEL_ALIASES[1]] + [MODEL_ALIASES[2]])
  {
    assert MODEL_ALIASES[1..] == [MODEL_ALIASES[1]] + [MODEL_ALIASES[2]];
  }

  lemma GoogleAliasIs()
    ensures ApplyModelAliases("google/gemini-embedding-2") == "gemini/gemini-embedding-2"
  {
    var x := "google/gemini-embedding-2";
    assert x[|x| - 1] == '2' && x[6] == '/';
    NoOmni(x);
    AfterOmni(x);
    var (a, b) := MODEL_ALIASES[1];
    assert a == x;
    hide EndsWith, ApplyAliasesFrom, ApplyModelAliases;
    SlashAlias(x, a, b, [MODEL_ALIASES[2]]);
  }

  lemma GooglePreviewAliasIs()
    ensures ApplyModelAliases("google/gemini-embedding-2-preview") == "gemini/gemini-embedding-2-preview"
  {
    var y := "google/gemini-embedding-2-preview";
    assert y[|y| - 1] == 'w' && y[6] == '/';
    NoOmni(y);
    AfterOmni(y);
    var (a, b) := MODEL_ALIASES[1];
    var (c, d) := MODEL_ALIASES[2];
    assert |a| < |y| && c == y;
    hide EndsWith, ApplyAliasesFrom, ApplyModelAliases;
    SlashAlias(y, a, b, [(c, d)]);
    assert [(c, d)] + [] == [(c, d)];
    SlashAlias(y, c, d, []);
  }

  lemma GoogleAliasesAre()
    ensures ApplyModelAliases("google/gemini-embedding-2") == "gemini/gemini-embedding-2"
    ensures ApplyModelAliases("google/gemini-embedding-2-preview") == "gemini/gemini-embedding-2-preview"
  {
    hide ApplyModelAliases;
    GoogleAliasIs();
    GooglePreviewAliasIs();
  }

  /** Nothing else is rewritten; a model of another provider keeps a name that contains an alias. */
  lemma OtherIdsKept(s: string)
    requires s != "jina-embeddings-v5-omni" && !EndsWith(s, "/" + "jina-embeddings-v5-omni")
    requires s != "google/gemini-embedding-2" && s != "google/gemini-embedding-2-preview"
    ensures ApplyModelAliases(s) == s
  {
    AfterOmni(s);
    var (a, b) := MODEL_ALIASES[1];
    var (c, d) := MODEL_ALIASES[2];
    assert ApplyAliasesFrom(s, []) == s;
    hide EndsWith, ApplyAliasesFrom, ApplyModelAliases;
    assert a[6] == '/' && c[6] == '/';
    SlashAlias(s, a, b, [(c, d)]);
    assert [(c, d)] + [] == [(c, d)];
    SlashAlias(s, c, d, []);
  }

  /** An id without a prefix, after the alias table, belongs to the first provider that lists it, or to none. */
  lemma BareIdParses(reg: Registry, id: string, dynamic: seq<string>)
    requires id != "" && ('/' !in ApplyModelAliases(id) || ApplyModelAliases(id)[0] == '/')
    ensures var s, r := ApplyModelAliases(id), Parse(reg, Some(id), dynamic);
            && r.model == Some(s)
            && match r.provider
               case Some(p) => exists i: nat :: i < |reg| && reg[i].0 == p && ListsFirst(reg, s, i)
               case None => forall i :: 0 <= i < |reg| ==> !Lists(reg[i].1, s)
  {
    hide ApplyModelAliases, Lists, ListsFirst;
    if '/' !in ApplyModelAliases(id) { NoSlash(ApplyModelAliases(id)); }
    FindModelProviderIsFirst(reg, ApplyModelAliases(id));
  }

  /** Other names of three providers. */
  lemma ProviderAliasesAre(id: string)
    ensures ResolveProvider("jina") == "jina-ai" && ResolveProvider("voyage") == "voyage-ai"
    ensures ResolveProvider("lm-studio") == "lmstudio"
    ensures id !in {"jina", "voyage", "lm-studio"} ==> ResolveProvider(id) == id
  {
  }

  // ---- The round trip ----

  predicate SlashFree(id: string) { id != "" && '/' !in id }

  predicate PlainKeys(reg: Registry) {
    forall i :: 0 <= i < |reg| ==> SlashFree(reg[i].0)
  }

  lemma {:induction false} FirstSlash(s: string, id: string)
    requires '/' !in id && id + "/" <= s
    ensures SlashIndex(s) == |id| && s[..|id|] == id && s == id + "/" + s[|id| + 1..]
  {
    assert s[|id|] == (id + "/")[|id|] == '/';
    if id != "" {
      assert s[0] == id[0];
      assert (id + "/")[1..] == id[1..] + "/";
      FirstSlash(s[1..], id[1..]);
      assert s[..|id|] == (id + "/")[..|id|] == id;
    }
  }

  lemma ScopedShape(p: string, m: string)
    requires SlashFree(p)
    ensures var s := Scoped(p, m);
            p + "/" <= s && SlashIndex(s) == |p| && s[..|p|] == p
            && s[|p| + 1..] == if p + "/" <= m then m[|p| + 1..] else m
  {
    FirstSlash(Scoped(p, m), p);
  }

  lemma PrefixSplit(p: string, m: string)
    requires p + "/" <= m
    ensures m == p + "/" + m[|p| + 1..]
  {
  }

  /** What decides whether an id printed for provider `p` is read back under its prefix: for a provider that
    goes by its own name, whether the model's id carries that prefix and is then found without it or taken
    over; for one registered under a name that stands for another, that the id carries no prefix and the other
    does not answer instead. */
  predicate KeepsPrefix(reg: Registry, p: string, m: string, dynamic: seq<string>) {
    if ResolveProvider(p) == p then p + "/" <= m ==> p !in dynamic && !HasModel(reg, p, m[|p| + 1..])
    else
      && !(p + "/" <= m)
      && (p in dynamic
          || (ModelsOf(reg, ResolveProvider(p)).None? && ProviderPrefix(Keys(reg), Scoped(p, m)) == Some(p)))
  }

  lemma {:induction false} OwnNameRoundTrip(reg: Registry, p: string, m: string, dynamic: seq<string>)
    requires SlashFree(p) && HasModel(reg, p, m) && !Rewritten(Scoped(p, m)) && ResolveProvider(p) == p
    ensures Parse(reg, Some(Scoped(p, m)), dynamic) == Parsed(Some(p), Some(m)) <==> KeepsPrefix(reg, p, m, dynamic)
  {
    ScopedShape(p, m);
    hide ResolveProvider, ApplyModelAliases, HasModel;
    if p + "/" <= m { PrefixSplit(p, m); }
  }

  lemma {:induction false} RegisteredIsKey(reg: Registry, p: string)
    requires ModelsOf(reg, p).Some?
    ensures p in Keys(reg)
  {
    if reg[0].0 == p {
      assert Keys(reg)[0] == p;
    } else {
      RegisteredIsKey(reg[1..], p);
      var i :| 0 <= i < |reg| - 1 && Keys(reg[1..])[i] == p;
      assert Keys(reg)[i + 1] == p;
    }
  }

  /** A name that stands for another provider, registered all the same. */
  lemma OtherNamePlain(reg: Registry, p: string, rest: string)
    requires ModelsOf(reg, ResolveProvider(p)).None?
    ensures NormalizeModelId(reg, p, rest) == if p + "/" <= rest then rest[|p| + 1..] else rest
  {
    hide ResolveProvider;
  }

  lemma ParsesScoped(reg: Registry, p: string, m: string, dynamic: seq<string>)
    requires SlashFree(p) && !Rewritten(Scoped(p, m))
    ensures Parse(reg, Some(Scoped(p, m)), dynamic) == ParsePrefixed(reg, Scoped(p, m), |p|, dynamic)
  {
    hide ParsePrefixed, Scoped, ApplyModelAliases;
    ScopedShape(p, m);
  }

  /** What a printed id is read as under a name that stands for another provider. */
  lemma OtherNameParsed(reg: Registry, p: string, s: string, dynamic: seq<string>)
    requires SlashFree(p) && p in Keys(reg) && ResolveProvider(p) != p && p + "/" <= s && s[..|p|] == p
    ensures var r, rest := ParsePrefixed(reg, s, |p|, dynamic), s[|p| + 1..];
            && ProviderPrefix(Keys(reg), s).Some?
            && (p in dynamic ==> r == Parsed(Some(p), Some(rest)))
            && (p !in dynamic && ModelsOf(reg, ResolveProvider(p)).Some? ==> r.provider != Some(p))
            && (p !in dynamic && ModelsOf(reg, ResolveProvider(p)).None? && ProviderPrefix(Keys(reg), s) != Some(p) ==>
                r.provider != Some(p))
            && (p !in dynamic && ModelsOf(reg, ResolveProvider(p)).None? && ProviderPrefix(Keys(reg), s) == Some(p) ==>
                r == Parsed(Some(p), Some(NormalizeModelId(reg, p, rest))))
  {
    hide ResolveProvider, NormalizeModelId, ModelsOf;
  }

  /** A name that stands for another provider, registered all the same. */
  lemma {:induction false} OtherNameRoundTrip(reg: Registry, p: string, m: string, dynamic: seq<string>)
    requires SlashFree(p) && HasModel(reg, p, m) && !Rewritten(Scoped(p, m)) && ResolveProvider(p) != p
    ensures Parse(reg, Some(Scoped(p, m)), dynamic) == Parsed(Some(p), Some(m)) <==> KeepsPrefix(reg, p, m, dynamic)
  {
    RegisteredIsKey(reg, p);
    ScopedShape(p, m);
    ParsesScoped(reg, p, m, dynamic);
    hide Parse, ResolveProvider, HasModel, NormalizeModelId, Scoped, ModelsOf, ParsePrefixed, ProviderPrefix, Rewritten;
    var s := Scoped(p, m);
    OtherNameParsed(reg, p, s, dynamic);
    if ModelsOf(reg, ResolveProvider(p)).None? { OtherNamePlain(reg, p, s[|p| + 1..]); }
  }

  /** Reading back a printed id that no alias rewrites. */
  lemma {:induction false} PlainRoundTripIff(reg: Registry, p: string, m: string, dynamic: seq<string>)
    requires SlashFree(p) && HasModel(reg, p, m) && !Rewritten(Scoped(p, m))
    ensures Parse(reg, Some(Scoped(p, m)), dynamic) == Parsed(Some(p), Some(m)) <==> KeepsPrefix(reg, p, m, dynamic)
  {
    hide Parse, KeepsPrefix, ResolveProvider, Rewritten, HasModel;
    if ResolveProvider(p) == p {
      OwnNameRoundTrip(reg, p, m, dynamic);
    } else {
      OtherNameRoundTrip(reg, p, m, dynamic);
    }
  }

  /** Which registered model an id behind provider `p` means: the id itself when it is listed, else the id with
    the provider's prefix when that is listed, else the id without such a prefix. */
  predicate Means(reg: Registry, p: string, id: string, model: string) {
    if HasModel(reg, p, id) then model == id
    else if HasModel(reg, p, p + "/" + id) then model == p + "/" + id
    else if p + "/" <= id then id == p + "/" + model
    else model == id
  }

  lemma NormalizedMeans(reg: Registry, p: string, id: string)
    requires ResolveProvider(p) == p
    ensures Means(reg, p, id, NormalizeModelId(reg, p, id))
  {
    hide HasModel, ResolveProvider;
    if p + "/" <= id { PrefixSplit(p, id); }
  }

  lemma ResolvedTwice(id: string)
    ensures ResolveProvider(ResolveProvider(id)) == ResolveProvider(id)
  {
  }

  lemma PrefixedShape(raw: string, rest: string)
    requires SlashFree(raw)
    ensures var s := raw + "/" + rest;
            SlashIndex(s) == |raw| && s[..|raw|] == raw && s[|raw| + 1..] == rest && |s| > |raw| > 0
  {
    var s := raw + "/" + rest;
    assert raw + "/" <= s;
    FirstSlash(s, raw);
  }

  /** Reading an id with a prefix: a dynamic provider of that name comes first, then the registered provider it
    names, directly or by another name; a prefix that names nobody is taken as it is. */
  lemma PrefixedIdParses(reg: Registry, raw: string, rest: string, dynamic: seq<string>)
    requires SlashFree(raw) && !Rewritten(raw + "/" + rest)
    ensures var r, p := Parse(reg, Some(raw + "/" + rest), dynamic), ResolveProvider(raw);
            && (raw in dynamic ==> r == Parsed(Some(raw), Some(rest)))
            && (raw !in dynamic && ModelsOf(reg, p).Some? ==>
                r.provider == Some(p) && r.model.Some? && Means(reg, p, rest, r.model.value))
            && (raw !in dynamic && ModelsOf(reg, p).None?
                && (forall k :: k in Keys(reg) || k in dynamic ==> !(k + "/" <= raw + "/" + rest)) ==>
                r == Parsed(Some(raw), Some(rest)))
  {
    PrefixedShape(raw, rest);
    ResolvedTwice(raw);
    NormalizedMeans(reg, ResolveProvider(raw), rest);
    hide ApplyModelAliases, ResolveProvider, NormalizeModelId, ModelsOf, Means;
  }

  // ---- A rewritten id never comes back ----

  lemma {:induction false} ModelIdEnds(reg: Registry, provider: string, id: string, c: char)
    requires id != "" && id[|id| - 1] == c != '/'
    ensures var r := NormalizeModelId(reg, provider, id); r != "" && r[|r| - 1] == c
  {
    hide HasModel, ResolveProvider;
    if provider + "/" <= id { assert id != provider + "/"; }
  }

  lemma BehindPrefix(t: string, p: string, c: char)
    requires p + "/" <= t && t[|t| - 1] == c != '/'
    ensures |t| > |p| + 1 && t[|p| + 1..] != "" && t[|p| + 1..][|t| - |p| - 2] == c
  {
    assert t[|p|] == (p + "/")[|p|] == '/';
  }

  /** Whoever an id is read as, the model keeps its last character. */
  lemma {:induction false} ParsedModelEnds(reg: Registry, t: string, p: string, dynamic: seq<string>, c: char)
    requires SlashFree(p) && p + "/" <= t && t[|t| - 1] == c != '/'
    ensures SlashIndex(t) == |p|
    ensures var r := ParsePrefixed(reg, t, |p|, dynamic).model;
            r.Some? && r.value != "" && r.value[|r.value| - 1] == c
  {
    hide NormalizeModelId, ResolveProvider;
    FirstSlash(t, p);
    BehindPrefix(t, p, c);
    ModelIdEnds(reg, ResolveProvider(p), t[|p| + 1..], c);
    var byKey, byDynamic := ProviderPrefix(Keys(reg), t), ProviderPrefix(dynamic, t);
    if byKey.Some? {
      BehindPrefix(t, byKey.value, c);
      ModelIdEnds(reg, byKey.value, t[|byKey.value| + 1..], c);
    }
    if byDynamic.Some? { BehindPrefix(t, byDynamic.value, c); }
  }

  lemma OmniRewrite(s: string, p: string)
    requires EndsWith(s, "/" + OMNI) && '/' !in p && p + "/" <= s
    ensures var t := ApplyModelAliases(s);
            && |s| >= |p| + 1 + |OMNI| && s[|s| - 1] == 'i'
            && p + "/" <= t && |t| > |p| + 1 && t[|t| - 1] == 'l'
  {
    var tail := "/" + OMNI;
    assert s[|s| - |tail|..] == tail;
    var k := |s| - |tail|;
    assert s[k] == '/' && s[|s| - 1] == tail[|tail| - 1] == 'i';
    FirstSlash(s, p);
    forall i | 0 <= i < |p| ensures s[i] != '/' {
      assert s[..|p|][i] in s[..|p|];
    }
    assert s != OMNI by { assert s[|p|] == '/' && '/' !in OMNI; }
    var t := ApplyModelAliases(s);
    assert t == s[..k + 1] + OMNI_SMALL;
    assert t[..|p| + 1] == s[..|p| + 1];
    assert t[|t| - 1] == OMNI_SMALL[|OMNI_SMALL| - 1];
  }

  lemma ScopedEnds(p: string, m: string, c: char)
    requires var s := Scoped(p, m); s != "" && s[|s| - 1] == c != '/'
    ensures m != "" && m[|m| - 1] == c
  {
    var s := p + "/" + m;
    assert s[|p|] == '/';
  }

  /** An id that ends in the omni family name is steered to the small model, which ends differently. */
  lemma {:induction false} OmniNeverBack(reg: Registry, p: string, m: string, dynamic: seq<string>)
    requires SlashFree(p)
    requires EndsWith(Scoped(p, m), "/" + OMNI)
    ensures Parse(reg, Some(Scoped(p, m)), dynamic) != Parsed(Some(p), Some(m))
  {
    hide ApplyModelAliases, ResolveProvider, ParsePrefixed, EndsWith, Scoped, Lists;
    var s := Scoped(p, m);
    ScopedShape(p, m);
    OmniRewrite(s, p);
    ScopedEnds(p, m, 'i');
    ParsedModelEnds(reg, ApplyModelAliases(s), p, dynamic, 'l');
    hide SlashFree, FindModelProvider;
  }

  lemma OnlySlash(s: string, at: nat, k: string)
    requires at < |s| && s[at] == '/' && '/' !in s[..at] && '/' !in s[at + 1..]
    requires k + "/" <= s
    ensures k == s[..at]
  {
    assert s[|k|] == (k + "/")[|k|] == '/';
    forall i | 0 <= i < at ensures s[i] != '/' {
      assert s[..at][i] in s[..at];
    }
    forall i | at < i < |s| ensures s[i] != '/' {
      assert s[at + 1..][i - at - 1] in s[at + 1..];
    }
    assert (k + "/")[..|k|] == k;
  }

  /** A string with its only slash after "gemini" is read as a gemini model, whoever is registered. */
  lemma GeminiStays(reg: Registry, s: string, dynamic: seq<string>)
    requires "gemini/" <= s && '/' !in s[7..]
    ensures SlashIndex(s) == 6 && ParsePrefixed(reg, s, 6, dynamic).provider == Some("gemini")
  {
    hide NormalizeModelId;
    assert "gemini" + "/" == "gemini/";
    FirstSlash(s, "gemini");
    forall k | k + "/" <= s ensures k == "gemini" {
      OnlySlash(s, 6, k);
    }
  }

  /** An id of the google spelling is steered to another provider. */
  lemma GoogleNeverBack(reg: Registry, p: string, m: string, dynamic: seq<string>, t: string)
    requires SlashFree(p) && "google/" <= Scoped(p, m)
    requires ApplyModelAliases(Scoped(p, m)) == t && "gemini/" <= t && '/' !in t[7..]
    ensures Parse(reg, Some(Scoped(p, m)), dynamic) != Parsed(Some(p), Some(m))
  {
    var s := Scoped(p, m);
    ScopedShape(p, m);
    assert "google" + "/" == "google/";
    FirstSlash(s, "google");
    hide ApplyModelAliases;
    GeminiStays(reg, t, dynamic);
  }

  lemma GoogleAliases(k: nat)
    requires 1 <= k <= 2
    ensures var (alias, canonical) := MODEL_ALIASES[k];
            && '/' in alias && "google/" <= alias && "gemini/" <= canonical && '/' !in canonical[7..]
  {
    assert MODEL_ALIASES[k].0[6] == '/';
  }

  lemma RewrittenGoogle(s: string)
    requires Rewritten(s) && s != OMNI && !EndsWith(s, "/" + OMNI)
    ensures "google/" <= s
    ensures var t := ApplyModelAliases(s); "gemini/" <= t && '/' !in t[7..]
  {
    AfterOmni(s);
    GoogleAliases(1);
    GoogleAliases(2);
    var (a, b) := MODEL_ALIASES[1];
    var (c, d) := MODEL_ALIASES[2];
    SlashAlias(s, a, b, [(c, d)]);
    assert [(c, d)] + [] == [(c, d)];
    SlashAlias(s, c, d, []);
    assert ApplyAliasesFrom(s, []) == s;
    hide ApplyAliasesFrom, ApplyModelAliases, EndsWith;
  }

  lemma {:induction false} RewrittenNeverBack(reg: Registry, p: string, m: string, dynamic: seq<string>)
    requires SlashFree(p) && Rewritten(Scoped(p, m))
    ensures Parse(reg, Some(Scoped(p, m)), dynamic) != Parsed(Some(p), Some(m))
  {
    var s := Scoped(p, m);
    ScopedShape(p, m);
    assert s != OMNI by { assert s[|p|] == '/' && '/' !in OMNI; }
    hide Parse, HasModel, ResolveProvider;
    if EndsWith(s, "/" + OMNI) {
      OmniNeverBack(reg, p, m, dynamic);
    } else {
      RewrittenGoogle(s);
      GoogleNeverBack(reg, p, m, dynamic, ApplyModelAliases(s));
    }
  }

  /** The round trip, exactly: a registered model's printed id is read back as itself unless the alias table
    rewrites the id or its prefix is not kept. */
  lemma {:induction false} RoundTripIff(reg: Registry, p: string, m: string, dynamic: seq<string>)
    requires SlashFree(p) && HasModel(reg, p, m)
    ensures Parse(reg, Some(Scoped(p, m)), dynamic) == Parsed(Some(p), Some(m))
       <==> !Rewritten(Scoped(p, m)) && KeepsPrefix(reg, p, m, dynamic)
  {
    hide Parse, Rewritten, HasModel, KeepsPrefix, Scoped;
    if Rewritten(Scoped(p, m)) {
      RewrittenNeverBack(reg, p, m, dynamic);
    } else {
      PlainRoundTripIff(reg, p, m, dynamic);
    }
  }

  // ---- The listing ----

  /** All (provider, model) pairs in listing order. */
  function Pairs(reg: Registry): seq<(string, Model)> {
    if reg == [] then []
    else seq(|reg[0].1|, i requires 0 <= i < |reg[0].1| => (reg[0].0, reg[0].1[i])) + Pairs(reg[1..])
  }

  function ListedAs(pair: (string, Model)): Listed {
    Listed(Scoped(pair.0, pair.1.id), pair.1.name, pair.0, pair.1.dimensions)
  }

  function AllModels(reg: Registry): (all: seq<Listed>)
    ensures |all| == |Pairs(reg)| && forall i :: 0 <= i < |all| ==> all[i] == ListedAs(Pairs(reg)[i])
  {
    seq(|Pairs(reg)|, i requires 0 <= i < |Pairs(reg)| => ListedAs(Pairs(reg)[i]))
  }

  lemma {:induction false} PairsConcat(a: Registry, b: Registry)
    ensures Pairs(a + b) == Pairs(a) + Pairs(b)
  {
    if a == [] {
      assert a + b == b;
    } else {
      assert (a + b)[1..] == a[1..] + b;
      PairsConcat(a[1..], b);
    }
  }

  lemma PairsStep(reg: Registry, i: nat)
    requires i < |reg|
    ensures Pairs(reg[..i + 1])
         == Pairs(reg[..i]) + seq(|reg[i].1|, j requires 0 <= j < |reg[i].1| => (reg[i].0, reg[i].1[j]))
  {
    assert reg[..i + 1] == reg[..i] + [reg[i]];
    PairsConcat(reg[..i], [reg[i]]);
    assert [reg[i]][1..] == [];
  }

  method GetAllEmbeddingModels(reg: Registry) returns (all: seq<Listed>)
    ensures all == AllModels(reg)
  {
    hide Scoped;
    all := [];
    for i := 0 to |reg|
      invariant all == AllModels(reg[..i])
    {
      PairsStep(reg, i);
      for j := 0 to |reg[i].1|
        invariant |all| == |Pairs(reg[..i])| + j
        invariant forall k :: 0 <= k < |all| ==> all[k] == ListedAs(Pairs(reg[..i + 1])[k])
      {
        all := all + [ListedAs((reg[i].0, reg[i].1[j]))];
      }
    }
    assert reg[..|reg|] == reg;
  }

  /** Where the models of provider `i` start in the listing. */
  function Offset(reg: Registry, i: nat): nat
    requires i <= |reg|
  {
    if i == 0 then 0 else Offset(reg, i - 1) + |reg[i - 1].1|
  }

  lemma {:induction false} OffsetTail(reg: Registry, i: nat)
    requires 0 < i <= |reg|
    ensures Offset(reg, i) == |reg[0].1| + Offset(reg[1..], i - 1)
  {
    if i > 1 { OffsetTail(reg, i - 1); }
  }

  lemma {:induction false} OffsetMonotone(reg: Registry, i: nat, k: nat)
    requires i <= k <= |reg|
    ensures Offset(reg, i) <= Offset(reg, k)
  {
    if i < k { OffsetMonotone(reg, i, k - 1); }
  }

  lemma {:induction false} PairsLength(reg: Registry)
    ensures |Pairs(reg)| == Offset(reg, |reg|)
  {
    if reg != [] {
      PairsLength(reg[1..]);
      OffsetTail(reg, |reg|);
    }
  }

  lemma {:induction false} PairAt(reg: Registry, i: nat, j: nat)
    requires i < |reg| && j < |reg[i].1|
    ensures Offset(reg, i) + j < |Pairs(reg)| && Pairs(reg)[Offset(reg, i) + j] == (reg[i].0, reg[i].1[j])
  {
    if i > 0 {
      OffsetTail(reg, i);
      PairAt(reg[1..], i - 1, j);
    }
  }

  /** The listing holds every model of every provider, in order, with its name and dimensions. */
  lemma {:induction false} ListingIsComplete(reg: Registry, i: nat, j: nat)
    requires i < |reg| && j < |reg[i].1|
    ensures |AllModels(reg)| == Offset(reg, |reg|) && Offset(reg, i) + j < |AllModels(reg)|
    ensures Pairs(reg)[Offset(reg, i) + j] == (reg[i].0, reg[i].1[j])
    ensures var listed := AllModels(reg)[Offset(reg, i) + j];
            listed.provider == reg[i].0 && listed.name == reg[i].1[j].name
            && listed.dimensions == reg[i].1[j].dimensions
    decreases |reg|
  {
    hide Scoped;
    PairsLength(reg);
    OffsetMonotone(reg, i + 1, |reg|);
    PairAt(reg, i, j);
  }

  predicate UniqueKeys(reg: Registry) {
    forall i, j :: 0 <= i < j < |reg| ==> reg[i].0 != reg[j].0
  }

  lemma {:induction false} PairsAreRegistered(reg: Registry, i: nat)
    requires UniqueKeys(reg) && i < |Pairs(reg)|
    ensures HasModel(reg, Pairs(reg)[i].0, Pairs(reg)[i].1.id)
    ensures exists k :: 0 <= k < |reg| && reg[k].0 == Pairs(reg)[i].0
  {
    var n := |reg[0].1|;
    if i < n {
      assert reg[0].1[i].id == Pairs(reg)[i].1.id;
    } else {
      PairsAreRegistered(reg[1..], i - n);
      var k :| 0 <= k < |reg| - 1 && reg[1..][k].0 == Pairs(reg)[i].0;
      assert reg[k + 1].0 == Pairs(reg)[i].0;
    }
  }

  lemma OnlyOwnKey(reg: Registry, p: string, m: string)
    requires PlainKeys(reg) && SlashFree(p) && HasModel(reg, p, m)
    ensures ProviderPrefix(Keys(reg), Scoped(p, m)) == Some(p)
  {
    ScopedShape(p, m);
    RegisteredIsKey(reg, p);
    hide Scoped;
    var s := Scoped(p, m);
    forall k | k in Keys(reg) && k + "/" <= s ensures k == p {
      var i :| 0 <= i < |reg| && Keys(reg)[i] == k;
      assert SlashFree(reg[i].0);
      FirstSlash(s, k);
    }
  }

  /** The provider lists both the id and the id without the provider's own prefix. */
  predicate ListsBoth(reg: Registry, p: string, m: string) {
    HasModel(reg, p, m) && p + "/" <= m && HasModel(reg, p, m[|p| + 1..])
  }

  /** A listed id is read back as exactly its provider and its registered model, whatever dynamic providers
    there are, exactly when no alias rewrites it and: for a provider that goes by its own name, it is not
    listed in both forms, and its own prefix belongs to no dynamic provider; for one whose name stands for
    another, the model's id carries no prefix, and a dynamic provider has the name or the other is not
    registered. */
  lemma {:induction false} EveryListedIdParses(reg: Registry, i: nat, dynamic: seq<string>)
    requires UniqueKeys(reg) && PlainKeys(reg) && i < |AllModels(reg)|
    ensures var (p, model), listed := Pairs(reg)[i], AllModels(reg)[i];
            && listed.provider == p
            && (Parse(reg, Some(listed.id), dynamic) == Parsed(Some(p), Some(model.id))
                <==> !Rewritten(listed.id)
                     && if ResolveProvider(p) == p
                        then !ListsBoth(reg, p, model.id) && !(p + "/" <= model.id && p in dynamic)
                        else !(p + "/" <= model.id) && (p in dynamic || ModelsOf(reg, ResolveProvider(p)).None?))
  {
    hide HasModel, Rewritten, ResolveProvider, Parse, Scoped, ModelsOf;
    PairsAreRegistered(reg, i);
    var (p, model) := Pairs(reg)[i];
    OnlyOwnKey(reg, p, model.id);
    RoundTripIff(reg, p, model.id, dynamic);
  }
}
