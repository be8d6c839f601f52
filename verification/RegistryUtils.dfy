/** The media registries: listing "provider/model" ids, parsing them, and the memoised model index. */
module RegistryUtils {
  import opened Basics

  datatype Model = Model(id: string, name: string)

  datatype Provider = Provider(alias: Option<string>, models: seq<Model>)

  /** Providers in insertion order, by id. */
  type Registry = Record<Provider>

  datatype Parsed = Parsed(provider: Option<string>, model: Option<string>)

  /** What a field of a listed entry holds: a text, or some value that is none. */
  datatype Value = Text(s: string) | Raw(n: int)

  type Fields = map<string, Value>

  /** The callback for extra fields, if one is given. */
  type Extra = Option<(string, Provider) -> Fields>

  predicate Lists(models: seq<Model>, id: string) {
    exists i :: 0 <= i < |models| && models[i].id == id
  }

  /** The linear scan: the first provider that lists the model. */
  function FirstProvider(reg: Registry, id: string): Option<string> {
    if reg == [] then None
    else if Lists(reg[0].1.models, id) then Some(reg[0].0)
    else FirstProvider(reg[1..], id)
  }

  lemma {:induction false} FirstProviderConcat(a: Registry, b: Registry, id: string)
    ensures FirstProvider(a + b, id)
         == if FirstProvider(a, id).Some? then FirstProvider(a, id) else FirstProvider(b, id)
  {
    if a == [] {
      assert a + b == b;
    } else {
      assert (a + b)[1..] == a[1..] + b;
      FirstProviderConcat(a[1..], b, id);
    }
  }

  lemma FirstProviderStep(reg: Registry, i: nat, id: string)
    requires i < |reg|
    ensures FirstProvider(reg[..i + 1], id)
         == if FirstProvider(reg[..i], id).Some? then FirstProvider(reg[..i], id)
            else if Lists(reg[i].1.models, id) then Some(reg[i].0) else None
  {
    assert reg[..i + 1] == reg[..i] + [reg[i]];
    assert [reg[i]][1..] == [];
    hide Lists;
    FirstProviderConcat(reg[..i], [reg[i]], id);
  }

  // ---- Prefixes ----

  /** What a prefix match yields: the text behind the slash. */
  function Behind(prefix: string, s: string): Option<string> {
    if prefix + "/" <= s then Some(s[|prefix| + 1..]) else None
  }

  /** One provider's claim: its id first, then its alias if it has one. */
  function Claim(entry: (string, Provider), s: string): Option<string> {
    var byId := Behind(entry.0, s);
    if byId.Some? then byId
    else if entry.1.alias.Some? && entry.1.alias.value != "" then Behind(entry.1.alias.value, s)
    else None
  }

  function MatchPrefix(reg: Registry, s: string): Option<(string, string)> {
    if reg == [] then None
    else
      var model := Claim(reg[0], s);
      if model.Some? then Some((reg[0].0, model.value)) else MatchPrefix(reg[1..], s)
  }

  /** Parsing without an index. */
  function ParseScanning(reg: Registry, input: Option<string>): Parsed {
    if input == None || input.value == "" then Parsed(None, None)
    else
      var s := input.value;
      match MatchPrefix(reg, s)
      case Some((provider, model)) => Parsed(Some(provider), Some(model))
      case None =>
        var owner := FirstProvider(reg, s);
        Parsed(if owner.Some? && owner.value != "" then owner else None, Some(s))
  }

  /** The entry at `i` is the first whose provider lists the model. */
  predicate ListsFirst(reg: Registry, id: string, i: nat)
    requires i < |reg|
  {
    (exists k :: 0 <= k < |reg[i].1.models| && reg[i].1.models[k].id == id)
    && forall j :: 0 <= j < i ==> forall k :: 0 <= k < |reg[j].1.models| ==> reg[j].1.models[k].id != id
  }

  lemma {:induction false} FirstProviderIsFirst(reg: Registry, id: string)
    ensures match FirstProvider(reg, id)
            case Some(p) => exists i: nat :: i < |reg| && reg[i].0 == p && ListsFirst(reg, id, i)
            case None => forall i :: 0 <= i < |reg| ==> !Lists(reg[i].1.models, id)
  {
    if reg != [] && !Lists(reg[0].1.models, id) {
      var rest := reg[1..];
      FirstProviderIsFirst(rest, id);
      assert forall j :: 0 < j < |reg| ==> rest[j - 1] == reg[j];
      if FirstProvider(rest, id).Some? {
        var i: nat :| i < |rest| && rest[i].0 == FirstProvider(rest, id).value && ListsFirst(rest, id, i);
        forall j | 0 <= j < i + 1 ensures forall k :: 0 <= k < |reg[j].1.models| ==> reg[j].1.models[k].id != id {
          if j > 0 { assert reg[j] == rest[j - 1]; }
        }
        assert ListsFirst(reg, id, i + 1);
      }
    } else if reg != [] {
      assert ListsFirst(reg, id, 0);
    }
  }

  /** No id and no alias, followed by a slash, starts `s`. */
  predicate Unprefixed(reg: Registry, s: string) {
    forall i :: 0 <= i < |reg| ==>
      !(reg[i].0 + "/" <= s)
      && (reg[i].1.alias.Some? && reg[i].1.alias.value != "" ==> !(reg[i].1.alias.value + "/" <= s))
  }

  lemma {:induction false} NoMatch(reg: Registry, s: string)
    requires Unprefixed(reg, s)
    ensures MatchPrefix(reg, s) == None
  {
    if reg != [] {
      assert forall i :: 0 < i < |reg| ==> reg[1..][i - 1] == reg[i];
      NoMatch(reg[1..], s);
    }
  }

  lemma FirstIsOne(reg: Registry, s: string, i: nat, j: nat)
    requires i < |reg| && j < |reg| && ListsFirst(reg, s, i) && ListsFirst(reg, s, j)
    ensures i == j
  {
  }

  /** An id without a known prefix belongs to the first provider that lists it, unless that has an empty id. */
  lemma BareIdParses(reg: Registry, s: string)
    requires s != "" && Unprefixed(reg, s)
    ensures var r := ParseScanning(reg, Some(s));
            && r.model == Some(s)
            && match r.provider
               case Some(p) => p != "" && exists i: nat :: i < |reg| && reg[i].0 == p && ListsFirst(reg, s, i)
               case None => forall i: nat :: i < |reg| && ListsFirst(reg, s, i) ==> reg[i].0 == ""
  {
    NoMatch(reg, s);
    FirstProviderIsFirst(reg, s);
    forall i: nat, j: nat | i < |reg| && j < |reg| && ListsFirst(reg, s, i) && ListsFirst(reg, s, j) ensures i == j {
      FirstIsOne(reg, s, i, j);
    }
    forall i: nat | i < |reg| && ListsFirst(reg, s, i) ensures Lists(reg[i].1.models, s) {}
    hide MatchPrefix, ListsFirst, Lists;
  }

  // ---- The memoised index ----

  ghost predicate IsIndex(reg: Registry, index: map<string, string>) {
    forall id :: (if id in index then Some(index[id]) else None) == FirstProvider(reg, id)
  }

  lemma ListsStep(models: seq<Model>, j: nat)
    requires j < |models|
    ensures forall id :: Lists(models[..j + 1], id) <==> Lists(models[..j], id) || id == models[j].id
  {
    forall id ensures Lists(models[..j + 1], id) <==> Lists(models[..j], id) || id == models[j].id {
      if k :| 0 <= k < j && models[..j][k].id == id { assert models[..j + 1][k].id == id; }
      assert models[..j + 1][j].id == models[j].id;
      var longer := models[..j + 1];
      if k :| 0 <= k < |longer| && longer[k].id == id {
        if k < j { assert models[..j][k].id == id; }
      }
    }
  }

  method BuildIndex(reg: Registry) returns (index: map<string, string>)
    ensures IsIndex(reg, index)
  {
    index := map[];
    for i := 0 to |reg|
      invariant IsIndex(reg[..i], index)
    {
      ghost var before := index;
      var models := reg[i].1.models;
      for j := 0 to |models|
        invariant forall id :: id in index <==> id in before || Lists(models[..j], id)
        invariant forall id :: id in index ==> index[id] == if id in before then before[id] else reg[i].0
      {
        ListsStep(models, j);
        if models[j].id !in index { index := index[models[j].id := reg[i].0]; }
      }
      assert models[..|models|] == models;
      hide Lists;
      forall id ensures (if id in index then Some(index[id]) else None) == FirstProvider(reg[..i + 1], id) {
        FirstProviderStep(reg, i, id);
      }
    }
    assert reg[..|reg|] == reg;
  }

  method FindPrefix(reg: Registry, s: string) returns (found: Option<(string, string)>)
    ensures found == MatchPrefix(reg, s)
  {
    for i := 0 to |reg|
      invariant MatchPrefix(reg[i..], s) == MatchPrefix(reg, s)
    {
      assert reg[i..][1..] == reg[i + 1..];
      var model := Claim(reg[i], s);
      if model.Some? { return Some((reg[i].0, model.value)); }
    }
    assert reg[|reg|..] == [];
    found := None;
  }

  /** The index cache. A registry is a static object: `registries` says what each one holds, and the cache
    is keyed by the object. */
  class IndexCache {
    const registries: nat -> Registry
    var cache: map<nat, map<string, string>>

    ghost predicate Valid()
      reads this
    {
      forall r :: r in cache ==> IsIndex(registries(r), cache[r])
    }

    constructor (registries: nat -> Registry)
      ensures Valid() && this.registries == registries
    {
      this.registries := registries;
      cache := map[];
    }

    method GetRegistryModelIndex(r: nat) returns (index: map<string, string>)
      requires Valid()
      modifies this
      ensures Valid() && IsIndex(registries(r), index)
      ensures cache == old(cache)[r := index] && (r in old(cache) ==> index == old(cache)[r])
    {
      if r in cache {
        index := cache[r];
        assert cache == cache[r := index];
      } else {
        index := BuildIndex(registries(r));
        cache := cache[r := index];
      }
    }

    /** Whatever calls came before, the answer is that of the linear scan. */
    method ParseModelFromRegistry(input: Option<string>, r: nat) returns (parsed: Parsed)
      requires Valid()
      modifies this
      ensures Valid()
      ensures parsed == ParseScanning(registries(r), input)
    {
      if input == None || input.value == "" { return Parsed(None, None); }
      var s := input.value;
      var claimed := FindPrefix(registries(r), s);
      if claimed.Some? { return Parsed(Some(claimed.value.0), Some(claimed.value.1)); }
      var index := GetRegistryModelIndex(r);
      if s in index && index[s] != "" { return Parsed(Some(index[s]), Some(s)); }
      parsed := Parsed(None, Some(s));
    }
  }

  // ---- The listing ----

  /** The prefixes a provider is listed under: its id, then its alias, if not empty. */
  function Prefixes(entry: (string, Provider)): seq<string> {
    (if entry.0 != "" then [entry.0] else [])
    + if entry.1.alias.Some? && entry.1.alias.value != "" then [entry.1.alias.value] else []
  }

  /** What one listed entry was made from. */
  datatype Origin = Origin(provider: string, prefix: string, model: Model, fields: Fields)

  function OriginsOfModel(provider: string, prefixes: seq<string>, model: Model, fields: Fields): seq<Origin> {
    if prefixes == [] then []
    else [Origin(provider, prefixes[0], model, fields)] + OriginsOfModel(provider, prefixes[1..], model, fields)
  }

  function OriginsOfModels(provider: string, prefixes: seq<string>, models: seq<Model>, fields: Fields): seq<Origin> {
    if models == [] then []
    else OriginsOfModel(provider, prefixes, models[0], fields)
         + OriginsOfModels(provider, prefixes, models[1..], fields)
  }

  function ExtraFields(extra: Extra, entry: (string, Provider)): Fields {
    if extra.Some? then extra.value(entry.0, entry.1) else map[]
  }

  /** All listed entries in listing order, by what they were made from. */
  function Origins(reg: Registry, extra: Extra): seq<Origin> {
    if reg == [] then []
    else OriginsOfModels(reg[0].0, Prefixes(reg[0]), reg[0].1.models, ExtraFields(extra, reg[0]))
         + Origins(reg[1..], extra)
  }

  function PrintedId(o: Origin): string { o.prefix + "/" + o.model.id }

  /** Extra fields come last, so they win over the entry's own. */
  function Printed(o: Origin): Fields {
    map["id" := Text(PrintedId(o)), "name" := Text(o.model.name), "provider" := Text(o.provider)] + o.fields
  }

  function AllModels(origins: seq<Origin>): (all: seq<Fields>)
    ensures |all| == |origins| && forall i :: 0 <= i < |all| ==> all[i] == Printed(origins[i])
  {
    seq(|origins|, i requires 0 <= i < |origins| => Printed(origins[i]))
  }

  lemma AllModelsConcat(a: seq<Origin>, b: seq<Origin>)
    ensures AllModels(a + b) == AllModels(a) + AllModels(b)
  {
    hide Printed;
  }

  lemma AllModelsOne(o: Origin)
    ensures AllModels([o]) == [Printed(o)]
  {
  }

  /** Where a listing loop ends. */
  lemma NothingListed(provider: string, prefixes: seq<string>, model: Model, fields: Fields, extra: Extra)
    ensures AllModels([]) == []
    ensures OriginsOfModel(provider, [], model, fields) == []
    ensures OriginsOfModels(provider, prefixes, [], fields) == []
    ensures Origins([], extra) == []
  {
  }

  lemma ListModelStep(provider: string, prefixes: seq<string>, j: nat, model: Model, fields: Fields)
    requires j < |prefixes|
    ensures AllModels(OriginsOfModel(provider, prefixes[j..], model, fields))
         == [Printed(Origin(provider, prefixes[j], model, fields))]
            + AllModels(OriginsOfModel(provider, prefixes[j + 1..], model, fields))
  {
    hide AllModels, Printed;
    assert prefixes[j..][1..] == prefixes[j + 1..];
    var o := Origin(provider, prefixes[j], model, fields);
    AllModelsOne(o);
    AllModelsConcat([o], OriginsOfModel(provider, prefixes[j + 1..], model, fields));
  }

  method ListModel(provider: string, prefixes: seq<string>, model: Model, fields: Fields) returns (all: seq<Fields>)
    ensures all == AllModels(OriginsOfModel(provider, prefixes, model, fields))
  {
    hide Printed, AllModels, OriginsOfModel;
    NothingListed(provider, prefixes, model, fields, None);
    all := [];
    for j := 0 to |prefixes|
      invariant all + AllModels(OriginsOfModel(provider, prefixes[j..], model, fields))
             == AllModels(OriginsOfModel(provider, prefixes, model, fields))
    {
      ListModelStep(provider, prefixes, j, model, fields);
      all := all + [Printed(Origin(provider, prefixes[j], model, fields))];
    }
    assert prefixes[|prefixes|..] == [];
  }

  lemma ListProviderStep(provider: string, prefixes: seq<string>, models: seq<Model>, i: nat, fields: Fields)
    requires i < |models|
    ensures AllModels(OriginsOfModels(provider, prefixes, models[i..], fields))
         == AllModels(OriginsOfModel(provider, prefixes, models[i], fields))
            + AllModels(OriginsOfModels(provider, prefixes, models[i + 1..], fields))
  {
    hide AllModels, OriginsOfModel;
    assert models[i..][1..] == models[i + 1..];
    AllModelsConcat(OriginsOfModel(provider, prefixes, models[i], fields),
                    OriginsOfModels(provider, prefixes, models[i + 1..], fields));
  }

  method ListProvider(provider: string, prefixes: seq<string>, models: seq<Model>, fields: Fields)
    returns (all: seq<Fields>)
    ensures all == AllModels(OriginsOfModels(provider, prefixes, models, fields))
  {
    hide Printed, AllModels, OriginsOfModel, OriginsOfModels;
    all := [];
    for i := 0 to |models|
      invariant all + AllModels(OriginsOfModels(provider, prefixes, models[i..], fields))
             == AllModels(OriginsOfModels(provider, prefixes, models, fields))
    {
      ListProviderStep(provider, prefixes, models, i, fields);
      var listed := ListModel(provider, prefixes, models[i], fields);
      all := all + listed;
    }
    assert models[|models|..] == [];
    NothingListed(provider, prefixes, Model("", ""), fields, None);
  }

  lemma ListRegistryStep(reg: Registry, i: nat, extra: Extra)
    requires i < |reg|
    ensures AllModels(Origins(reg[i..], extra))
         == AllModels(OriginsOfModels(reg[i].0, Prefixes(reg[i]), reg[i].1.models, ExtraFields(extra, reg[i])))
            + AllModels(Origins(reg[i + 1..], extra))
  {
    hide AllModels, OriginsOfModels, Prefixes, ExtraFields;
    assert reg[i..][1..] == reg[i + 1..];
    AllModelsConcat(OriginsOfModels(reg[i].0, Prefixes(reg[i]), reg[i].1.models, ExtraFields(extra, reg[i])),
                    Origins(reg[i + 1..], extra));
  }

  method GetAllModelsFromRegistry(reg: Registry, extra: Extra) returns (all: seq<Fields>)
    ensures all == AllModels(Origins(reg, extra))
  {
    hide Printed, AllModels, Origins, OriginsOfModels, Prefixes, ExtraFields;
    all := [];
    for i := 0 to |reg|
      invariant all + AllModels(Origins(reg[i..], extra)) == AllModels(Origins(reg, extra))
    {
      ListRegistryStep(reg, i, extra);
      var fields := ExtraFields(extra, reg[i]);
      var listed := ListProvider(reg[i].0, Prefixes(reg[i]), reg[i].1.models, fields);
      all := all + listed;
    }
    assert reg[|reg|..] == [];
    NothingListed("", [], Model("", ""), map[], extra);
  }

  /** The prefixes of a listed provider: its id first, then its alias, none of them empty. */
  lemma PrefixesAre(entry: (string, Provider))
    ensures forall x :: x in Prefixes(entry) <==> x != "" && (x == entry.0 || entry.1.alias == Some(x))
    ensures |Prefixes(entry)| <= 2 && (entry.0 != "" ==> Prefixes(entry)[0] == entry.0)
    ensures |Prefixes(entry)| == 2 ==> entry.1.alias == Some(Prefixes(entry)[1])
  {
  }

  /** Where the entries of model `j` start among those of its provider. */
  function ModelOffset(prefixes: seq<string>, j: nat): nat {
    if j == 0 then 0 else ModelOffset(prefixes, j - 1) + |prefixes|
  }

  /** Where the entries of provider `i` start in the listing. */
  function ProviderOffset(reg: Registry, i: nat): nat
    requires i <= |reg|
  {
    if i == 0 then 0 else ProviderOffset(reg, i - 1) + ModelOffset(Prefixes(reg[i - 1]), |reg[i - 1].1.models|)
  }

  lemma {:induction false} OriginOfModelAt(
    provider: string, prefixes: seq<string>, model: Model, fields: Fields, q: nat)
    ensures |OriginsOfModel(provider, prefixes, model, fields)| == |prefixes|
    ensures q < |prefixes| ==>
              OriginsOfModel(provider, prefixes, model, fields)[q] == Origin(provider, prefixes[q], model, fields)
  {
    if prefixes != [] { OriginOfModelAt(provider, prefixes[1..], model, fields, if q > 0 then q - 1 else 0); }
  }

  lemma {:induction false} ModelOffsetTail(prefixes: seq<string>, j: nat)
    requires j > 0
    ensures ModelOffset(prefixes, j) == |prefixes| + ModelOffset(prefixes, j - 1)
  {
    if j > 1 { ModelOffsetTail(prefixes, j - 1); }
  }

  lemma {:induction false} OriginsCount(provider: string, prefixes: seq<string>, models: seq<Model>, fields: Fields)
    ensures |OriginsOfModels(provider, prefixes, models, fields)| == ModelOffset(prefixes, |models|)
  {
    if models != [] {
      OriginOfModelAt(provider, prefixes, models[0], fields, 0);
      ModelOffsetTail(prefixes, |models|);
      OriginsCount(provider, prefixes, models[1..], fields);
      hide OriginsOfModel, ModelOffset;
    }
  }

  lemma {:induction false} OriginOfModelsAt(
      provider: string, prefixes: seq<string>, models: seq<Model>, fields: Fields, j: nat, q: nat)
    requires j < |models| && q < |prefixes|
    ensures var origins, k := OriginsOfModels(provider, prefixes, models, fields), ModelOffset(prefixes, j) + q;
            k < |origins| && origins[k] == Origin(provider, prefixes[q], models[j], fields)
  {
    OriginOfModelAt(provider, prefixes, models[0], fields, q);
    if j > 0 {
      OriginOfModelsAt(provider, prefixes, models[1..], fields, j - 1, q);
      ModelOffsetTail(prefixes, j);
      hide OriginsOfModel, ModelOffset;
    }
  }

  lemma {:induction false} ProviderOffsetTail(reg: Registry, i: nat)
    requires 0 < i <= |reg|
    ensures ProviderOffset(reg, i)
         == ModelOffset(Prefixes(reg[0]), |reg[0].1.models|) + ProviderOffset(reg[1..], i - 1)
  {
    hide Prefixes, ModelOffset;
    if i > 1 { ProviderOffsetTail(reg, i - 1); }
  }

  lemma {:induction false} OriginAt(reg: Registry, extra: Extra, i: nat, j: nat, q: nat)
    ensures |Origins(reg, extra)| == ProviderOffset(reg, |reg|)
    ensures i < |reg| && j < |reg[i].1.models| && q < |Prefixes(reg[i])| ==>
              var k := ProviderOffset(reg, i) + ModelOffset(Prefixes(reg[i]), j) + q;
              k < |Origins(reg, extra)|
              && Origins(reg, extra)[k]
                 == Origin(reg[i].0, Prefixes(reg[i])[q], reg[i].1.models[j], ExtraFields(extra, reg[i]))
    decreases |reg|
  {
    hide Prefixes, ModelOffset, ExtraFields, OriginsOfModels;
    if reg != [] {
      var (provider, p) := reg[0];
      OriginsCount(provider, Prefixes(reg[0]), p.models, ExtraFields(extra, reg[0]));
      if i == 0 && j < |p.models| && q < |Prefixes(reg[0])| {
        OriginOfModelsAt(provider, Prefixes(reg[0]), p.models, ExtraFields(extra, reg[0]), j, q);
      }
      ProviderOffsetTail(reg, |reg|);
      OriginAt(reg[1..], extra, if i > 0 then i - 1 else 0, j, q);
      if 0 < i < |reg| { ProviderOffsetTail(reg, i); }
    }
  }

  /** The listing holds every model of every provider under each of its prefixes, in order and nothing else; each
    entry carries the printed id, the model's name and the provider unless an extra field replaces one. */
  lemma ListingIsComplete(reg: Registry, extra: Extra, i: nat, j: nat, q: nat)
    requires i < |reg| && j < |reg[i].1.models| && q < |Prefixes(reg[i])|
    ensures var all, k := AllModels(Origins(reg, extra)), ProviderOffset(reg, i) + ModelOffset(Prefixes(reg[i]), j) + q;
            var model := reg[i].1.models[j];
            var fields: Fields := match extra
                                  case Some(f) => f(reg[i].0, reg[i].1)
                                  case None => map[];
            && |all| == ProviderOffset(reg, |reg|) && k < |all|
            && (forall key :: key in all[k] <==> key in fields || key in {"id", "name", "provider"})
            && (forall key :: key in fields ==> all[k][key] == fields[key])
            && ("id" !in fields ==> all[k]["id"] == Text(Prefixes(reg[i])[q] + "/" + model.id))
            && ("name" !in fields ==> all[k]["name"] == Text(model.name))
            && ("provider" !in fields ==> all[k]["provider"] == Text(reg[i].0))
  {
    hide Prefixes, ModelOffset, ProviderOffset, Origins;
    OriginAt(reg, extra, i, j, q);
  }

  // ---- The round trip ----

  /** Ids and aliases carry no slash. */
  predicate SlashFree(reg: Registry) {
    forall i :: 0 <= i < |reg| ==> '/' !in reg[i].0 && (reg[i].1.alias.Some? ==> '/' !in reg[i].1.alias.value)
  }

  predicate UniqueIds(reg: Registry) {
    forall i, j :: 0 <= i < j < |reg| ==> reg[i].0 != reg[j].0
  }

  predicate Answers(entry: (string, Provider), prefix: string) {
    entry.0 == prefix || (prefix != "" && entry.1.alias == Some(prefix))
  }

  /** The first provider that has the prefix as its id or alias. */
  function FirstAnswering(reg: Registry, prefix: string): Option<string> {
    if reg == [] then None
    else if Answers(reg[0], prefix) then Some(reg[0].0)
    else FirstAnswering(reg[1..], prefix)
  }

  /** Slash-free prefixes can be told apart in a printed id. */
  lemma OnlyOwnPrefix(p: string, q: string, m: string)
    requires '/' !in p && '/' !in q
    ensures Behind(q, p + "/" + m) == if p == q then Some(m) else None
  {
    var s, k := p + "/" + m, q + "/";
    assert s[|p|] == '/' && k[|q|] == '/';
    if |q| < |p| {
      assert s[|q|] == p[|q|] && p[|q|] in p;
    } else if |p| < |q| {
      assert k[|p|] == q[|p|] && q[|p|] in q;
    } else {
      assert s[..|q|] == p && k[..|q|] == q;
      assert s[|p| + 1..] == m;
      assert p == q ==> s[..|q| + 1] == k;
    }
  }

  lemma {:induction false} MatchOfPrinted(reg: Registry, prefix: string, m: string)
    requires SlashFree(reg) && '/' !in prefix && prefix != ""
    ensures MatchPrefix(reg, prefix + "/" + m)
         == match FirstAnswering(reg, prefix)
            case Some(provider) => Some((provider, m))
            case None => None
  {
    hide Behind;
    if reg != [] {
      OnlyOwnPrefix(prefix, reg[0].0, m);
      if reg[0].1.alias.Some? { OnlyOwnPrefix(prefix, reg[0].1.alias.value, m); }
      assert SlashFree(reg[1..]);
      MatchOfPrinted(reg[1..], prefix, m);
    }
  }

  lemma {:induction false} FirstAnsweringAt(reg: Registry, i: nat, prefix: string)
    requires UniqueIds(reg) && i < |reg| && Answers(reg[i], prefix)
    ensures FirstAnswering(reg, prefix).Some?
    ensures FirstAnswering(reg, prefix) == Some(reg[i].0) <==> forall j :: 0 <= j < i ==> !Answers(reg[j], prefix)
  {
    hide Answers;
    if i > 0 && !Answers(reg[0], prefix) {
      assert forall j :: 0 <= j < |reg| - 1 ==> reg[1..][j] == reg[j + 1];
      FirstAnsweringAt(reg[1..], i - 1, prefix);
      if forall j :: 0 <= j < i - 1 ==> !Answers(reg[1..][j], prefix) {
        forall j | 0 <= j < i ensures !Answers(reg[j], prefix) {
          if j > 0 { assert reg[j] == reg[1..][j - 1]; }
        }
      }
    }
  }

  /** A printed id is read back as its provider and model exactly when no earlier provider answers to
    the prefix. */
  lemma RoundTripIff(reg: Registry, i: nat, prefix: string, m: string)
    requires SlashFree(reg) && UniqueIds(reg) && i < |reg| && prefix != "" && Answers(reg[i], prefix)
    ensures ParseScanning(reg, Some(prefix + "/" + m)) == Parsed(Some(reg[i].0), Some(m))
       <==> forall j :: 0 <= j < i ==> !Answers(reg[j], prefix)
  {
    assert '/' !in prefix;
    MatchOfPrinted(reg, prefix, m);
    FirstAnsweringAt(reg, i, prefix);
  }

  /** No id or alias serves two providers. */
  ghost predicate DistinctPrefixes(reg: Registry) {
    forall i, j, p :: 0 <= i < j < |reg| && p != "" && Answers(reg[i], p) ==> !Answers(reg[j], p)
  }

  lemma {:induction false} OriginsOfOne(provider: string, prefixes: seq<string>, model: Model, fields: Fields, k: nat)
    requires k < |OriginsOfModel(provider, prefixes, model, fields)|
    ensures var o := OriginsOfModel(provider, prefixes, model, fields)[k];
            o.provider == provider && o.prefix in prefixes && o.model == model && o.fields == fields
  {
    if k > 0 { OriginsOfOne(provider, prefixes[1..], model, fields, k - 1); }
  }

  lemma {:induction false} OriginsAre(
      provider: string, prefixes: seq<string>, models: seq<Model>, fields: Fields, k: nat)
    requires k < |OriginsOfModels(provider, prefixes, models, fields)|
    ensures var o := OriginsOfModels(provider, prefixes, models, fields)[k];
            o.provider == provider && o.prefix in prefixes && o.model in models && o.fields == fields
  {
    var first := OriginsOfModel(provider, prefixes, models[0], fields);
    if k < |first| {
      OriginsOfOne(provider, prefixes, models[0], fields, k);
    } else {
      OriginsAre(provider, prefixes, models[1..], fields, k - |first|);
    }
  }

  lemma {:induction false} OriginIsListed(reg: Registry, extra: Extra, k: nat) returns (i: nat)
    requires k < |Origins(reg, extra)|
    ensures var o := Origins(reg, extra)[k];
            && i < |reg| && reg[i].0 == o.provider && o.prefix != "" && Answers(reg[i], o.prefix)
            && o.model in reg[i].1.models && o.fields == ExtraFields(extra, reg[i])
  {
    var fields := ExtraFields(extra, reg[0]);
    var first := OriginsOfModels(reg[0].0, Prefixes(reg[0]), reg[0].1.models, fields);
    if k < |first| {
      OriginsAre(reg[0].0, Prefixes(reg[0]), reg[0].1.models, fields, k);
      i := 0;
    } else {
      var j := OriginIsListed(reg[1..], extra, k - |first|);
      i := j + 1;
    }
  }

  /** Every printed id, in its id form and in its alias form, is read back as its provider and model; and it
    is what the listing shows exactly when no extra field puts something else in its place. */
  lemma EveryListedIdParses(reg: Registry, extra: Extra, k: nat)
    requires SlashFree(reg) && UniqueIds(reg) && DistinctPrefixes(reg) && k < |Origins(reg, extra)|
    ensures var o, listed := Origins(reg, extra)[k], AllModels(Origins(reg, extra))[k];
            && ParseScanning(reg, Some(PrintedId(o))) == Parsed(Some(o.provider), Some(o.model.id))
            && "id" in listed && "provider" in listed
            && (listed["id"] == Text(PrintedId(o)) <==> ("id" in o.fields ==> o.fields["id"] == Text(PrintedId(o))))
            && (listed["provider"] == Text(o.provider) <==>
                ("provider" in o.fields ==> o.fields["provider"] == Text(o.provider)))
  {
    hide ParseScanning, Answers;
    var i := OriginIsListed(reg, extra, k);
    RoundTripIff(reg, i, Origins(reg, extra)[k].prefix, Origins(reg, extra)[k].model.id);
  }
}
