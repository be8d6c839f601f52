/** Removing `enumDescriptions` from tool schemas.

  The rewrite is followed path by path: a path names a place in a JSON tree, and what stands at a place
  of the result is compared with what stood there before.
 */
module ToolCloaking {
  import opened Basics

  const BANNED := "enumDescriptions"

  datatype Json = Null | Bool(b: bool) | Num(n: real) | Str(s: string) | Arr(items: seq<Json>) | Obj(fields: seq<Field>)

  /** Fields of an object in insertion order. */
  datatype Field = Field(key: string, value: Json)

  // ---- Places in a tree ----

  datatype Step = Key(name: string) | Index(i: nat)

  type Path = seq<Step>

  function Get(fields: seq<Field>, key: string): Option<Json> {
    if fields == [] then None else if fields[0].key == key then Some(fields[0].value) else Get(fields[1..], key)
  }

  function Child(j: Json, s: Step): Option<Json> {
    match (j, s)
    case (Obj(fields), Key(name)) => Get(fields, name)
    case (Arr(items), Index(i)) => if i < |items| then Some(items[i]) else None
    case _ => None
  }

  function At(j: Json, path: Path): Option<Json>
    decreases path
  {
    if path == [] then Some(j)
    else
      match Child(j, path[0])
      case Some(c) => At(c, path[1..])
      case None => None
  }

  predicate Passes(path: Path) { Key(BANNED) in path }

  // ---- The rewrite ----

  function Strip(j: Json): Json
    decreases j, 1
  {
    match j
    case Arr(items) => Arr(StripItems(items))
    case Obj(fields) => Obj(StripFields(fields))
    case _ => j
  }

  function StripItems(items: seq<Json>): (r: seq<Json>)
    ensures |r| == |items|
    decreases items, 0
  {
    if items == [] then [] else [Strip(items[0])] + StripItems(items[1..])
  }

  function StripFields(fields: seq<Field>): seq<Field>
    decreases fields, 0
  {
    if fields == [] then []
    else
      var f := fields[0];
      (if f.key == BANNED then [] else [Field(f.key, Strip(f.value))]) + StripFields(fields[1..])
  }

  lemma {:induction false} StripItemsAt(items: seq<Json>, i: nat)
    requires i < |items|
    ensures StripItems(items)[i] == Strip(items[i])
  {
    if i > 0 { StripItemsAt(items[1..], i - 1); }
  }

  function Mapped(j: Option<Json>): Option<Json> { if j.Some? then Some(Strip(j.value)) else None }

  lemma {:induction false} GetStripped(fields: seq<Field>, key: string)
    ensures Get(StripFields(fields), key) == if key == BANNED then None else Mapped(Get(fields, key))
  {
    if fields != [] {
      GetStripped(fields[1..], key);
      var f := fields[0];
      if f.key != BANNED {
        assert StripFields(fields) == [Field(f.key, Strip(f.value))] + StripFields(fields[1..]);
        assert StripFields(fields)[1..] == StripFields(fields[1..]);
      } else {
        assert StripFields(fields) == StripFields(fields[1..]);
      }
    }
  }

  /** The result has exactly the places whose path avoids the banned key, each with the stripped tree
    that stood there before. */
  lemma {:induction false} StripKeepsPaths(j: Json, path: Path)
    ensures At(Strip(j), path) == if Passes(path) then None else Mapped(At(j, path))
    decreases path
  {
    if path != [] {
      var s := path[0];
      assert Passes(path) <==> s == Key(BANNED) || Passes(path[1..]);
      if j.Obj? && s.Key? { GetStripped(j.fields, s.name); }
      if j.Arr? && s.Index? && s.i < |j.items| { StripItemsAt(j.items, s.i); }
      var c := Child(j, s);
      if c.Some? { StripKeepsPaths(c.value, path[1..]); }
    }
  }

  // ---- Clean trees ----

  /** No object at any depth has the banned key. */
  predicate Clean(j: Json)
    decreases j, 1
  {
    match j
    case Arr(items) => CleanItems(items)
    case Obj(fields) => CleanFields(fields)
    case _ => true
  }

  predicate CleanItems(items: seq<Json>)
    decreases items, 0
  {
    items == [] || (Clean(items[0]) && CleanItems(items[1..]))
  }

  predicate CleanFields(fields: seq<Field>)
    decreases fields, 0
  {
    fields == [] || (fields[0].key != BANNED && Clean(fields[0].value) && CleanFields(fields[1..]))
  }

  lemma {:induction false} StripItemsIsClean(items: seq<Json>)
    ensures CleanItems(StripItems(items))
    decreases items, 0
  {
    if items != [] {
      StripIsClean(items[0]);
      StripItemsIsClean(items[1..]);
      assert StripItems(items)[1..] == StripItems(items[1..]);
    }
  }

  lemma {:induction false} StripFieldsIsClean(fields: seq<Field>)
    ensures CleanFields(StripFields(fields))
    decreases fields, 0
  {
    if fields != [] {
      StripIsClean(fields[0].value);
      StripFieldsIsClean(fields[1..]);
      var r, rest := StripFields(fields), StripFields(fields[1..]);
      if fields[0].key == BANNED { assert r == rest; } else { assert r[1..] == rest; }
    }
  }

  /** The result is clean. */
  lemma {:induction false} StripIsClean(j: Json)
    ensures Clean(Strip(j))
    decreases j, 1
  {
    match j
    case Arr(items) => StripItemsIsClean(items);
    case Obj(fields) => StripFieldsIsClean(fields);
    case _ =>
  }

  lemma {:induction false} StripItemsOfClean(items: seq<Json>)
    requires CleanItems(items)
    ensures StripItems(items) == items
    decreases items, 0
  {
    if items != [] {
      StripOfClean(items[0]);
      StripItemsOfClean(items[1..]);
    }
  }

  lemma {:induction false} StripFieldsOfClean(fields: seq<Field>)
    requires CleanFields(fields)
    ensures StripFields(fields) == fields
    decreases fields, 0
  {
    if fields != [] {
      StripOfClean(fields[0].value);
      StripFieldsOfClean(fields[1..]);
    }
  }

  lemma {:induction false} StripOfClean(j: Json)
    requires Clean(j)
    ensures Strip(j) == j
    decreases j, 1
  {
    match j
    case Arr(items) => StripItemsOfClean(items);
    case Obj(fields) => StripFieldsOfClean(fields);
    case _ =>
  }

  /** Exactly the clean trees are left as they are; so stripping again changes nothing. */
  lemma StripFixesIffClean(j: Json)
    ensures Strip(j) == j <==> Clean(j)
    ensures Strip(Strip(j)) == Strip(j)
  {
    StripIsClean(j);
    if Clean(j) { StripOfClean(j); }
    StripOfClean(Strip(j));
  }

  /** No object at any depth has a key twice, as in every JSON value. */
  predicate KeysDistinct(j: Json)
    decreases j, 1
  {
    match j
    case Arr(items) => ItemsDistinct(items)
    case Obj(fields) => FieldsDistinct(fields)
    case _ => true
  }

  predicate ItemsDistinct(items: seq<Json>)
    decreases items, 0
  {
    items == [] || (KeysDistinct(items[0]) && ItemsDistinct(items[1..]))
  }

  predicate FieldsDistinct(fields: seq<Field>)
    decreases fields, 0
  {
    fields == []
    || (Get(fields[1..], fields[0].key).None? && KeysDistinct(fields[0].value) && FieldsDistinct(fields[1..]))
  }

  lemma {:induction false} BannedInFields(fields: seq<Field>) returns (path: Path)
    requires !CleanFields(fields) && FieldsDistinct(fields)
    ensures Passes(path) && path != [] && path[0].Key? && Get(fields, path[0].name).Some?
    ensures At(Obj(fields), path).Some?
    decreases fields, 0
  {
    var f := fields[0];
    if f.key == BANNED {
      path := [Key(BANNED)];
      assert path[1..] == [];
    } else if !Clean(f.value) {
      var below := BannedIn(f.value);
      path := [Key(f.key)] + below;
      assert path[1..] == below;
    } else {
      path := BannedInFields(fields[1..]);
    }
  }

  lemma {:induction false} BannedInItems(items: seq<Json>) returns (i: nat)
    requires !CleanItems(items) && ItemsDistinct(items)
    ensures i < |items| && !Clean(items[i]) && KeysDistinct(items[i])
    decreases items, 0
  {
    if !Clean(items[0]) { i := 0; } else { var k := BannedInItems(items[1..]); i := k + 1; }
  }

  lemma {:induction false} BannedIn(j: Json) returns (path: Path)
    requires !Clean(j) && KeysDistinct(j)
    ensures Passes(path) && At(j, path).Some?
    decreases j, 1
  {
    match j
    case Obj(fields) => path := BannedInFields(fields);
    case Arr(items) =>
      var i := BannedInItems(items);
      var below := BannedIn(items[i]);
      path := [Index(i)] + below;
      assert path[1..] == below;
  }

  /** A tree is clean exactly when it has no place whose path goes through the banned key. */
  lemma CleanIffNoBannedPath(j: Json)
    requires KeysDistinct(j)
    ensures Clean(j) <==> forall path: Path :: Passes(path) ==> At(j, path) == None
  {
    if Clean(j) {
      forall path: Path | Passes(path) ensures At(j, path) == None {
        StripOfClean(j);
        StripKeepsPaths(j, path);
      }
    } else {
      var path := BannedIn(j);
    }
  }

  function KeyNames(fields: seq<Field>): seq<string> {
    seq(|fields|, i requires 0 <= i < |fields| => fields[i].key)
  }

  function WithoutBanned(names: seq<string>): seq<string> {
    if names == [] then [] else (if names[0] == BANNED then [] else [names[0]]) + WithoutBanned(names[1..])
  }

  /** The keys that stay keep their order. */
  lemma {:induction false} StripKeepsOrder(fields: seq<Field>)
    ensures KeyNames(StripFields(fields)) == WithoutBanned(KeyNames(fields))
  {
    if fields != [] {
      assert KeyNames(fields)[1..] == KeyNames(fields[1..]);
      StripKeepsOrder(fields[1..]);
    }
  }

  // ---- Rewriting at a site ----

  /** One level of a site: a named field, or every item of an array. */
  datatype Level = Named(name: string) | Each

  type Site = seq<Level>

  function RewriteItems(site: Site, items: seq<Json>): (r: seq<Json>)
    ensures |r| == |items|
    decreases |site|, |items|
  {
    if items == [] then [] else [RewriteAt(site, items[0])] + RewriteItems(site, items[1..])
  }

  /** The value of the first field named `name` rewritten, all other fields as they are. */
  function RewriteField(site: Site, fields: seq<Field>, name: string): (r: seq<Field>)
    ensures |r| == |fields| && forall i :: 0 <= i < |r| ==> r[i].key == fields[i].key
    decreases |site|, |fields|
  {
    if fields == [] then []
    else if fields[0].key == name then [Field(name, RewriteAt(site, fields[0].value))] + fields[1..]
    else [fields[0]] + RewriteField(site, fields[1..], name)
  }

  /** Strips every tree that stands at the site; where the tree does not have the shape of the site it
    is left alone. */
  function RewriteAt(site: Site, j: Json): Json
    decreases |site|, 0
  {
    if site == [] then Strip(j)
    else
      match (site[0], j)
      case (Named(name), Obj(fields)) => Obj(RewriteField(site[1..], fields, name))
      case (Each, Arr(items)) => Arr(RewriteItems(site[1..], items))
      case _ => j
  }

  predicate StepFits(level: Level, s: Step) {
    match level
    case Named(name) => s == Key(name)
    case Each => s.Index?
  }

  /** The path leads to the site, or through it into a tree that stands there. */
  predicate Through(site: Site, path: Path) {
    |site| <= |path| && forall i :: 0 <= i < |site| ==> StepFits(site[i], path[i])
  }

  /** What can be seen at a place without looking further: a scalar, a length, the keys in order. */
  datatype Shape = Missing | Scalar(j: Json) | Items(n: nat) | Keys(names: seq<string>)

  function ShapeOf(j: Option<Json>): Shape {
    match j
    case None => Missing
    case Some(Arr(items)) => Items(|items|)
    case Some(Obj(fields)) => Keys(KeyNames(fields))
    case Some(scalar) => Scalar(scalar)
  }

  lemma {:induction false} RewriteItemsAt(site: Site, items: seq<Json>, i: nat)
    requires i < |items|
    ensures RewriteItems(site, items)[i] == RewriteAt(site, items[i])
  {
    if i > 0 { RewriteItemsAt(site, items[1..], i - 1); }
  }

  lemma {:induction false} GetRewritten(site: Site, fields: seq<Field>, name: string, key: string)
    ensures var was := Get(fields, key);
            Get(RewriteField(site, fields, name), key)
            == if key == name && was.Some? then Some(RewriteAt(site, was.value)) else was
  {
    if fields != [] {
      GetRewritten(site, fields[1..], name, key);
      var r := RewriteField(site, fields, name);
      assert r[1..] == if fields[0].key == name then fields[1..] else RewriteField(site, fields[1..], name);
    }
  }

  /** What the rewrite does to a child. */
  lemma ChildRewritten(site: Site, j: Json, s: Step)
    requires site != []
    ensures var was := Child(j, s);
            Child(RewriteAt(site, j), s)
            == if StepFits(site[0], s) && was.Some? then Some(RewriteAt(site[1..], was.value)) else was
  {
    match (site[0], j)
    case (Named(name), Obj(fields)) => if s.Key? { GetRewritten(site[1..], fields, name, s.name); }
    case (Each, Arr(items)) => if s.Index? && s.i < |items| { RewriteItemsAt(site[1..], items, s.i); }
    case _ =>
  }

  function Below(site: Site, j: Json, path: Path): Option<Json>
    requires |site| <= |path|
  {
    match At(j, path[..|site|])
    case Some(v) => if Passes(path[|site|..]) then None else Mapped(At(v, path[|site|..]))
    case None => None
  }

  lemma ThroughTail(site: Site, path: Path)
    requires site != [] && path != [] && StepFits(site[0], path[0])
    ensures Through(site, path) <==> Through(site[1..], path[1..])
  {
    if Through(site[1..], path[1..]) {
      forall i | 0 <= i < |site| ensures StepFits(site[i], path[i]) {
        if i > 0 { assert StepFits(site[1..][i - 1], path[1..][i - 1]); }
      }
    }
  }

  /** Everything about the rewrite, place by place: below the site the stripped trees, elsewhere the
    same scalars, the same lengths and the same keys in the same order. */
  lemma {:induction false} RewriteByPath(site: Site, j: Json, path: Path)
    ensures if Through(site, path) then At(RewriteAt(site, j), path) == Below(site, j, path)
            else ShapeOf(At(RewriteAt(site, j), path)) == ShapeOf(At(j, path))
    decreases |site|
  {
    if site == [] {
      assert path[..0] == [] && path[0..] == path;
      StripKeepsPaths(j, path);
    } else if path == [] {
    } else {
      var s, rest := path[0], path[1..];
      ChildRewritten(site, j, s);
      var c := Child(j, s);
      if StepFits(site[0], s) {
        ThroughTail(site, path);
        if c.Some? {
          RewriteByPath(site[1..], c.value, rest);
          if Through(site, path) {
            assert path[..|site|][1..] == rest[..|site| - 1] && path[|site|..] == rest[|site| - 1..];
          }
        }
      }
    }
  }

  // ---- The tool payload ----

  const PARAMETERS: Site :=
    [Named("request"), Named("tools"), Each, Named("functionDeclarations"), Each, Named("parameters")]

  /** The payload with every declaration's parameters stripped. */
  function Sanitized(body: seq<Field>): seq<Field> {
    RewriteField(PARAMETERS[1..], body, "request")
  }

  /** `{ ...record, [key]: value }` for a key that is there. */
  function Put(fields: seq<Field>, key: string, value: Json): seq<Field> {
    if fields == [] then []
    else if fields[0].key == key then [Field(key, value)] + fields[1..]
    else [fields[0]] + Put(fields[1..], key, value)
  }

  lemma {:induction false} PutRewrites(site: Site, fields: seq<Field>, name: string)
    ensures var was := Get(fields, name);
            RewriteField(site, fields, name)
            == if was.Some? then Put(fields, name, RewriteAt(site, was.value)) else fields
  {
    hide RewriteAt;
    if fields != [] {
      assert fields == [fields[0]] + fields[1..];
      if fields[0].key != name { PutRewrites(site, fields[1..], name); }
    }
  }

  lemma {:induction false} PutSame(fields: seq<Field>, name: string)
    requires Get(fields, name).Some?
    ensures Put(fields, name, Get(fields, name).value) == fields
  {
    if fields != [] && fields[0].key != name { PutSame(fields[1..], name); }
  }

  lemma {:induction false} ItemsStep(site: Site, items: seq<Json>, i: nat)
    requires i < |items|
    ensures RewriteItems(site, items[..i + 1]) == RewriteItems(site, items[..i]) + [RewriteAt(site, items[i])]
  {
    if i == 0 {
      assert items[..1] == [items[0]] && items[..1][1..] == [];
    } else {
      ItemsStep(site, items[1..], i - 1);
      assert items[..i + 1][1..] == items[1..][..i] && items[..i][1..] == items[1..][..i - 1];
    }
  }

  lemma NoItems(site: Site)
    ensures RewriteItems(site, []) == []
  {
  }

  lemma AtSite(site: Site, j: Json)
    requires site == []
    ensures RewriteAt(site, j) == Strip(j)
  {
  }

  /** A named level, with the record update the code does. */
  lemma AtField(site: Site, name: string, j: Json)
    requires site != [] && site[0] == Named(name)
    ensures RewriteAt(site, j)
         == if j.Obj? && Get(j.fields, name).Some?
            then Obj(Put(j.fields, name, RewriteAt(site[1..], Get(j.fields, name).value))) else j
  {
    if j.Obj? { PutRewrites(site[1..], j.fields, name); }
  }

  method SanitizeDeclarations(declarations: seq<Json>) returns (result: seq<Json>, changed: bool)
    ensures result == RewriteItems(PARAMETERS[5..], declarations)
    ensures !changed ==> result == declarations
  {
    hide RewriteAt, RewriteItems;
    result, changed := [], false;
    NoItems(PARAMETERS[5..]);
    for i := 0 to |declarations|
      invariant result == RewriteItems(PARAMETERS[5..], declarations[..i])
      invariant !changed ==> result == declarations[..i]
    {
      ItemsStep(PARAMETERS[5..], declarations, i);
      assert declarations[..i + 1] == declarations[..i] + [declarations[i]];
      var d := declarations[i];
      AtField(PARAMETERS[5..], "parameters", d);
      if d.Obj? && Get(d.fields, "parameters").Some? {
        changed := true;
        AtSite([], Get(d.fields, "parameters").value);
        assert PARAMETERS[5..][1..] == [];
        result := result + [Obj(Put(d.fields, "parameters", Strip(Get(d.fields, "parameters").value)))];
      } else {
        result := result + [d];
      }
    }
    assert declarations[..|declarations|] == declarations;
  }

  lemma AtItems(site: Site, j: Json)
    requires site != [] && site[0] == Each
    ensures RewriteAt(site, j) == if j.Arr? then Arr(RewriteItems(site[1..], j.items)) else j
  {
  }

  method SanitizeTool(tool: Json) returns (result: Json, changed: bool)
    ensures result == RewriteAt(PARAMETERS[3..], tool)
    ensures !changed ==> result == tool
  {
    hide RewriteAt, RewriteItems;
    AtField(PARAMETERS[3..], "functionDeclarations", tool);
    if !tool.Obj? { return tool, false; }
    var declarations := Get(tool.fields, "functionDeclarations");
    if declarations.None? { return tool, false; }
    assert PARAMETERS[3..][1..] == PARAMETERS[4..];
    AtItems(PARAMETERS[4..], declarations.value);
    assert PARAMETERS[4..][1..] == PARAMETERS[5..];
    PutSame(tool.fields, "functionDeclarations");
    if !declarations.value.Arr? { return tool, false; }
    var rewritten, declarationsChanged := SanitizeDeclarations(declarations.value.items);
    if !declarationsChanged { return tool, false; }
    return Obj(Put(tool.fields, "functionDeclarations", Arr(rewritten))), true;
  }

  method SanitizeTools(tools: seq<Json>) returns (result: seq<Json>, changed: bool)
    ensures result == RewriteItems(PARAMETERS[3..], tools)
    ensures !changed ==> result == tools
  {
    hide RewriteAt, RewriteItems;
    result, changed := [], false;
    NoItems(PARAMETERS[3..]);
    for i := 0 to |tools|
      invariant result == RewriteItems(PARAMETERS[3..], tools[..i])
      invariant !changed ==> result == tools[..i]
    {
      ItemsStep(PARAMETERS[3..], tools, i);
      assert tools[..i + 1] == tools[..i] + [tools[i]];
      var tool, toolChanged := SanitizeTool(tools[i]);
      if toolChanged { changed := true; }
      result := result + [tool];
    }
    assert tools[..|tools|] == tools;
  }

  method SanitizeAntigravityToolPayload(body: seq<Field>) returns (result: seq<Field>)
    ensures result == Sanitized(body)
  {
    hide RewriteAt, RewriteItems, RewriteField;
    var request := Get(body, "request");
    PutRewrites(PARAMETERS[1..], body, "request");
    if request.None? { return body; }
    PutSame(body, "request");
    AtField(PARAMETERS[1..], "tools", request.value);
    if !request.value.Obj? { return body; }
    var tools := Get(request.value.fields, "tools");
    if tools.None? { return body; }
    PutSame(request.value.fields, "tools");
    assert PARAMETERS[1..][1..] == PARAMETERS[2..] && PARAMETERS[2..][1..] == PARAMETERS[3..];
    AtItems(PARAMETERS[2..], tools.value);
    if !tools.value.Arr? { return body; }
    var rewritten, changed := SanitizeTools(tools.value.items);
    if !changed { return body; }
    result := Put(body, "request", Obj(Put(request.value.fields, "tools", Arr(rewritten))));
  }

  /** The payload keeps its tools, its declarations and their order, and every field but `parameters`;
    what stands below a declaration's parameters is the stripped tree. */
  lemma SanitizedByPath(body: seq<Field>, path: Path)
    ensures if Through(PARAMETERS, path) then At(Obj(Sanitized(body)), path) == Below(PARAMETERS, Obj(body), path)
            else ShapeOf(At(Obj(Sanitized(body)), path)) == ShapeOf(At(Obj(body), path))
  {
    RewriteByPath(PARAMETERS, Obj(body), path);
  }

  /** No banned key is left below any declaration's parameters. */
  lemma SanitizedParametersClean(body: seq<Field>, path: Path)
    requires Through(PARAMETERS, path) && |path| == 6 && At(Obj(Sanitized(body)), path).Some?
    ensures Clean(At(Obj(Sanitized(body)), path).value)
  {
    SanitizedByPath(body, path);
    assert path[..6] == path && path[6..] == [];
    var v := At(Obj(body), path).value;
    assert At(v, []) == Some(v);
    StripIsClean(v);
  }
}
