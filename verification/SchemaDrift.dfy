/** What a specification declares and what it leaves free-form (`scripts/schema_drift.py`): the two schema
    walks, and what moving a schema between files does to them. */
module SchemaDrift {
  import opened Json
  import opened Observation
  import opened SchemaRefs

  /** Members of objects nested deeper than this are not descended into. */
  const FLATTEN_DEPTH := 6
  /** How many items of a list `observed` looks at. */
  const SAMPLE := 3

  // ---- flatten ----------------------------------------------------------------

  predicate TypeIs(m: map<string, Json>, name: string) {
    "type" in m && m["type"] == Str(name)
  }

  function ItemsOf(m: map<string, Json>): (r: Json) {
    if "items" in m then m["items"] else EMPTY
  }

  /** Every property path the schema declares, dotted, arrays as `[*]`. */
  function Flatten(files: Files, doc: Json, schema: Json, prefix: string, depth: nat): (r: set<string>)
    decreases FLATTEN_DEPTH + 1 - depth, 2
  {
    var props := Props(files, doc, schema, depth);
    FlattenMembers(files, doc, props, props.Keys, prefix, depth)
  }

  function FlattenMembers(files: Files, doc: Json, props: map<string, Json>, keys: set<string>, prefix: string,
                          depth: nat)
    : (r: set<string>)
    requires keys <= props.Keys
    decreases FLATTEN_DEPTH + 1 - depth, 1
  {
    set k, p | k in keys && p in FlattenMember(files, doc, k, props[k], prefix, depth) :: p
  }

  function FlattenMember(files: Files, doc: Json, name: string, node: Json, prefix: string,
                         depth: nat): (r: set<string>)
    decreases FLATTEN_DEPTH + 1 - depth, 0, 1
  {
    {prefix + name} + FlattenTarget(files, doc, Target(files, doc, node), prefix + name, depth)
  }

  /** The paths below a member, its references resolved. */
  function FlattenTarget(files: Files, doc: Json, sub: Json, path: string, depth: nat): (r: set<string>)
    decreases FLATTEN_DEPTH + 1 - depth, 0, 0
  {
    if !sub.Obj? || depth > FLATTEN_DEPTH then {}
    else if TypeIs(sub.members, "array") then Flatten(files, doc, ItemsOf(sub.members), path + "[*].", depth + 1)
    else if "properties" in sub.members || "allOf" in sub.members || "$ref" in sub.members then
      Flatten(files, doc, sub, path + ".", depth + 1)
    else {}
  }

  method FlattenLoop(files: Files, doc: Json, schema: Json, prefix: string, depth: nat) returns (out: set<string>)
    ensures out == Flatten(files, doc, schema, prefix, depth)
    decreases FLATTEN_DEPTH + 1 - depth, 1
  {
    var props := PropsLoop(files, doc, schema, depth);
    out := {};
    var todo := props.Keys;
    while todo != {}
      invariant todo <= props.Keys
      invariant out == FlattenMembers(files, doc, props, props.Keys - todo, prefix, depth)
      decreases todo
    {
      var name :| name in todo;
      var found := FlattenBelow(files, doc, name, props[name], prefix, depth);
      out := out + found;
      assert props.Keys - (todo - {name}) == (props.Keys - todo) + {name};
      todo := todo - {name};
    }
    assert props.Keys - todo == props.Keys;
  }

  /** One turn of the loop. */
  method FlattenBelow(files: Files, doc: Json, name: string, node: Json, prefix: string, depth: nat)
    returns (out: set<string>)
    ensures out == FlattenMember(files, doc, name, node, prefix, depth)
    decreases FLATTEN_DEPTH + 1 - depth, 0
  {
    var path := prefix + name;
    out := {path};
    var sub := DerefLoop(files, doc, node);
    if !sub.Obj? || depth > FLATTEN_DEPTH {
      return;
    }
    if TypeIs(sub.members, "array") {
      var below := FlattenLoop(files, doc, ItemsOf(sub.members), path + "[*].", depth + 1);
      out := out + below;
    } else if "properties" in sub.members || "allOf" in sub.members || "$ref" in sub.members {
      var below := FlattenLoop(files, doc, sub, path + ".", depth + 1);
      out := out + below;
    }
  }

  // ---- declared_opaque ----------------------------------------------------------

  predicate Truthy(v: Json) {
    match v
    case Null => false
    case Bool(b) => b
    case Num(n) => n != 0
    case Str(s) => s != ""
    case Arr(xs) => xs != []
    case Obj(m) => m != map[]
  }

  predicate TruthyAt(m: map<string, Json>, key: string) {
    key in m && Truthy(m[key])
  }

  predicate NoType(m: map<string, Json>) {
    "type" !in m || m["type"] == Null
  }

  /** Array items declared without members of their own. */
  predicate BareItems(items: Json) {
    !items.Obj? ||
    !(TruthyAt(items.members, "properties") || TruthyAt(items.members, "allOf") ||
      !(NoType(items.members) || TypeIs(items.members, "object")))
  }

  /** An object declared without a member schema. */
  predicate FreeForm(m: map<string, Json>) {
    TypeIs(m, "object") || "additionalProperties" in m || m == map[] || (NoType(m) && "$ref" !in m)
  }

  /** Paths the specification leaves free-form. */
  function DeclaredOpaque(files: Files, doc: Json, schema: Json, prefix: string, depth: nat): (r: set<string>)
    decreases FLATTEN_DEPTH + 1 - depth, 2
  {
    var props := Props(files, doc, schema, depth);
    DeclaredOpaqueMembers(files, doc, props, props.Keys, prefix, depth)
  }

  function DeclaredOpaqueMembers(files: Files, doc: Json, props: map<string, Json>, keys: set<string>, prefix: string,
                                 depth: nat): (r: set<string>)
    requires keys <= props.Keys
    decreases FLATTEN_DEPTH + 1 - depth, 1
  {
    set k, p | k in keys && p in DeclaredOpaqueMember(files, doc, k, props[k], prefix, depth) :: p
  }

  function DeclaredOpaqueMember(files: Files, doc: Json, name: string, node: Json, prefix: string,
                                depth: nat): (r: set<string>)
    decreases FLATTEN_DEPTH + 1 - depth, 0, 1
  {
    DeclaredOpaqueTarget(files, doc, Target(files, doc, node), prefix + name, depth)
  }

  function DeclaredOpaqueTarget(files: Files, doc: Json, sub: Json, path: string, depth: nat): (r: set<string>)
    decreases FLATTEN_DEPTH + 1 - depth, 0, 0
  {
    if !sub.Obj? || depth > FLATTEN_DEPTH then {}
    else if TypeIs(sub.members, "array") then
      var items := Target(files, doc, ItemsOf(sub.members));
      if BareItems(items) then {path + "[*]"}
      else DeclaredOpaque(files, doc, items, path + "[*].", depth + 1)
    else if "properties" in sub.members || "allOf" in sub.members then
      DeclaredOpaque(files, doc, sub, path + ".", depth + 1)
    else if FreeForm(sub.members) then {path}
    else {}
  }

  method DeclaredOpaqueLoop(files: Files, doc: Json, schema: Json, prefix: string, depth: nat)
    returns (out: set<string>)
    ensures out == DeclaredOpaque(files, doc, schema, prefix, depth)
    decreases FLATTEN_DEPTH + 1 - depth, 1
  {
    var props := PropsLoop(files, doc, schema, depth);
    out := {};
    var todo := props.Keys;
    while todo != {}
      invariant todo <= props.Keys
      invariant out == DeclaredOpaqueMembers(files, doc, props, props.Keys - todo, prefix, depth)
      decreases todo
    {
      var name :| name in todo;
      var found := DeclaredOpaqueBelow(files, doc, name, props[name], prefix, depth);
      out := out + found;
      assert props.Keys - (todo - {name}) == (props.Keys - todo) + {name};
      todo := todo - {name};
    }
    assert props.Keys - todo == props.Keys;
  }

  /** One turn of the loop. */
  method DeclaredOpaqueBelow(files: Files, doc: Json, name: string, node: Json, prefix: string, depth: nat)
    returns (out: set<string>)
    ensures out == DeclaredOpaqueMember(files, doc, name, node, prefix, depth)
    decreases FLATTEN_DEPTH + 1 - depth, 0, 1
  {
    var sub := DerefLoop(files, doc, node);
    out := DeclaredOpaqueOf(files, doc, sub, prefix + name, depth);
  }

  method DeclaredOpaqueOf(files: Files, doc: Json, sub: Json, path: string, depth: nat) returns (out: set<string>)
    ensures out == DeclaredOpaqueTarget(files, doc, sub, path, depth)
    decreases FLATTEN_DEPTH + 1 - depth, 0, 0
  {
    out := {};
    if !sub.Obj? || depth > FLATTEN_DEPTH {
      return;
    }
    if TypeIs(sub.members, "array") {
      out := DeclaredOpaqueItems(files, doc, ItemsOf(sub.members), path, depth);
    } else if "properties" in sub.members || "allOf" in sub.members {
      out := DeclaredOpaqueLoop(files, doc, sub, path + ".", depth + 1);
    } else if FreeForm(sub.members) {
      out := {path};
    }
  }

  method DeclaredOpaqueItems(files: Files, doc: Json, node: Json, path: string, depth: nat) returns (out: set<string>)
    requires depth <= FLATTEN_DEPTH
    ensures var items := Target(files, doc, node);
            out == if BareItems(items)
              then {path + "[*]"} else DeclaredOpaque(files, doc, items, path + "[*].", depth + 1)
    decreases FLATTEN_DEPTH - depth, 2
  {
    var items := DerefLoop(files, doc, node);
    if BareItems(items) {
      out := {path + "[*]"};
    } else {
      out := DeclaredOpaqueLoop(files, doc, items, path + "[*].", depth + 1);
    }
  }

  // ---- relocation ---------------------------------------------------------------

  /** No reference that `flatten` follows from `schema` is empty. */
  predicate PathsSettled(files: Files, doc: Json, schema: Json, depth: nat)
    decreases FLATTEN_DEPTH + 1 - depth, 1
  {
    Mergeable(files, doc, schema, depth) &&
    var props := Props(files, doc, schema, depth);
    depth <= FLATTEN_DEPTH ==> forall k :: k in props ==>
      Followable(files, doc, props[k], MAX_REFS) && PathsSettledBelow(files, doc, Target(files, doc, props[k]), depth)
  }

  predicate PathsSettledBelow(files: Files, doc: Json, sub: Json, depth: nat)
    requires depth <= FLATTEN_DEPTH
    decreases FLATTEN_DEPTH + 1 - depth, 0
  {
    if !sub.Obj? then true
    else if TypeIs(sub.members, "array") then PathsSettled(files, doc, ItemsOf(sub.members), depth + 1)
    else if "properties" in sub.members || "allOf" in sub.members || "$ref" in sub.members then
      PathsSettled(files, doc, sub, depth + 1)
    else true
  }

  lemma {:induction false} RelocationKeepsPaths(files: Files, host: Json, file: string, schema: Json, prefix: string,
                                                depth: nat)
    requires IsFileName(file) && PathsSettled(files, files(file), schema, depth)
    ensures Flatten(files, host, Qualify(schema, file), prefix, depth)
            == Flatten(files, files(file), schema, prefix, depth)
    decreases FLATTEN_DEPTH + 1 - depth, 1
  {
    PropsCommutes(files, host, file, schema, depth);
    var props := Props(files, files(file), schema, depth);
    var moved := Props(files, host, Qualify(schema, file), depth);
    forall k | k in props
      ensures FlattenMember(files, host, k, moved[k], prefix, depth)
              == FlattenMember(files, files(file), k, props[k], prefix, depth)
    {
      if !IsBareRef(k, props[k]) && depth <= FLATTEN_DEPTH {
        DerefCommutes(files, host, file, props[k], MAX_REFS);
        RelocationKeepsTargetPaths(files, host, file, Target(files, files(file), props[k]), prefix + k, depth);
      }
    }
  }

  lemma QualifiedNode(m: map<string, Json>, file: string)
    ensures Qualify(Obj(m), file) == Obj(QualifyAll(m, file))
    ensures TypeIs(QualifyAll(m, file), "array") == TypeIs(m, "array")
    ensures ItemsOf(QualifyAll(m, file)) == Qualify(ItemsOf(m), file)
  {
    QualifyObject(m, file);
    QualifyObject(map[], file);
    assert QualifyAll(map[], file) == map[];
  }

  lemma {:induction false} RelocationKeepsTargetPaths(files: Files, host: Json, file: string, sub: Json, path: string,
                                                      depth: nat)
    requires IsFileName(file) && depth <= FLATTEN_DEPTH && PathsSettledBelow(files, files(file), sub, depth)
    ensures FlattenTarget(files, host, Qualify(sub, file), path, depth)
            == FlattenTarget(files, files(file), sub, path, depth)
    decreases FLATTEN_DEPTH + 1 - depth, 0
  {
    if sub.Obj? {
      QualifiedNode(sub.members, file);
      if TypeIs(sub.members, "array") {
        RelocationKeepsPaths(files, host, file, ItemsOf(sub.members), path + "[*].", depth + 1);
      } else if "properties" in sub.members || "allOf" in sub.members || "$ref" in sub.members {
        RelocationKeepsPaths(files, host, file, sub, path + ".", depth + 1);
      }
    }
  }

  /** A schema that follows an empty reference declares a path of the document it is moved to. */
  lemma {:induction false} PathsLand(files: Files, name: string, file: string, schema: Json, prefix: string, depth: nat)
    returns (q: string)
    requires IsFileName(file) && !PathsSettled(files, files(file), schema, depth)
    ensures q + name in Flatten(files, Landing(name), Qualify(schema, file), prefix, depth)
    ensures IsPrefix(prefix) ==> IsPrefix(q)
    decreases FLATTEN_DEPTH + 1 - depth, 1
  {
    var host := Landing(name);
    var moved := Props(files, host, Qualify(schema, file), depth);
    if !Mergeable(files, files(file), schema, depth) {
      PropsLand(files, name, file, schema, depth);
      q := prefix;
      assert q + name in FlattenMember(files, host, name, moved[name], prefix, depth);
    } else {
      PropsCommutes(files, host, file, schema, depth);
      var props := Props(files, files(file), schema, depth);
      var k :| k in props && !(Followable(files, files(file), props[k], MAX_REFS) &&
                               PathsSettledBelow(files, files(file), Target(files, files(file), props[k]), depth));
      q := PathsLandBelow(files, name, file, props[k], prefix + k, depth);
      assert q + name in FlattenMember(files, host, k, moved[k], prefix, depth);
    }
  }

  lemma LandingDeclares(files: Files, name: string, path: string, depth: nat)
    requires depth <= FLATTEN_DEPTH
    ensures path + "." + name in FlattenTarget(files, Landing(name), OneProperty(name), path, depth)
  {
    var host := Landing(name);
    var found := OneProperty(name);
    var props := Props(files, host, found, depth + 1);
    PropsOfLanding(files, name, depth + 1);
    assert path + "." + name in FlattenMember(files, host, name, props[name], path + ".", depth + 1);
    assert path + "." + name in Flatten(files, host, found, path + ".", depth + 1);
  }

  lemma {:induction false} PathsLandBelow(files: Files, name: string, file: string, node: Json, path: string,
                                          depth: nat)
    returns (q: string)
    requires IsFileName(file) && depth <= FLATTEN_DEPTH
    requires !(Followable(files, files(file), node, MAX_REFS) &&
               PathsSettledBelow(files, files(file), Target(files, files(file), node), depth))
    ensures q + name in
            FlattenTarget(files, Landing(name), Target(files, Landing(name), Qualify(node, file)), path, depth)
    ensures IsPrefix(q)
    decreases FLATTEN_DEPTH + 1 - depth, 0, 1
  {
    if !Followable(files, files(file), node, MAX_REFS) {
      DerefLands(files, OneProperty(name), file, node, MAX_REFS);
      LandingDeclares(files, name, path, depth);
      q := path + ".";
      PrefixesOf(path);
    } else {
      DerefCommutes(files, Landing(name), file, node, MAX_REFS);
      q := PathsLandInTarget(files, name, file, Target(files, files(file), node), path, depth);
    }
  }

  lemma {:induction false} PathsLandInTarget(files: Files, name: string, file: string, sub: Json, path: string,
                                             depth: nat)
    returns (q: string)
    requires IsFileName(file) && depth <= FLATTEN_DEPTH && !PathsSettledBelow(files, files(file), sub, depth)
    ensures q + name in FlattenTarget(files, Landing(name), Qualify(sub, file), path, depth) && IsPrefix(q)
    decreases FLATTEN_DEPTH + 1 - depth, 0, 0
  {
    QualifiedNode(sub.members, file);
    PrefixesOf(path);
    if TypeIs(sub.members, "array") {
      q := PathsLand(files, name, file, ItemsOf(sub.members), path + "[*].", depth + 1);
    } else {
      q := PathsLand(files, name, file, sub, path + ".", depth + 1);
    }
  }

  /** A name longer than every path of `paths`. */
  lemma {:induction false} LongerName(paths: set<string>) returns (name: string)
    ensures forall p :: p in paths ==> |p| < |name|
    decreases paths
  {
    if paths == {} {
      name := "";
    } else {
      var p :| p in paths;
      var rest := LongerName(paths - {p});
      name := rest + p + "x";
    }
  }

  /** A schema moved out of its file, its references qualified, declares the same paths in every
      document it is moved to exactly when no reference followed on the way is empty. */
  lemma RelocationKeepsPathsExactly(files: Files, file: string, schema: Json, prefix: string, depth: nat)
    requires IsFileName(file)
    ensures (forall host: Json :: Flatten(files, host, Qualify(schema, file), prefix, depth)
                                  == Flatten(files, files(file), schema, prefix, depth))
            <==> PathsSettled(files, files(file), schema, depth)
  {
    if PathsSettled(files, files(file), schema, depth) {
      forall host: Json
        ensures Flatten(files, host, Qualify(schema, file), prefix, depth)
                == Flatten(files, files(file), schema, prefix, depth)
      {
        RelocationKeepsPaths(files, host, file, schema, prefix, depth);
      }
    } else {
      var name := LongerName(Flatten(files, files(file), schema, prefix, depth));
      var q := PathsLand(files, name, file, schema, prefix, depth);
      assert q + name !in Flatten(files, files(file), schema, prefix, depth);
    }
  }

  lemma QualifiedKeepsFreeForm(m: map<string, Json>, file: string)
    ensures BareItems(Obj(QualifyAll(m, file))) == BareItems(Obj(m))
    ensures FreeForm(QualifyAll(m, file)) == FreeForm(m)
  {
    QualifyObject(m, file);
    forall key | key in m ensures Truthy(QualifyAll(m, file)[key]) == Truthy(m[key]) {
      assert IsBareRef(key, m[key]) || QualifyAll(m, file)[key] == Qualify(m[key], file);
      if m[key].Obj? {
        QualifyObject(m[key].members, file);
        assert QualifyAll(m[key].members, file) == map[] <==> m[key].members == map[];
      }
    }
    assert QualifyAll(m, file) == map[] <==> m == map[];
  }

  /** No reference that `declared_opaque` follows from `schema` is empty. */
  predicate FreeFormSettled(files: Files, doc: Json, schema: Json, depth: nat)
    decreases FLATTEN_DEPTH + 1 - depth, 1
  {
    depth <= FLATTEN_DEPTH ==>
      Mergeable(files, doc, schema, depth) &&
      var props := Props(files, doc, schema, depth);
      forall k :: k in props ==>
        Followable(files, doc, props[k], MAX_REFS) &&
        FreeFormSettledBelow(files, doc, Target(files, doc, props[k]), depth)
  }

  predicate FreeFormSettledBelow(files: Files, doc: Json, sub: Json, depth: nat)
    requires depth <= FLATTEN_DEPTH
    decreases FLATTEN_DEPTH + 1 - depth, 0
  {
    if !sub.Obj? then true
    else if TypeIs(sub.members, "array") then
      Followable(files, doc, ItemsOf(sub.members), MAX_REFS) &&
      var items := Target(files, doc, ItemsOf(sub.members));
      BareItems(items) || FreeFormSettled(files, doc, items, depth + 1)
    else if "properties" in sub.members || "allOf" in sub.members then FreeFormSettled(files, doc, sub, depth + 1)
    else true
  }

  /** Past the depth limit nothing is free-form. */
  lemma NothingFreeFormBelow(files: Files, doc: Json, schema: Json, prefix: string, depth: nat)
    requires depth > FLATTEN_DEPTH
    ensures DeclaredOpaque(files, doc, schema, prefix, depth) == {}
  {
    var props := Props(files, doc, schema, depth);
    forall k | k in props ensures DeclaredOpaqueMember(files, doc, k, props[k], prefix, depth) == {} {
    }
  }

  /** ... and leaves the same paths free-form. */
  lemma {:induction false} RelocationKeepsOpaque(files: Files, host: Json, file: string, schema: Json, prefix: string,
                                                 depth: nat)
    requires IsFileName(file) && FreeFormSettled(files, files(file), schema, depth)
    ensures DeclaredOpaque(files, host, Qualify(schema, file), prefix, depth)
            == DeclaredOpaque(files, files(file), schema, prefix, depth)
    decreases FLATTEN_DEPTH + 1 - depth, 1
  {
    if depth > FLATTEN_DEPTH {
      NothingFreeFormBelow(files, host, Qualify(schema, file), prefix, depth);
      NothingFreeFormBelow(files, files(file), schema, prefix, depth);
      return;
    }
    PropsCommutes(files, host, file, schema, depth);
    var props := Props(files, files(file), schema, depth);
    var moved := Props(files, host, Qualify(schema, file), depth);
    forall k | k in props
      ensures DeclaredOpaqueMember(files, host, k, moved[k], prefix, depth)
              == DeclaredOpaqueMember(files, files(file), k, props[k], prefix, depth)
    {
      if !IsBareRef(k, props[k]) {
        DerefCommutes(files, host, file, props[k], MAX_REFS);
        RelocationKeepsTargetOpaque(files, host, file, Target(files, files(file), props[k]), prefix + k, depth);
      }
    }
  }

  lemma {:induction false} RelocationKeepsTargetOpaque(files: Files, host: Json, file: string, sub: Json,
                                                       path: string, depth: nat)
    requires IsFileName(file) && depth <= FLATTEN_DEPTH && FreeFormSettledBelow(files, files(file), sub, depth)
    ensures DeclaredOpaqueTarget(files, host, Qualify(sub, file), path, depth)
            == DeclaredOpaqueTarget(files, files(file), sub, path, depth)
    decreases FLATTEN_DEPTH + 1 - depth, 0
  {
    if sub.Obj? {
      QualifiedNode(sub.members, file);
      QualifiedKeepsFreeForm(sub.members, file);
      if TypeIs(sub.members, "array") {
        RelocationKeepsItemsOpaque(files, host, file, ItemsOf(sub.members), path, depth);
      } else if "properties" in sub.members || "allOf" in sub.members {
        RelocationKeepsOpaque(files, host, file, sub, path + ".", depth + 1);
      }
    }
  }

  lemma {:induction false} RelocationKeepsItemsOpaque(files: Files, host: Json, file: string, node: Json,
                                                      path: string, depth: nat)
    requires IsFileName(file) && depth <= FLATTEN_DEPTH
    requires Followable(files, files(file), node, MAX_REFS)
    requires var items := Target(files, files(file), node);
             BareItems(items) || FreeFormSettled(files, files(file), items, depth + 1)
    ensures var items := Target(files, files(file), node);
            var moved := Target(files, host, Qualify(node, file));
            BareItems(moved) == BareItems(items) &&
            (!BareItems(items) ==> DeclaredOpaque(files, host, moved, path + "[*].", depth + 1)
                                   == DeclaredOpaque(files, files(file), items, path + "[*].", depth + 1))
    decreases FLATTEN_DEPTH - depth, 2
  {
    DerefCommutes(files, host, file, node, MAX_REFS);
    var items := Target(files, files(file), node);
    if items.Obj? {
      QualifyObject(items.members, file);
      QualifiedKeepsFreeForm(items.members, file);
    }
    if !BareItems(items) {
      RelocationKeepsOpaque(files, host, file, items, path + "[*].", depth + 1);
    }
  }

  /** Moved without the condition, a schema can change meaning: `{"$ref": ""}` declares nothing in an
      empty file and whatever the host keeps under `""` afterwards. */
  lemma EmptyRefRelocationFails()
    ensures var files: Files := _ => EMPTY;
            var schema := Obj(map["$ref" := Str("")]);
            var host := Obj(map["" := Obj(map["properties" := Obj(map["x" := EMPTY])])]);
            "x" in Flatten(files, host, Qualify(schema, "other.json"), "", 0) &&
            Flatten(files, files("other.json"), schema, "", 0) == {}
  {
    var files: Files := _ => EMPTY;
    var ref := map["$ref" := Str("")];
    var schema := Obj(ref);
    var inner := Obj(map["properties" := Obj(map["x" := EMPTY])]);
    var host := Obj(map["" := inner]);
    QualifyObject(ref, "other.json");
    assert QualifyAll(ref, "other.json") == ref;
    assert PointerParts("") == [""];
    assert Walk(host, [""]) == Walk(inner, []) == inner;
    assert Walk(EMPTY, [""]) == Walk(EMPTY, []) == EMPTY;
    assert Resolve(files, host, "") == inner;
    assert Resolve(files, EMPTY, "") == EMPTY;
    assert Target(files, host, schema) == Deref(files, host, inner, MAX_REFS - 1) == inner;
    assert Target(files, EMPTY, schema) == Deref(files, EMPTY, EMPTY, MAX_REFS - 1) == EMPTY;
    var props := Props(files, host, schema, 0);
    assert props == map["x" := EMPTY];
    assert "x" in FlattenMember(files, host, "x", props["x"], "", 0) by {
      assert "" + "x" == "x";
    }
  }
}
