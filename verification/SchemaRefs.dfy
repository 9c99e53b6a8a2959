/** Resolving references across specification files (`scripts/schema_drift.py`). */
module SchemaRefs {
  import opened Json
  import opened Text

  /** How many references `deref` follows before it gives up. */
  const MAX_REFS := 10
  /** How deep `props` follows `allOf`. */
  const MAX_ALL_OF := 8

  /** `_load_ref_file`: the document behind the file part of a reference; `{}` when there is none. */
  type Files = string -> Json

  const EMPTY := Obj(map[])

  predicate IsFileName(f: string) {
    f != "" && '#' !in f
  }

  // ---- _qualify -------------------------------------------------------------

  /** A `$ref` with no file part, written `#...`. */
  predicate IsBareRef(k: string, v: Json) {
    k == "$ref" && v.Str? && "#" <= v.s
  }

  /** Rewrite the bare references inside a subtree that was loaded from `file`. */
  function Qualify(v: Json, file: string): (r: Json)
    ensures v.IsLeaf() ==> r == v
    ensures r.Obj? == v.Obj? && r.Arr? == v.Arr?
  {
    match v
    case Obj(m) => Obj(map k | k in m :: if IsBareRef(k, m[k]) then Str(file + m[k].s) else Qualify(m[k], file))
    case Arr(xs) => Arr(seq(|xs|, i requires 0 <= i < |xs| => Qualify(xs[i], file)))
    case _ => v
  }

  function QualifyAll(m: map<string, Json>, file: string): (r: map<string, Json>)
    ensures r.Keys == m.Keys
  {
    Qualify(Obj(m), file).members
  }

  lemma QualifyObject(m: map<string, Json>, file: string)
    ensures Qualify(Obj(m), file) == Obj(QualifyAll(m, file))
    ensures forall k :: k in m ==>
              QualifyAll(m, file)[k] == if IsBareRef(k, m[k]) then Str(file + m[k].s) else Qualify(m[k], file)
  {
  }

  /** Already-qualified references are left alone. */
  lemma {:induction false} QualifyOnce(v: Json, file: string, other: string)
    requires IsFileName(file)
    ensures Qualify(Qualify(v, file), other) == Qualify(v, file)
    decreases v
  {
    match v
    case Obj(m) =>
      var once := QualifyAll(m, file);
      QualifyObject(m, file);
      QualifyObject(once, other);
      forall k | k in m ensures QualifyAll(once, other)[k] == once[k] {
        QualifyOnce(m[k], file, other);
        if IsBareRef(k, m[k]) {
          assert once[k].s[0] == file[0];
        }
      }
      assert QualifyAll(once, other) == once;
    case Arr(xs) =>
      forall i | 0 <= i < |xs| ensures Qualify(Qualify(xs[i], file), other) == Qualify(xs[i], file) {
        QualifyOnce(xs[i], file, other);
      }
    case _ =>
  }

  // ---- deref ----------------------------------------------------------------

  predicate IsRef(node: Json) {
    node.Obj? && "$ref" in node.members && node.members["$ref"].Str?
  }

  function RefOf(node: Json): (r: string)
    requires IsRef(node)
  {
    node.members["$ref"].s
  }

  /** Follow the parts of a JSON pointer; a missing part is `{}`. */
  function Walk(target: Json, parts: seq<string>): (r: Json)
    decreases |parts|
  {
    if parts == [] then target
    else Walk(if target.Obj? && parts[0] in target.members then target.members[parts[0]] else EMPTY, parts[1..])
  }

  function PointerParts(pointer: string): (r: seq<string>) {
    Split(StripLeft(pointer, '/'), '/')
  }

  /** One turn of the loop: what `ref`, read inside `doc`, names. */
  function Resolve(files: Files, doc: Json, ref: string): (r: Json) {
    var h := IndexOf(ref, '#');
    var file := ref[..h];
    var parts := PointerParts(if h < |ref| then ref[h + 1..] else "");
    if file != "" then Qualify(Walk(files(file), parts), file) else Walk(doc, parts)
  }

  function Deref(files: Files, doc: Json, node: Json, budget: nat): (r: Json)
    decreases budget, node
  {
    if budget == 0 || !IsRef(node) then node
    else Deref(files, doc, Resolve(files, doc, RefOf(node)), budget - 1)
  }

  function Target(files: Files, doc: Json, node: Json): (r: Json) {
    Deref(files, doc, node, MAX_REFS)
  }

  /** The two loops as the script runs them. */
  method WalkLoop(start: Json, parts: seq<string>) returns (target: Json)
    ensures target == Walk(start, parts)
  {
    target := start;
    for i := 0 to |parts|
      invariant Walk(target, parts[i..]) == Walk(start, parts)
    {
      assert parts[i..][1..] == parts[i + 1..];
      target := if target.Obj? && parts[i] in target.members then target.members[parts[i]] else EMPTY;
    }
  }

  method ResolveLoop(files: Files, doc: Json, ref: string) returns (node: Json)
    ensures node == Resolve(files, doc, ref)
  {
    var h := IndexOf(ref, '#');
    var file := ref[..h];
    var parts := PointerParts(if h < |ref| then ref[h + 1..] else "");
    var target := WalkLoop(if file != "" then files(file) else doc, parts);
    node := if file != "" then Qualify(target, file) else target;
  }

  method DerefLoop(files: Files, doc: Json, start: Json) returns (node: Json)
    ensures node == Target(files, doc, start)
  {
    node := start;
    var seen := 0;
    while IsRef(node) && seen < MAX_REFS
      invariant seen <= MAX_REFS
      invariant Deref(files, doc, node, MAX_REFS - seen) == Target(files, doc, start)
    {
      node := ResolveLoop(files, doc, RefOf(node));
      seen := seen + 1;
    }
  }

  // ---- props ----------------------------------------------------------------

  function ListAt(m: map<string, Json>, key: string): (r: seq<Json>) {
    if key in m && m[key].Arr? then m[key].items else []
  }

  function MembersAt(m: map<string, Json>, key: string): (r: map<string, Json>) {
    if key in m && m[key].Obj? then m[key].members else map[]
  }

  /** The properties a schema declares, those of its `allOf` parts merged in, later ones winning. */
  function Props(files: Files, doc: Json, schema: Json, depth: nat): (r: map<string, Json>)
    decreases MAX_ALL_OF + 1 - depth, 0
  {
    var s := Target(files, doc, schema);
    if depth > MAX_ALL_OF || !s.Obj? then map[]
    else Merged(MembersAt(s.members, "properties"), PartProps(files, doc, ListAt(s.members, "allOf"), depth))
  }

  /** What each part declares. */
  function PartProps(files: Files, doc: Json, parts: seq<Json>, depth: nat): (r: seq<map<string, Json>>)
    requires depth <= MAX_ALL_OF
    ensures |r| == |parts|
    decreases MAX_ALL_OF - depth, 1
  {
    seq(|parts|, i requires 0 <= i < |parts| => Props(files, doc, parts[i], depth + 1))
  }

  /** `more`, one after the other, merged into `own`. */
  function Merged(own: map<string, Json>, more: seq<map<string, Json>>): (r: map<string, Json>) {
    if more == [] then own else Merged(own, more[..|more| - 1]) + more[|more| - 1]
  }

  method PropsLoop(files: Files, doc: Json, schema: Json, depth: nat) returns (out: map<string, Json>)
    ensures out == Props(files, doc, schema, depth)
    decreases MAX_ALL_OF + 1 - depth, 1
  {
    var s := DerefLoop(files, doc, schema);
    if depth > MAX_ALL_OF || !s.Obj? {
      return map[];
    }
    out := MergeLoop(files, doc, MembersAt(s.members, "properties"), ListAt(s.members, "allOf"), depth);
  }

  method MergeLoop(files: Files, doc: Json, own: map<string, Json>, parts: seq<Json>, depth: nat)
    returns (out: map<string, Json>)
    requires depth <= MAX_ALL_OF
    ensures out == Merged(own, PartProps(files, doc, parts, depth))
    decreases MAX_ALL_OF + 1 - depth, 0
  {
    out := own;
    ghost var all := PartProps(files, doc, parts, depth);
    for i := 0 to |parts|
      invariant out == Merged(own, all[..i])
    {
      var more := PropsLoop(files, doc, parts[i], depth + 1);
      assert all[..i + 1][..i] == all[..i];
      out := out + more;
    }
    assert all[..|parts|] == all;
  }

  // ---- relocation -------------------------------------------------------------

  /** No reference that `deref` follows from `node` is empty. */
  predicate Followable(files: Files, doc: Json, node: Json, budget: nat)
    decreases budget
  {
    budget != 0 && IsRef(node) ==>
      RefOf(node) != "" && Followable(files, doc, Resolve(files, doc, RefOf(node)), budget - 1)
  }

  /** No reference that `props` follows from `schema` is empty. */
  predicate Mergeable(files: Files, doc: Json, schema: Json, depth: nat)
    decreases MAX_ALL_OF + 1 - depth
  {
    depth <= MAX_ALL_OF ==>
      Followable(files, doc, schema, MAX_REFS) &&
      var s := Target(files, doc, schema);
      s.Obj? ==> forall i :: 0 <= i < |ListAt(s.members, "allOf")| ==>
        Mergeable(files, doc, ListAt(s.members, "allOf")[i], depth + 1)
  }

  lemma {:induction false} IndexAfterFileName(file: string, ref: string)
    requires '#' !in file && "#" <= ref
    ensures IndexOf(file + ref, '#') == |file|
  {
    if file == "" {
      assert file + ref == ref;
    } else {
      assert (file + ref)[1..] == file[1..] + ref;
      IndexAfterFileName(file[1..], ref);
    }
  }

  /** Read from `host`, the qualified reference names what the bare one names inside `file`. */
  ghost predicate Survives(files: Files, host: Json, file: string, node: Json)
    requires IsRef(node)
  {
    var moved := Qualify(node, file);
    IsRef(moved) && Resolve(files, host, RefOf(moved)) == Qualify(Resolve(files, files(file), RefOf(node)), file)
  }

  lemma ResolveBare(files: Files, host: Json, file: string, ref: string)
    requires IsFileName(file) && "#" <= ref
    ensures Resolve(files, host, file + ref) == Qualify(Resolve(files, files(file), ref), file)
  {
    IndexAfterFileName(file, ref);
    IndexAfterFileName("", ref);
    assert "" + ref == ref;
    var s := file + ref;
    assert s[..|file|] == file;
    assert s[|file| + 1..] == ref[1..];
  }

  lemma ResolveFiled(files: Files, host: Json, doc: Json, file: string, ref: string)
    requires ref != "" && !("#" <= ref)
    ensures Resolve(files, host, ref) == Qualify(Resolve(files, doc, ref), file)
  {
    var h := IndexOf(ref, '#');
    assert ref[0] != '#';
    assert ref[..h] != "";
    QualifyOnce(Walk(files(ref[..h]), PointerParts(if h < |ref| then ref[h + 1..] else "")), ref[..h], file);
  }

  lemma ResolveCommutes(files: Files, host: Json, file: string, node: Json)
    requires IsFileName(file) && IsRef(node) && RefOf(node) != ""
    ensures Survives(files, host, file, node)
  {
    var ref := RefOf(node);
    QualifyObject(node.members, file);
    if "#" <= ref {
      ResolveBare(files, host, file, ref);
    } else {
      ResolveFiled(files, host, files(file), file, ref);
    }
  }

  /** The empty reference is the one that does not survive the move: `_qualify` leaves it alone and
      it then reads the document it lands in. */
  lemma RelocatableExactly(files: Files, file: string, node: Json)
    requires IsFileName(file) && IsRef(node)
    ensures (forall host: Json :: Survives(files, host, file, node)) <==> RefOf(node) != ""
  {
    if RefOf(node) != "" {
      forall host: Json ensures Survives(files, host, file, node) {
        ResolveCommutes(files, host, file, node);
      }
    } else {
      var moved := Qualify(Resolve(files, files(file), RefOf(node)), file);
      var other := if moved == Null then Bool(true) else Null;
      var host := Obj(map["" := other]);
      assert PointerParts("") == [""];
      assert Walk(other, []) == other;
      assert Resolve(files, host, "") == other;
      assert !Survives(files, host, file, node);
    }
  }

  lemma {:induction false} DerefCommutes(files: Files, host: Json, file: string, node: Json, budget: nat)
    requires IsFileName(file) && Followable(files, files(file), node, budget)
    ensures Deref(files, host, Qualify(node, file), budget) == Qualify(Deref(files, files(file), node, budget), file)
    decreases budget
  {
    if !IsRef(node) {
      if node.Obj? {
        QualifyObject(node.members, file);
      }
    } else if budget != 0 {
      ResolveCommutes(files, host, file, node);
      DerefCommutes(files, host, file, Resolve(files, files(file), RefOf(node)), budget - 1);
    }
  }

  lemma QualifiedMembers(m: map<string, Json>, file: string, key: string)
    requires key != "$ref"
    ensures MembersAt(QualifyAll(m, file), key) == QualifyAll(MembersAt(m, key), file)
    ensures |ListAt(QualifyAll(m, file), key)| == |ListAt(m, key)|
    ensures forall i :: 0 <= i < |ListAt(m, key)| ==>
              ListAt(QualifyAll(m, file), key)[i] == Qualify(ListAt(m, key)[i], file)
  {
    QualifyObject(m, file);
    if key in m {
      assert QualifyAll(m, file)[key] == Qualify(m[key], file);
    }
  }

  lemma QualifyAllMerges(a: map<string, Json>, b: map<string, Json>, file: string)
    ensures QualifyAll(a + b, file) == QualifyAll(a, file) + QualifyAll(b, file)
  {
    forall k | k in a + b
      ensures QualifyAll(a + b, file)[k] == (QualifyAll(a, file) + QualifyAll(b, file))[k]
    {
    }
  }

  function QualifyList(parts: seq<Json>, file: string): (r: seq<Json>)
    ensures |r| == |parts| && forall i :: 0 <= i < |parts| ==> r[i] == Qualify(parts[i], file)
  {
    seq(|parts|, i requires 0 <= i < |parts| => Qualify(parts[i], file))
  }

  lemma QualifiedList(m: map<string, Json>, file: string)
    ensures ListAt(QualifyAll(m, file), "allOf") == QualifyList(ListAt(m, "allOf"), file)
    ensures MembersAt(QualifyAll(m, file), "properties") == QualifyAll(MembersAt(m, "properties"), file)
  {
    QualifiedMembers(m, file, "properties");
    QualifiedMembers(m, file, "allOf");
  }

  /** What a moved schema declares, part by part. */
  lemma MovedProps(files: Files, host: Json, file: string, schema: Json, depth: nat)
    requires IsFileName(file) && depth <= MAX_ALL_OF && Followable(files, files(file), schema, MAX_REFS)
    requires Target(files, files(file), schema).Obj?
    ensures var m := Target(files, files(file), schema).members;
            Props(files, host, Qualify(schema, file), depth)
            == Merged(QualifyAll(MembersAt(m, "properties"), file),
                      PartProps(files, host, QualifyList(ListAt(m, "allOf"), file), depth))
  {
    var m := Target(files, files(file), schema).members;
    DerefCommutes(files, host, file, schema, MAX_REFS);
    QualifyObject(m, file);
    QualifiedList(m, file);
  }

  lemma {:induction false} PropsCommutes(files: Files, host: Json, file: string, schema: Json, depth: nat)
    requires IsFileName(file) && Mergeable(files, files(file), schema, depth)
    ensures Props(files, host, Qualify(schema, file), depth)
            == QualifyAll(Props(files, files(file), schema, depth), file)
    decreases MAX_ALL_OF + 1 - depth, 0
  {
    if depth <= MAX_ALL_OF {
      var s := Target(files, files(file), schema);
      if s.Obj? {
        var parts := ListAt(s.members, "allOf");
        MovedProps(files, host, file, schema, depth);
        PartPropsCommute(files, host, file, parts, depth);
        MergedCommutes(MembersAt(s.members, "properties"), PartProps(files, files(file), parts, depth), file);
      } else {
        DerefCommutes(files, host, file, schema, MAX_REFS);
      }
    }
  }

  function QualifyEach(more: seq<map<string, Json>>, file: string): (r: seq<map<string, Json>>)
    ensures |r| == |more|
  {
    seq(|more|, i requires 0 <= i < |more| => QualifyAll(more[i], file))
  }

  lemma {:induction false} PartPropsCommute(files: Files, host: Json, file: string, parts: seq<Json>, depth: nat)
    requires IsFileName(file) && depth <= MAX_ALL_OF
    requires forall i :: 0 <= i < |parts| ==> Mergeable(files, files(file), parts[i], depth + 1)
    ensures PartProps(files, host, QualifyList(parts, file), depth)
            == QualifyEach(PartProps(files, files(file), parts, depth), file)
    decreases MAX_ALL_OF - depth, 1
  {
    forall i | 0 <= i < |parts|
      ensures Props(files, host, Qualify(parts[i], file), depth + 1)
              == QualifyAll(Props(files, files(file), parts[i], depth + 1), file)
    {
      PropsCommutes(files, host, file, parts[i], depth + 1);
    }
  }

  lemma {:induction false} MergedCommutes(own: map<string, Json>, more: seq<map<string, Json>>, file: string)
    ensures Merged(QualifyAll(own, file), QualifyEach(more, file)) == QualifyAll(Merged(own, more), file)
    decreases |more|
  {
    if more != [] {
      var n := |more| - 1;
      MergedCommutes(own, more[..n], file);
      assert QualifyEach(more, file)[..n] == QualifyEach(more[..n], file);
      QualifyAllMerges(Merged(own, more[..n]), more[n], file);
    }
  }

  // ---- where an empty reference lands -------------------------------------------

  /** A document that keeps `found` where an empty reference looks. */
  function HostOf(found: Json): (host: Json) {
    Obj(map["" := found])
  }

  function OneProperty(name: string): (r: Json) {
    Obj(map["properties" := Obj(map[name := EMPTY])])
  }

  /** One that keeps the single property `name` there. */
  function Landing(name: string): (host: Json) {
    HostOf(OneProperty(name))
  }

  lemma ResolveLands(files: Files, found: Json)
    ensures Resolve(files, HostOf(found), "") == found
  {
    assert PointerParts("") == [""];
    assert Walk(found, []) == found;
  }

  lemma PropsOfLanding(files: Files, name: string, depth: nat)
    requires depth <= MAX_ALL_OF
    ensures Props(files, Landing(name), OneProperty(name), depth) == map[name := EMPTY]
  {
    var found := OneProperty(name);
    assert Target(files, Landing(name), found) == found;
    assert ListAt(found.members, "allOf") == [];
  }

  lemma {:induction false} DerefLands(files: Files, found: Json, file: string, node: Json, budget: nat)
    requires IsFileName(file) && !IsRef(found) && !Followable(files, files(file), node, budget)
    ensures Deref(files, HostOf(found), Qualify(node, file), budget) == found
    decreases budget
  {
    QualifyObject(node.members, file);
    if RefOf(node) == "" {
      ResolveLands(files, found);
    } else {
      ResolveCommutes(files, HostOf(found), file, node);
      DerefLands(files, found, file, Resolve(files, files(file), RefOf(node)), budget - 1);
    }
  }

  lemma {:induction false} MergedHolds(own: map<string, Json>, more: seq<map<string, Json>>, i: nat, name: string)
    requires i < |more| && name in more[i]
    ensures name in Merged(own, more)
    decreases |more|
  {
    if i < |more| - 1 {
      MergedHolds(own, more[..|more| - 1], i, name);
    }
  }

  /** A schema that follows an empty reference takes on the property of the document it is moved to. */
  lemma {:induction false} PropsLand(files: Files, name: string, file: string, schema: Json, depth: nat)
    requires IsFileName(file) && !Mergeable(files, files(file), schema, depth)
    ensures name in Props(files, Landing(name), Qualify(schema, file), depth)
    decreases MAX_ALL_OF + 1 - depth
  {
    if !Followable(files, files(file), schema, MAX_REFS) {
      DerefLands(files, OneProperty(name), file, schema, MAX_REFS);
      PropsOfLanding(files, name, depth);
    } else {
      var m := Target(files, files(file), schema).members;
      var parts := ListAt(m, "allOf");
      var i :| 0 <= i < |parts| && !Mergeable(files, files(file), parts[i], depth + 1);
      PropsLand(files, name, file, parts[i], depth + 1);
      MovedProps(files, Landing(name), file, schema, depth);
      MergedHolds(QualifyAll(MembersAt(m, "properties"), file),
                  PartProps(files, Landing(name), QualifyList(parts, file), depth), i, name);
    }
  }
}
