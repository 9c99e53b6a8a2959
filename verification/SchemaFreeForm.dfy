/** Moving a schema between files keeps what it leaves free-form (`scripts/schema_drift.py`), exactly: if and
    only if no reference that `declared_opaque` follows is empty. */
module SchemaFreeForm {
  import opened Json
  import opened Observation
  import opened SchemaRefs
  import opened SchemaDrift
  import opened SchemaVerdict
  import opened SchemaDetection

  /** No name the walk meets can be mistaken for a path. */
  predicate PlainWalk(files: Files, doc: Json, schema: Json, depth: nat)
    decreases FLATTEN_DEPTH + 1 - depth, 1
  {
    depth <= FLATTEN_DEPTH ==>
      var props := Props(files, doc, schema, depth);
      ArePlain(props.Keys) && forall k :: k in props ==> PlainWalkBelow(files, doc, Target(files, doc, props[k]), depth)
  }

  predicate PlainWalkBelow(files: Files, doc: Json, sub: Json, depth: nat)
    requires depth <= FLATTEN_DEPTH
    decreases FLATTEN_DEPTH + 1 - depth, 0
  {
    if !sub.Obj? then true
    else if TypeIs(sub.members, "array") then PlainWalk(files, doc, Target(files, doc, ItemsOf(sub.members)), depth + 1)
    else if "properties" in sub.members || "allOf" in sub.members then PlainWalk(files, doc, sub, depth + 1)
    else true
  }

  /** A node that declares nothing and leaves nothing free-form. */
  const TEXT := Obj(map["type" := Str("string")])

  /** The document every other one is compared with. */
  const HOST := HostOf(TEXT)

  // ---- names that only the landing place gives ------------------------------------------------

  lemma PropsOfText(files: Files, depth: nat)
    ensures Props(files, HOST, TEXT, depth) == map[]
  {
    assert Target(files, HOST, TEXT) == TEXT;
    if depth <= MAX_ALL_OF {
      assert PartProps(files, HOST, [], depth) == [];
      assert Merged(map[], []) == map[];
    }
  }

  /** A name that does not come from the schema itself stands for nothing but the landing place. */
  lemma {:induction false} NewNameIsEmpty(files: Files, name: string, file: string, schema: Json, depth: nat)
    requires IsFileName(file) && name !in Props(files, HOST, Qualify(schema, file), depth)
    ensures IsEmptyAt(Props(files, Landing(name), Qualify(schema, file), depth), name)
    decreases MAX_ALL_OF + 1 - depth, 1
  {
    if depth <= MAX_ALL_OF {
      if !Followable(files, files(file), schema, MAX_REFS) {
        DerefLands(files, OneProperty(name), file, schema, MAX_REFS);
        PropsOfLanding(files, name, depth);
      } else {
        NewNameInParts(files, name, file, schema, depth);
      }
    }
  }

  lemma {:induction false} NewNameInParts(files: Files, name: string, file: string, schema: Json, depth: nat)
    requires IsFileName(file) && name !in Props(files, HOST, Qualify(schema, file), depth)
    requires depth <= MAX_ALL_OF && Followable(files, files(file), schema, MAX_REFS)
    ensures IsEmptyAt(Props(files, Landing(name), Qualify(schema, file), depth), name)
    decreases MAX_ALL_OF + 1 - depth, 0
  {
    var s := Target(files, files(file), schema);
    if s.Obj? {
      var parts := ListAt(s.members, "allOf");
      MovedProps(files, HOST, file, schema, depth);
      MovedProps(files, Landing(name), file, schema, depth);
      PartsNewName(files, name, file, parts, depth);
      MergedNewName(QualifyAll(MembersAt(s.members, "properties"), file),
                    PartProps(files, HOST, QualifyList(parts, file), depth),
                    PartProps(files, Landing(name), QualifyList(parts, file), depth), name);
    } else {
      DerefCommutes(files, Landing(name), file, schema, MAX_REFS);
    }
  }

  /** If `name` is there, it stands for nothing. */
  predicate IsEmptyAt(m: map<string, Json>, name: string) {
    name in m ==> m[name] == EMPTY
  }

  /** A name that one part of the schema does not declare stands for nothing in that part when it is moved. */
  lemma {:induction false} PartsNewName(files: Files, name: string, file: string, parts: seq<Json>, depth: nat)
    requires IsFileName(file) && depth <= MAX_ALL_OF
    ensures var here := PartProps(files, HOST, QualifyList(parts, file), depth);
            var there := PartProps(files, Landing(name), QualifyList(parts, file), depth);
            forall i :: 0 <= i < |parts| && name !in here[i] ==> IsEmptyAt(there[i], name)
    decreases MAX_ALL_OF - depth, 2
  {
    forall i | 0 <= i < |parts| && name !in Props(files, HOST, Qualify(parts[i], file), depth + 1)
      ensures IsEmptyAt(Props(files, Landing(name), Qualify(parts[i], file), depth + 1), name)
    {
      NewNameIsEmpty(files, name, file, parts[i], depth + 1);
    }
  }

  lemma {:induction false} MergedNewName(own: map<string, Json>, here: seq<map<string, Json>>,
                                         there: seq<map<string, Json>>, name: string)
    requires |here| == |there| && name !in Merged(own, here)
    requires forall i :: 0 <= i < |here| && name !in here[i] ==> IsEmptyAt(there[i], name)
    ensures IsEmptyAt(Merged(own, there), name)
    decreases |here|
  {
    if here != [] {
      var n := |here| - 1;
      MergedNewName(own, here[..n], there[..n], name);
    }
  }

  // ---- what one property contributes ---------------------------------------------------------------

  lemma PropertyIsFreeForm(files: Files, doc: Json, schema: Json, k: string, prefix: string, depth: nat, p: string)
    requires k in Props(files, doc, schema, depth)
    requires p in DeclaredOpaqueTarget(files, doc, Target(files, doc, Props(files, doc, schema, depth)[k]),
                                       prefix + k, depth)
    ensures p in DeclaredOpaque(files, doc, schema, prefix, depth)
  {
    assert p in DeclaredOpaqueMember(files, doc, k, Props(files, doc, schema, depth)[k], prefix, depth);
  }

  lemma NotFreeFormElsewhere(files: Files, doc: Json, schema: Json, k: string, prefix: string, depth: nat, p: string)
    requires k in Props(files, doc, schema, depth) && ArePlain(Props(files, doc, schema, depth).Keys) &&
             Below(p, prefix + k)
    requires !Under(p, DeclaredOpaqueTarget(files, doc, Target(files, doc, Props(files, doc, schema, depth)[k]),
                                            prefix + k, depth))
    ensures !Under(p, DeclaredOpaque(files, doc, schema, prefix, depth))
  {
    forall o | o in DeclaredOpaque(files, doc, schema, prefix, depth) ensures !Below(p, o) {
      if Below(p, o) {
        var m := FreeFormUnder(files, doc, schema, prefix, depth, o);
        BelowThrough(p, o, prefix + m);
        SameName(p, prefix, m, k);
      }
    }
  }

  // ---- two documents that tell the schemas apart -----------------------------------------------------

  /** `p` is free-form in the moved schema in `host`, and lies at or below nothing free-form in `HOST`. */
  ghost predicate TellsApart(files: Files, host: Json, file: string, schema: Json, prefix: string, depth: nat,
                             p: string) {
    p in DeclaredOpaque(files, host, Qualify(schema, file), prefix, depth) &&
    !Under(p, DeclaredOpaque(files, HOST, Qualify(schema, file), prefix, depth))
  }

  ghost predicate TellsApartBelow(files: Files, host: Json, file: string, sub: Json, path: string, depth: nat,
                                  p: string) {
    p in DeclaredOpaqueTarget(files, host, Qualify(sub, file), path, depth) &&
    !Under(p, DeclaredOpaqueTarget(files, HOST, Qualify(sub, file), path, depth))
  }

  ghost predicate TellsApartAt(files: Files, host: Json, file: string, node: Json, path: string, depth: nat,
                               p: string) {
    p in DeclaredOpaqueTarget(files, host, Target(files, host, Qualify(node, file)), path, depth) &&
    !Under(p, DeclaredOpaqueTarget(files, HOST, Target(files, HOST, Qualify(node, file)), path, depth))
  }

  lemma EmptyIsFreeForm(files: Files, doc: Json, schema: Json, name: string, prefix: string, depth: nat)
    requires depth <= FLATTEN_DEPTH
    requires name in Props(files, doc, schema, depth) && Props(files, doc, schema, depth)[name] == EMPTY
    ensures prefix + name in DeclaredOpaque(files, doc, schema, prefix, depth)
  {
    assert Target(files, doc, EMPTY) == EMPTY;
    PropertyIsFreeForm(files, doc, schema, name, prefix, depth, prefix + name);
  }

  /** A name that the schema in `HOST` does not declare, and that lies below nothing it leaves free-form. */
  lemma NewName(files: Files, q: Json, prefix: string, depth: nat) returns (name: string)
    ensures name !in Props(files, HOST, q, depth)
    ensures !Under(prefix + name, DeclaredOpaque(files, HOST, q, prefix, depth))
  {
    var known := DeclaredOpaque(files, HOST, q, prefix, depth);
    var longer := LongerName(Props(files, HOST, q, depth).Keys + known);
    name := Letters(|longer|);
    forall o | o in known ensures !Below(prefix + name, o) {
      FreeFormKeepsPrefix(files, HOST, q, prefix, depth, o);
      assert |o| < |longer|;
      OnlyMarksLeadBelow(prefix, name, o);
    }
  }

  /** Nothing that starts with the prefix, and is shorter, leads to a name without marks. */
  lemma OnlyMarksLeadBelow(prefix: string, name: string, o: string)
    requires prefix <= o && |o| < |prefix| + |name| && IsPlain(name)
    ensures !Below(prefix + name, o)
  {
    assert (prefix + name)[|o|] == name[|o| - |prefix|];
    if Below(prefix + name, o) {
      NextIsMark(prefix + name, o);
    }
  }

  lemma NameLands(files: Files, file: string, schema: Json, prefix: string, depth: nat) returns (host: Json, p: string)
    requires IsFileName(file) && depth <= FLATTEN_DEPTH && !Mergeable(files, files(file), schema, depth)
    ensures TellsApart(files, host, file, schema, prefix, depth, p)
  {
    var name := NewName(files, Qualify(schema, file), prefix, depth);
    host, p := Landing(name), prefix + name;
    PropsLand(files, name, file, schema, depth);
    NewNameIsEmpty(files, name, file, schema, depth);
    EmptyIsFreeForm(files, host, Qualify(schema, file), name, prefix, depth);
  }

  lemma {:induction false} FreeFormLands(files: Files, file: string, schema: Json, prefix: string, depth: nat)
    returns (host: Json, p: string)
    requires IsFileName(file) && PlainWalk(files, files(file), schema, depth)
    requires !FreeFormSettled(files, files(file), schema, depth)
    ensures TellsApart(files, host, file, schema, prefix, depth, p)
    decreases FLATTEN_DEPTH + 1 - depth, 2
  {
    if !Mergeable(files, files(file), schema, depth) {
      host, p := NameLands(files, file, schema, prefix, depth);
    } else {
      var props := Props(files, files(file), schema, depth);
      var k :| k in props && !(Followable(files, files(file), props[k], MAX_REFS) &&
                               FreeFormSettledBelow(files, files(file), Target(files, files(file), props[k]), depth));
      host, p := FreeFormLandsAt(files, file, props[k], prefix + k, depth);
      MovedProperty(files, host, file, schema, k, depth);
      MovedProperty(files, HOST, file, schema, k, depth);
      LiftsApart(files, host, file, schema, k, prefix, depth, p);
    }
  }

  lemma MovedProperty(files: Files, host: Json, file: string, schema: Json, k: string, depth: nat)
    requires IsFileName(file) && Mergeable(files, files(file), schema, depth) &&
             k in Props(files, files(file), schema, depth)
    ensures var props := Props(files, files(file), schema, depth);
            var moved := Props(files, host, Qualify(schema, file), depth);
            moved.Keys == props.Keys && (!props[k].Str? ==> moved[k] == Qualify(props[k], file))
  {
    PropsCommutes(files, host, file, schema, depth);
    QualifyObject(Props(files, files(file), schema, depth), file);
  }

  lemma LiftsApart(files: Files, host: Json, file: string, schema: Json, k: string, prefix: string, depth: nat,
                   p: string)
    requires var q := Qualify(schema, file);
             var here, there := Props(files, host, q, depth), Props(files, HOST, q, depth);
             k in here && k in there && ArePlain(there.Keys) &&
             p in DeclaredOpaqueTarget(files, host, Target(files, host, here[k]), prefix + k, depth) &&
             !Under(p, DeclaredOpaqueTarget(files, HOST, Target(files, HOST, there[k]), prefix + k, depth))
    ensures TellsApart(files, host, file, schema, prefix, depth, p)
  {
    var q := Qualify(schema, file);
    PropertyIsFreeForm(files, host, q, k, prefix, depth, p);
    FreeFormBelow(files, host, Target(files, host, Props(files, host, q, depth)[k]), prefix + k, depth, p);
    NotFreeFormElsewhere(files, HOST, q, k, prefix, depth, p);
  }

  lemma NothingIsFreeForm(files: Files, path: string, depth: nat)
    requires depth <= FLATTEN_DEPTH
    ensures path in DeclaredOpaqueTarget(files, HostOf(EMPTY), EMPTY, path, depth)
    ensures DeclaredOpaqueTarget(files, HOST, TEXT, path, depth) == {}
  {
  }

  lemma UnfollowedTellsApart(files: Files, file: string, node: Json, path: string, depth: nat)
    requires IsFileName(file) && depth <= FLATTEN_DEPTH && !Followable(files, files(file), node, MAX_REFS)
    ensures TellsApartAt(files, HostOf(EMPTY), file, node, path, depth, path) && !node.Str?
  {
    DerefLands(files, EMPTY, file, node, MAX_REFS);
    DerefLands(files, TEXT, file, node, MAX_REFS);
    NothingIsFreeForm(files, path, depth);
  }

  lemma NoItemsAreFreeForm(files: Files, path: string, depth: nat)
    requires depth <= FLATTEN_DEPTH
    ensures path + "[*]" in FreeFormOfItems(files, HostOf(EMPTY), EMPTY, path, depth)
    ensures FreeFormOfItems(files, HOST, TEXT, path, depth) == {}
  {
    PropsOfText(files, depth + 1);
    NoPropsNoFreeForm(files, HOST, TEXT, path + "[*].", depth + 1);
  }

  lemma NoPropsNoFreeForm(files: Files, doc: Json, schema: Json, prefix: string, depth: nat)
    requires Props(files, doc, schema, depth) == map[]
    ensures DeclaredOpaque(files, doc, schema, prefix, depth) == {}
  {
  }

  lemma UnfollowedItemsTellApart(files: Files, file: string, node: Json, path: string, depth: nat)
    requires IsFileName(file) && depth <= FLATTEN_DEPTH && !Followable(files, files(file), node, MAX_REFS)
    ensures path + "[*]" in FreeFormOfItems(files, HostOf(EMPTY), Target(files, HostOf(EMPTY), Qualify(node, file)),
                                            path, depth)
    ensures !Under(path + "[*]", FreeFormOfItems(files, HOST, Target(files, HOST, Qualify(node, file)), path, depth))
  {
    DerefLands(files, EMPTY, file, node, MAX_REFS);
    DerefLands(files, TEXT, file, node, MAX_REFS);
    NoItemsAreFreeForm(files, path, depth);
  }

  lemma {:induction false} FreeFormLandsAt(files: Files, file: string, node: Json, path: string, depth: nat)
    returns (host: Json, p: string)
    requires IsFileName(file) && depth <= FLATTEN_DEPTH
    requires PlainWalkBelow(files, files(file), Target(files, files(file), node), depth)
    requires !(Followable(files, files(file), node, MAX_REFS) &&
               FreeFormSettledBelow(files, files(file), Target(files, files(file), node), depth))
    ensures TellsApartAt(files, host, file, node, path, depth, p) && !node.Str?
    decreases FLATTEN_DEPTH + 1 - depth, 1
  {
    if !Followable(files, files(file), node, MAX_REFS) {
      host, p := HostOf(EMPTY), path;
      UnfollowedTellsApart(files, file, node, path, depth);
    } else {
      var sub := Target(files, files(file), node);
      host, p := FreeFormLandsBelow(files, file, sub, path, depth);
      DerefCommutes(files, host, file, node, MAX_REFS);
      DerefCommutes(files, HOST, file, node, MAX_REFS);
    }
  }

  lemma {:induction false} FreeFormLandsBelow(files: Files, file: string, sub: Json, path: string, depth: nat)
    returns (host: Json, p: string)
    requires IsFileName(file) && depth <= FLATTEN_DEPTH && PlainWalkBelow(files, files(file), sub, depth)
    requires !FreeFormSettledBelow(files, files(file), sub, depth)
    ensures TellsApartBelow(files, host, file, sub, path, depth, p)
    decreases FLATTEN_DEPTH + 1 - depth, 0
  {
    QualifiedNode(sub.members, file);
    if TypeIs(sub.members, "array") {
      host, p := FreeFormLandsInItems(files, file, ItemsOf(sub.members), path, depth);
    } else {
      host, p := FreeFormLands(files, file, sub, path + ".", depth + 1);
    }
  }

  lemma {:induction false} FreeFormLandsInItems(files: Files, file: string, node: Json, path: string, depth: nat)
    returns (host: Json, p: string)
    requires IsFileName(file) && depth <= FLATTEN_DEPTH
    requires PlainWalk(files, files(file), Target(files, files(file), node), depth + 1)
    requires !(Followable(files, files(file), node, MAX_REFS) &&
               (BareItems(Target(files, files(file), node)) ||
                FreeFormSettled(files, files(file), Target(files, files(file), node), depth + 1)))
    ensures p in FreeFormOfItems(files, host, Target(files, host, Qualify(node, file)), path, depth)
    ensures !Under(p, FreeFormOfItems(files, HOST, Target(files, HOST, Qualify(node, file)), path, depth))
    decreases FLATTEN_DEPTH - depth, 3
  {
    if !Followable(files, files(file), node, MAX_REFS) {
      host, p := HostOf(EMPTY), path + "[*]";
      UnfollowedItemsTellApart(files, file, node, path, depth);
    } else {
      host, p := FreeFormLands(files, file, Target(files, files(file), node), path + "[*].", depth + 1);
      MovedItems(files, host, file, node, path, depth);
      MovedItems(files, HOST, file, node, path, depth);
    }
  }

  lemma MovedItems(files: Files, host: Json, file: string, node: Json, path: string, depth: nat)
    requires IsFileName(file) && depth <= FLATTEN_DEPTH && Followable(files, files(file), node, MAX_REFS)
    requires !BareItems(Target(files, files(file), node))
    ensures FreeFormOfItems(files, host, Target(files, host, Qualify(node, file)), path, depth)
            == DeclaredOpaque(files, host, Qualify(Target(files, files(file), node), file), path + "[*].", depth + 1)
  {
    DerefCommutes(files, host, file, node, MAX_REFS);
    var items := Target(files, files(file), node);
    QualifyObject(items.members, file);
    QualifiedKeepsFreeForm(items.members, file);
  }

  /** The free-form paths of a list with these items. */
  function FreeFormOfItems(files: Files, doc: Json, items: Json, path: string, depth: nat): (r: set<string>)
    requires depth <= FLATTEN_DEPTH
  {
    if BareItems(items) then {path + "[*]"} else DeclaredOpaque(files, doc, items, path + "[*].", depth + 1)
  }

  /** A schema moved out of its file leaves the same paths free-form in every document it is moved to exactly
      when no reference followed on the way is empty. */
  lemma RelocationKeepsOpaqueExactly(files: Files, file: string, schema: Json, prefix: string, depth: nat)
    requires IsFileName(file) && PlainWalk(files, files(file), schema, depth)
    ensures (forall host: Json :: DeclaredOpaque(files, host, Qualify(schema, file), prefix, depth)
                                  == DeclaredOpaque(files, files(file), schema, prefix, depth))
            <==> FreeFormSettled(files, files(file), schema, depth)
  {
    if FreeFormSettled(files, files(file), schema, depth) {
      forall host: Json
        ensures DeclaredOpaque(files, host, Qualify(schema, file), prefix, depth)
                == DeclaredOpaque(files, files(file), schema, prefix, depth)
      {
        RelocationKeepsOpaque(files, host, file, schema, prefix, depth);
      }
    } else {
      var host, p := FreeFormLands(files, file, schema, prefix, depth);
      assert Below(p, p);
      assert DeclaredOpaque(files, host, Qualify(schema, file), prefix, depth)
             != DeclaredOpaque(files, HOST, Qualify(schema, file), prefix, depth);
    }
  }

  // ---- the verdict ---------------------------------------------------------------------------------

  lemma LettersAreExtra(p: string, n: nat)
    ensures IsReportedExtra(p + ['.'] + Letters(n))
  {
    var name := Letters(n);
    assert LastSegment(p + ['.'] + name) == name by {
      LastSegmentOver(p, name);
      PlainReads(name);
    }
    assert !Contains(name, "[*]") by {
      PlainReads(name);
    }
    assert n > 0 ==> name[0] == 'x';
  }

  lemma NamedIsBelow(p: string, name: string)
    ensures Below(p + ['.'] + name, p)
  {
    assert p + "." <= p + ['.'] + name;
  }

  lemma BelowThroughName(p: string, name: string, o: string)
    requires IsPlain(name) && |o| < |name| && Below(p + ['.'] + name, o)
    ensures Below(p, o)
  {
    var at := p + ['.'] + name;
    BelowBoth(at, o, p);
    if !Below(p, o) {
      assert o <= at && |o| > |p|;
      assert o[..|p| + 1] == at[..|p| + 1] == p + ['.'];
      OnlyMarksLeadBelow(p + ['.'], name, o);
    }
  }

  /** A member below `p`, with a name longer than everything in `known`. */
  lemma BelowIsNew(p: string, n: nat, known: set<string>)
    requires forall o :: o in known ==> |o| < n
    ensures p + ['.'] + Letters(n) !in known
    ensures Under(p + ['.'] + Letters(n), known) ==> Under(p, known)
  {
    var at := p + ['.'] + Letters(n);
    if o :| o in known && Below(at, o) {
      BelowThroughName(p, Letters(n), o);
    }
  }

  /** A member below what the schema does not leave free-form, under a name it does not declare. */
  lemma ExtraBelow(files: Files, doc: Json, schema: Json, p: string) returns (at: string)
    requires !Under(p, DeclaredOpaque(files, doc, schema, "", 0))
    ensures Below(at, p) && at in Judge(files, doc, schema, Obj(map[at := Str("")])).extra
  {
    var declared, freeForm := Flatten(files, doc, schema, "", 0), DeclaredOpaque(files, doc, schema, "", 0);
    var longer := LongerName(declared + freeForm);
    at := p + ['.'] + Letters(|longer|);
    NamedIsBelow(p, Letters(|longer|));
    assert at !in declared && !Under(at, freeForm) by {
      BelowIsNew(p, |longer|, declared);
      BelowIsNew(p, |longer|, freeForm);
    }
    assert IsReportedExtra(at) by {
      LettersAreExtra(p, |longer|);
    }
    MemberIsSeen(Obj(map[at := Str("")]), at);
    ExtraMeans(files, doc, schema, Obj(map[at := Str("")]), at);
  }

  lemma NothingExtraBelow(files: Files, doc: Json, schema: Json, body: Json, p: string, at: string)
    requires p in DeclaredOpaque(files, doc, schema, "", 0) && Below(at, p)
    ensures at !in Judge(files, doc, schema, body).extra
  {
    ExtraMeans(files, doc, schema, body, at);
  }

  /** Without the second half of the condition some answer is judged differently too: one with a member below
      what only the document the schema is moved to leaves free-form. */
  lemma RelocationNeedsFreeForm(files: Files, file: string, schema: Json)
    requires IsFileName(file) && PlainWalk(files, files(file), schema, 0)
    requires !FreeFormSettled(files, files(file), schema, 0)
    ensures exists host: Json, body: Json ::
              Judge(files, host, Qualify(schema, file), body) != Judge(files, files(file), schema, body)
  {
    var q := Qualify(schema, file);
    var host, p := FreeFormLands(files, file, schema, "", 0);
    var at := ExtraBelow(files, HOST, q, p);
    var body := Obj(map[at := Str("")]);
    NothingExtraBelow(files, host, q, body, p, at);
    assert Judge(files, HOST, q, body) != Judge(files, host, q, body);
  }

  /** Every answer is judged alike against a schema in its own file and against the schema moved to any other
      document, exactly when neither walk follows an empty reference. */
  lemma RelocationKeepsVerdictExactly(files: Files, file: string, schema: Json)
    requires IsFileName(file) && PlainWalk(files, files(file), schema, 0)
    ensures (forall host: Json, body: Json :: Judge(files, host, Qualify(schema, file), body)
                                              == Judge(files, files(file), schema, body))
            <==> PathsSettled(files, files(file), schema, 0) && FreeFormSettled(files, files(file), schema, 0)
  {
    if !PathsSettled(files, files(file), schema, 0) {
      RelocationNeedsPaths(files, file, schema);
    } else if !FreeFormSettled(files, files(file), schema, 0) {
      RelocationNeedsFreeForm(files, file, schema);
    } else {
      forall host: Json, body: Json
        ensures Judge(files, host, Qualify(schema, file), body) == Judge(files, files(file), schema, body)
      {
        RelocationKeepsVerdict(files, host, file, schema, body);
      }
    }
  }
}
