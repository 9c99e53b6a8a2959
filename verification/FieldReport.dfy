/** What the field-drift detector reports: nothing of a conforming item, exactly the keys of a dropped
    field, exactly the key of an added scalar. */
module FieldReport {
  import opened Options
  import opened Json
  import opened FieldDrift

  // ---- tidy specifications and conforming items ------------------------------------

  /** A field that declares members names a node with properties, which is not a reference again unless it
      says that it is an object, and no `properties` is empty. */
  predicate Tidy(spec: Spec, f: Node) {
    (f.hasProps ==> f.props != map[]) &&
    match ChildOf(spec, f)
    case NoChild => true
    case Child(n, _) => n.hasProps && n.props != map[] && (n.IsObject() || n.ref.None?)
  }

  ghost predicate AllTidy(spec: Spec, node: Node)
    decreases node
  {
    (forall k :: k in node.props ==> Tidy(spec, node.props[k]) && AllTidy(spec, node.props[k])) &&
    (node.items.Some? ==>
       AllTidy(spec, node.items.value) && (node.items.value.hasProps ==> node.items.value.props != map[]))
  }

  ghost predicate TidySpec(spec: Spec, rank: Rank) {
    Acyclic(spec, rank) && forall name :: name in spec ==> AllTidy(spec, spec[name])
  }

  /** A schema of the specification, with the bound its references obey. */
  ghost predicate SchemaAt(spec: Spec, rank: Rank, bound: nat, schema: Node) {
    TidySpec(spec, rank) && RefsBelow(spec, rank, schema, bound) && AllTidy(spec, schema) && schema.hasProps
  }

  /** A value that leaves a key behind wherever a leaf is declared. */
  ghost predicate Visible(v: Json)
    decreases v
  {
    match v
    case Obj(m) => m == map[] || exists k :: k in m && Visible(m[k])
    case Arr(xs) => xs == [] || !xs[0].Obj? || (xs[0].members != map[] && Visible(xs[0]))
    case _ => true
  }

  ghost predicate ConformsObject(spec: Spec, schema: Node, v: Json)
    decreases v, 0
  {
    v.Obj? && v.members.Keys == schema.props.Keys &&
    forall k :: k in v.members ==> ConformsField(spec, schema.props[k], v.members[k])
  }

  /** Objects may be empty, and null where they say that they are objects; arrays empty but not null; of an
      array only the first item is read. */
  ghost predicate ConformsField(spec: Spec, f: Node, x: Json)
    decreases x, 1
  {
    match ChildOf(spec, f)
    case NoChild => Visible(x)
    case Child(n, false) => (x == Null && n.IsObject()) || x == Obj(map[]) || ConformsObject(spec, n, x)
    case Child(n, true) => x.Arr? && (x.items == [] || ConformsObject(spec, n, x.items[0]))
  }

  /** The fields of the schema and no others. Leaves hold anything, and an array of objects may be null. */
  ghost predicate FitsObject(spec: Spec, schema: Node, v: Json)
    decreases v, 0
  {
    v.Obj? && v.members.Keys == schema.props.Keys &&
    forall k :: k in v.members ==> FitsField(spec, schema.props[k], v.members[k])
  }

  ghost predicate FitsField(spec: Spec, f: Node, x: Json)
    decreases x, 1
  {
    match ChildOf(spec, f)
    case NoChild => true
    case Child(n, false) => x == Null || x == Obj(map[]) || FitsObject(spec, n, x)
    case Child(n, true) => x == Null || (x.Arr? && (x.items == [] || FitsObject(spec, n, x.items[0])))
  }

  /** Of all that is read: every leaf leaves a key behind, no array of objects is null, and neither is an
      object whose definition does not say that it is one. */
  ghost predicate ShowsObject(spec: Spec, schema: Node, v: Json)
    decreases v, 0
  {
    v.Obj? ==> forall k :: k in v.members && k in schema.props ==> ShowsField(spec, schema.props[k], v.members[k])
  }

  ghost predicate ShowsField(spec: Spec, f: Node, x: Json)
    decreases x, 1
  {
    match ChildOf(spec, f)
    case NoChild => Visible(x)
    case Child(n, false) => (x == Null ==> n.IsObject()) && ShowsObject(spec, n, x)
    case Child(n, true) => x != Null && (x.Arr? && x.items != [] ==> ShowsObject(spec, n, x.items[0]))
  }

  /** An item conforms when it fits and shows. */
  lemma {:induction false} ConformsSplits(spec: Spec, schema: Node, v: Json)
    ensures ConformsObject(spec, schema, v) <==> FitsObject(spec, schema, v) && ShowsObject(spec, schema, v)
    decreases v, 0
  {
    if v.Obj? && v.members.Keys == schema.props.Keys {
      forall k | k in v.members
        ensures ConformsField(spec, schema.props[k], v.members[k]) <==>
                FitsField(spec, schema.props[k], v.members[k]) && ShowsField(spec, schema.props[k], v.members[k])
      {
        FieldSplits(spec, schema.props[k], v.members[k]);
      }
    }
  }

  lemma {:induction false} FieldSplits(spec: Spec, f: Node, x: Json)
    ensures ConformsField(spec, f, x) <==> FitsField(spec, f, x) && ShowsField(spec, f, x)
    decreases x, 1
  {
    match ChildOf(spec, f)
    case NoChild =>
    case Child(n, false) =>
      ConformsSplits(spec, n, x);
    case Child(n, true) =>
      if x.Arr? && x.items != [] {
        ConformsSplits(spec, n, x.items[0]);
      }
  }

  // ---- every key stays in the slot of its field --------------------------------------

  predicate Slot(p: Path, prefix: Path, k: string) {
    |p| > |prefix| && p[..|prefix|] == prefix && p[|prefix|].name == k
  }

  lemma {:induction false} SchemaKeysLonger(spec: Spec, rank: Rank, bound: nat, node: Node, prefix: Path, p: Path)
    requires Acyclic(spec, rank) && RefsBelow(spec, rank, node, bound)
    requires p in SchemaKeys(spec, rank, bound, node, prefix)
    ensures |p| > |prefix| && p[..|prefix|] == prefix
    decreases bound, node, 1
  {
    assert p in FieldsKeys(spec, rank, bound, node, node.props.Keys, prefix);
    var k :| k in node.props && p in FieldKeys(spec, rank, bound, node, k, prefix);
    FieldKeysInSlot(spec, rank, bound, node, k, prefix, p);
  }

  lemma {:induction false} FieldKeysInSlot(spec: Spec, rank: Rank, bound: nat, node: Node, k: string, prefix: Path,
                                           p: Path)
    requires Acyclic(spec, rank) && RefsBelow(spec, rank, node, bound) && k in node.props
    requires p in FieldKeys(spec, rank, bound, node, k, prefix)
    ensures Slot(p, prefix, k)
    decreases bound, node, 0
  {
    match ChildOf(spec, node.props[k])
    case NoChild =>
    case Child(child, arr) =>
      ChildIsSmaller(spec, rank, node, k, bound);
      SchemaKeysLonger(spec, rank, ChildBound(spec, rank, node.props[k], bound), child, prefix + [Seg(k, arr)], p);
      SlotBelow(p, prefix, Seg(k, arr));
  }

  lemma SlotBelow(p: Path, prefix: Path, seg: Seg)
    requires |p| > |prefix| + 1 && p[..|prefix| + 1] == prefix + [seg]
    ensures Slot(p, prefix, seg.name) && p[|prefix|] == seg
  {
    assert p[..|prefix| + 1][..|prefix|] == p[..|prefix|];
    assert p[..|prefix| + 1][|prefix|] == p[|prefix|];
  }

  lemma AbsentKeysInSlot(spec: Spec, rank: Rank, bound: nat, x: Json, field: Node, k: string, prefix: Path, p: Path)
    requires Acyclic(spec, rank) && RefsBelow(spec, rank, field, bound)
    requires p in AbsentKeys(spec, rank, bound, x, field, k, prefix)
    ensures Slot(p, prefix, k)
  {
    var full := prefix + [Seg(k, false)];
    var many := prefix + [Seg(k, true)];
    ItemsAreBounded(spec, rank, field, bound);
    if p != full {
      var node, b, below := field, bound, full;
      if x == Arr([]) {
        node, below := ItemsNode(field), many;
      }
      if node.ref.Some? && p in KeysOfRef(spec, rank, node.ref.value, below, full) {
        RefIsBounded(spec, rank, node.ref.value);
        node, b := ResolveRef(spec, node.ref.value), RefBound(spec, rank, node.ref.value);
      }
      SchemaKeysLonger(spec, rank, b, node, below, p);
      SlotBelow(p, prefix, if x == Arr([]) then Seg(k, true) else Seg(k, false));
    }
  }

  lemma {:induction false} ValueKeysLonger(spec: Spec, rank: Rank, bound: nat, v: Json, schema: Node, prefix: Path,
                                           p: Path)
    requires Acyclic(spec, rank) && RefsBelow(spec, rank, schema, bound)
    requires p in ValueKeys(spec, rank, bound, v, schema, prefix)
    ensures |p| > |prefix| && p[..|prefix|] == prefix
    decreases v, 1
  {
    assert p in MembersKeys(spec, rank, bound, v, v.members.Keys, schema, prefix);
    var k :| k in v.members && p in MemberKeys(spec, rank, bound, v, k, schema, prefix);
    MemberKeysInSlot(spec, rank, bound, v, k, schema, prefix, p);
  }

  lemma {:induction false} MemberKeysInSlot(spec: Spec, rank: Rank, bound: nat, v: Json, k: string, schema: Node,
                                            prefix: Path, p: Path)
    requires Acyclic(spec, rank) && RefsBelow(spec, rank, schema, bound)
    requires v.Obj? && k in v.members
    requires p in MemberKeys(spec, rank, bound, v, k, schema, prefix)
    ensures Slot(p, prefix, k)
    decreases v, 0
  {
    var x := v.members[k];
    var field := GetSchemaNode(spec, schema, k);
    var b := NodeBound(spec, rank, schema, k, bound);
    if field.Some? {
      NodeIsBounded(spec, rank, schema, k, bound);
    }
    if x.Obj? && x.members != map[] {
      ValueKeysLonger(spec, rank, b, x, ObjectSchema(field), prefix + [Seg(k, false)], p);
      SlotBelow(p, prefix, Seg(k, false));
    } else if x.Arr? && x.items != [] && x.items[0].Obj? {
      var ib := bound;
      if field.Some? {
        ItemSchemaIsBounded(spec, rank, field.value, b);
        ib := ItemsBound(spec, rank, field.value, b);
      }
      ValueKeysLonger(spec, rank, ib, x.items[0], ItemSchema(spec, field), prefix + [Seg(k, true)], p);
      SlotBelow(p, prefix, Seg(k, true));
    } else if field.Some? {
      AbsentKeysInSlot(spec, rank, b, x, field.value, k, prefix, p);
    }
  }

  // ---- the report, field by field ------------------------------------------------------

  ghost function DeclaredAt(spec: Spec, rank: Rank, bound: nat, schema: Node, k: string, prefix: Path): (r: set<Path>)
    requires Acyclic(spec, rank) && RefsBelow(spec, rank, schema, bound)
  {
    if schema.hasProps && k in schema.props then FieldKeys(spec, rank, bound, schema, k, prefix) else {}
  }

  ghost function CarriedAt(spec: Spec, rank: Rank, bound: nat, v: Json, k: string, schema: Node,
                           prefix: Path): (r: set<Path>)
    requires Acyclic(spec, rank) && RefsBelow(spec, rank, schema, bound) && v.Obj?
  {
    if k in v.members then MemberKeys(spec, rank, bound, v, k, schema, prefix) else {}
  }

  lemma ExtendsKeepsSlot(mk: Path, sk: Path, prefix: Path, k: string)
    requires Extends(mk, sk) && Slot(sk, prefix, k)
    ensures Slot(mk, prefix, k)
  {
    var n := |sk| - 1;
    assert mk[..n][..|prefix|] == mk[..|prefix|];
    assert sk[..n][..|prefix|] == sk[..|prefix|];
    if |prefix| < n {
      assert mk[..n][|prefix|] == mk[|prefix|];
      assert sk[..n][|prefix|] == sk[|prefix|];
    }
  }

  /** Whether a key is covered is decided by the keys of its own slot ... */
  lemma CoveredLocally(sk: Path, all: set<Path>, own: set<Path>, prefix: Path, k: string)
    requires Slot(sk, prefix, k) && own <= all
    requires forall mk :: mk in all && Slot(mk, prefix, k) ==> mk in own
    ensures Covered(sk, all) <==> Covered(sk, own)
  {
    if Covered(sk, all) && sk !in all {
      var mk :| mk in all && Extends(mk, sk);
      ExtendsKeepsSlot(mk, sk, prefix, k);
    }
  }

  lemma AncestorKeepsSlot(mk: Path, i: nat, prefix: Path, k: string)
    requires Slot(mk, prefix, k) && |prefix| < i < |mk|
    ensures Slot(mk[..i], prefix, k) && Slot(Cleaned(mk[..i]), prefix, k)
  {
    var a := mk[..i];
    assert a[..|prefix|] == mk[..|prefix|];
    assert Cleaned(a)[..|prefix|] == a[..|prefix|];
  }

  /** ... and so is whether a key is tolerated. */
  lemma ToleratedLocally(mk: Path, all: set<Path>, own: set<Path>, prefix: Path, k: string)
    requires Slot(mk, prefix, k) && own <= all
    requires forall sk :: sk in all ==> |sk| > |prefix|
    requires forall sk :: sk in all && Slot(sk, prefix, k) ==> sk in own
    ensures Tolerated(mk, all) <==> Tolerated(mk, own)
  {
    if Tolerated(mk, all) && mk !in all {
      var i :| 1 <= i < |mk| && (mk[..i] in all || Cleaned(mk[..i]) in all);
      assert i > |prefix|;
      AncestorKeepsSlot(mk, i, prefix, k);
      assert HasAncestorIn(mk, own, |mk|);
    }
    if Tolerated(mk, own) && mk !in own {
      var i :| 1 <= i < |mk| && (mk[..i] in own || Cleaned(mk[..i]) in own);
      assert HasAncestorIn(mk, all, |mk|);
    }
  }

  lemma SlotsAreDisjoint(p: Path, prefix: Path, k: string, other: string)
    requires Slot(p, prefix, k) && Slot(p, prefix, other)
    ensures k == other
  {
  }

  /** The keys of a field's slot are the keys of that field. */
  lemma DeclaredSlot(spec: Spec, rank: Rank, bound: nat, schema: Node, k: string, prefix: Path)
    requires Acyclic(spec, rank) && RefsBelow(spec, rank, schema, bound)
    ensures var all := SchemaKeys(spec, rank, bound, schema, prefix);
            var own := DeclaredAt(spec, rank, bound, schema, k, prefix);
            own <= all && (forall p :: p in all ==> |p| > |prefix|) &&
            (forall p :: p in all && Slot(p, prefix, k) ==> p in own) &&
            (forall p :: p in own ==> Slot(p, prefix, k))
  {
    var all := SchemaKeys(spec, rank, bound, schema, prefix);
    var own := DeclaredAt(spec, rank, bound, schema, k, prefix);
    forall p | p in all ensures |p| > |prefix| && (Slot(p, prefix, k) ==> p in own) {
      assert p in FieldsKeys(spec, rank, bound, schema, schema.props.Keys, prefix);
      var j :| j in schema.props && p in FieldKeys(spec, rank, bound, schema, j, prefix);
      FieldKeysInSlot(spec, rank, bound, schema, j, prefix, p);
      if Slot(p, prefix, k) {
        SlotsAreDisjoint(p, prefix, k, j);
      }
    }
    forall p | p in own ensures Slot(p, prefix, k) && p in all {
      FieldKeysInSlot(spec, rank, bound, schema, k, prefix, p);
      assert p in FieldsKeys(spec, rank, bound, schema, schema.props.Keys, prefix);
    }
  }

  lemma CarriedSlot(spec: Spec, rank: Rank, bound: nat, v: Json, k: string, schema: Node, prefix: Path)
    requires Acyclic(spec, rank) && RefsBelow(spec, rank, schema, bound) && v.Obj?
    ensures var all := ValueKeys(spec, rank, bound, v, schema, prefix);
            var own := CarriedAt(spec, rank, bound, v, k, schema, prefix);
            own <= all && (forall p :: p in all && Slot(p, prefix, k) ==> p in own) &&
            (forall p :: p in own ==> Slot(p, prefix, k))
  {
    var all := ValueKeys(spec, rank, bound, v, schema, prefix);
    var own := CarriedAt(spec, rank, bound, v, k, schema, prefix);
    forall p | p in all && Slot(p, prefix, k) ensures p in own {
      assert p in MembersKeys(spec, rank, bound, v, v.members.Keys, schema, prefix);
      var j :| j in v.members && p in MemberKeys(spec, rank, bound, v, j, schema, prefix);
      MemberKeysInSlot(spec, rank, bound, v, j, schema, prefix, p);
      SlotsAreDisjoint(p, prefix, k, j);
    }
    forall p | p in own ensures Slot(p, prefix, k) && p in all {
      MemberKeysInSlot(spec, rank, bound, v, k, schema, prefix, p);
      assert p in MembersKeys(spec, rank, bound, v, v.members.Keys, schema, prefix);
    }
  }

  /** A key is reported of an object exactly when it is reported of its field. */
  lemma MissingByField(spec: Spec, rank: Rank, bound: nat, schema: Node, v: Json, k: string, prefix: Path, p: Path)
    requires Acyclic(spec, rank) && RefsBelow(spec, rank, schema, bound) && v.Obj? && Slot(p, prefix, k)
    ensures p in Missing(SchemaKeys(spec, rank, bound, schema, prefix), ValueKeys(spec, rank, bound, v, schema, prefix))
       <==> p in Missing(DeclaredAt(spec, rank, bound, schema, k, prefix),
                         CarriedAt(spec, rank, bound, v, k, schema, prefix))
  {
    DeclaredSlot(spec, rank, bound, schema, k, prefix);
    CarriedSlot(spec, rank, bound, v, k, schema, prefix);
    CoveredLocally(p, ValueKeys(spec, rank, bound, v, schema, prefix),
                   CarriedAt(spec, rank, bound, v, k, schema, prefix), prefix, k);
  }

  lemma ExtraByField(spec: Spec, rank: Rank, bound: nat, schema: Node, v: Json, k: string, prefix: Path, p: Path)
    requires Acyclic(spec, rank) && RefsBelow(spec, rank, schema, bound) && v.Obj? && Slot(p, prefix, k)
    ensures p in Extra(SchemaKeys(spec, rank, bound, schema, prefix), ValueKeys(spec, rank, bound, v, schema, prefix))
       <==> p in Extra(DeclaredAt(spec, rank, bound, schema, k, prefix),
                       CarriedAt(spec, rank, bound, v, k, schema, prefix))
  {
    DeclaredSlot(spec, rank, bound, schema, k, prefix);
    CarriedSlot(spec, rank, bound, v, k, schema, prefix);
    ToleratedLocally(p, SchemaKeys(spec, rank, bound, schema, prefix),
                     DeclaredAt(spec, rank, bound, schema, k, prefix), prefix, k);
  }

  ghost predicate Reports(spec: Spec, rank: Rank, bound: nat, schema: Node, v: Json, prefix: Path,
                          missing: set<Path>, extra: set<Path>)
    requires Acyclic(spec, rank) && RefsBelow(spec, rank, schema, bound)
  {
    var declared := SchemaKeys(spec, rank, bound, schema, prefix);
    var carried := ValueKeys(spec, rank, bound, v, schema, prefix);
    Missing(declared, carried) == missing && Extra(declared, carried) == extra
  }

  ghost predicate FieldReports(spec: Spec, rank: Rank, bound: nat, schema: Node, v: Json, k: string, prefix: Path,
                               missing: set<Path>, extra: set<Path>)
    requires Acyclic(spec, rank) && RefsBelow(spec, rank, schema, bound) && v.Obj?
  {
    var declared := DeclaredAt(spec, rank, bound, schema, k, prefix);
    var carried := CarriedAt(spec, rank, bound, v, k, schema, prefix);
    Missing(declared, carried) == missing && Extra(declared, carried) == extra
  }

  lemma FieldReportInSlot(spec: Spec, rank: Rank, bound: nat, schema: Node, v: Json, k: string, prefix: Path,
                          missing: set<Path>, extra: set<Path>, p: Path)
    requires Acyclic(spec, rank) && RefsBelow(spec, rank, schema, bound) && v.Obj?
    requires FieldReports(spec, rank, bound, schema, v, k, prefix, missing, extra) && (p in missing || p in extra)
    ensures Slot(p, prefix, k)
  {
    DeclaredSlot(spec, rank, bound, schema, k, prefix);
    CarriedSlot(spec, rank, bound, v, k, schema, prefix);
  }

  lemma KeyHasField(spec: Spec, rank: Rank, bound: nat, schema: Node, v: Json, prefix: Path, p: Path)
    returns (k: string)
    requires Acyclic(spec, rank) && RefsBelow(spec, rank, schema, bound) && v.Obj?
    requires p in SchemaKeys(spec, rank, bound, schema, prefix) || p in ValueKeys(spec, rank, bound, v, schema, prefix)
    ensures Slot(p, prefix, k)
  {
    if p in SchemaKeys(spec, rank, bound, schema, prefix) {
      SchemaKeysLonger(spec, rank, bound, schema, prefix, p);
    } else {
      ValueKeysLonger(spec, rank, bound, v, schema, prefix, p);
    }
    k := p[|prefix|].name;
  }

  /** When all fields but one are clean, the object's report is that field's. */
  lemma ReportOfOneField(spec: Spec, rank: Rank, bound: nat, schema: Node, v: Json, f: string, prefix: Path,
                         missing: set<Path>, extra: set<Path>)
    requires Acyclic(spec, rank) && RefsBelow(spec, rank, schema, bound) && v.Obj?
    requires FieldReports(spec, rank, bound, schema, v, f, prefix, missing, extra)
    requires forall k :: k != f ==> FieldReports(spec, rank, bound, schema, v, k, prefix, {}, {})
    ensures Reports(spec, rank, bound, schema, v, prefix, missing, extra)
  {
    var declared := SchemaKeys(spec, rank, bound, schema, prefix);
    var carried := ValueKeys(spec, rank, bound, v, schema, prefix);
    forall p ensures p in Missing(declared, carried) <==> p in missing {
      if p in Missing(declared, carried) || p in missing {
        var k := f;
        if p in missing {
          FieldReportInSlot(spec, rank, bound, schema, v, f, prefix, missing, extra, p);
        } else {
          k := KeyHasField(spec, rank, bound, schema, v, prefix, p);
        }
        MissingByField(spec, rank, bound, schema, v, k, prefix, p);
        assert k != f ==> FieldReports(spec, rank, bound, schema, v, k, prefix, {}, {});
      }
    }
    forall p ensures p in Extra(declared, carried) <==> p in extra {
      if p in Extra(declared, carried) || p in extra {
        var k := f;
        if p in extra {
          FieldReportInSlot(spec, rank, bound, schema, v, f, prefix, missing, extra, p);
        } else {
          k := KeyHasField(spec, rank, bound, schema, v, prefix, p);
        }
        ExtraByField(spec, rank, bound, schema, v, k, prefix, p);
        assert k != f ==> FieldReports(spec, rank, bound, schema, v, k, prefix, {}, {});
      }
    }
  }

  // ---- descending into a field -----------------------------------------------------------

  lemma ChildSchemaAt(spec: Spec, rank: Rank, bound: nat, schema: Node, k: string)
    requires SchemaAt(spec, rank, bound, schema) && k in schema.props && ChildOf(spec, schema.props[k]).Child?
    ensures SchemaAt(spec, rank, ChildBound(spec, rank, schema.props[k], bound), ChildOf(spec, schema.props[k]).node)
    ensures var n := ChildOf(spec, schema.props[k]).node;
            n.hasProps && n.props != map[] && (n.IsObject() || n.ref.None?)
  {
    ChildIsSmaller(spec, rank, schema, k, bound);
    var f := schema.props[k];
    assert Tidy(spec, f) && AllTidy(spec, f);
  }

  /** `y` is the object the detector reads at a field holding `x`. */
  predicate ReadsInto(x: Json, arr: bool, y: Json) {
    if arr then x.Arr? && x.items != [] && x.items[0] == y && y.Obj? else x == y && y.Obj? && y.members != map[]
  }

  lemma FieldOfChild(spec: Spec, rank: Rank, bound: nat, schema: Node, v: Json, k: string, prefix: Path, y: Json)
    requires SchemaAt(spec, rank, bound, schema) && k in schema.props && v.Obj? && k in v.members
    requires ChildOf(spec, schema.props[k]).Child? && ReadsInto(v.members[k], ChildOf(spec, schema.props[k]).arr, y)
    ensures var Child(n, arr) := ChildOf(spec, schema.props[k]);
            var b := ChildBound(spec, rank, schema.props[k], bound);
            var below := prefix + [Seg(k, arr)];
            RefsBelow(spec, rank, n, b) &&
            DeclaredAt(spec, rank, bound, schema, k, prefix) == SchemaKeys(spec, rank, b, n, below) &&
            CarriedAt(spec, rank, bound, v, k, schema, prefix) == ValueKeys(spec, rank, b, y, n, below)
  {
    ChildSchemaAt(spec, rank, bound, schema, k);
  }

  lemma AbsentField(spec: Spec, rank: Rank, bound: nat, schema: Node, v: Json, k: string, prefix: Path)
    requires SchemaAt(spec, rank, bound, schema) && k in schema.props && v.Obj? && k in v.members
    requires ChildOf(spec, schema.props[k]).Child?
    requires var Child(n, arr) := ChildOf(spec, schema.props[k]);
             if arr then v.members[k] == Arr([])
             else v.members[k] == Obj(map[]) || (v.members[k] == Null && n.IsObject())
    ensures CarriedAt(spec, rank, bound, v, k, schema, prefix) == DeclaredAt(spec, rank, bound, schema, k, prefix)
  {
    ChildSchemaAt(spec, rank, bound, schema, k);
  }

  // ---- leaves ------------------------------------------------------------------------------

  /** A node to read a value against: of the specification, or one of the two stand-ins without fields. */
  ghost predicate ReadAgainst(spec: Spec, rank: Rank, bound: nat, schema: Node) {
    TidySpec(spec, rank) && RefsBelow(spec, rank, schema, bound) && AllTidy(spec, schema)
  }

  /** A schema with fields declares a key. */
  lemma {:induction false} SchemaHasKey(spec: Spec, rank: Rank, bound: nat, schema: Node, prefix: Path)
    returns (p: Path)
    requires SchemaAt(spec, rank, bound, schema) && schema.props != map[]
    ensures p in SchemaKeys(spec, rank, bound, schema, prefix)
    decreases bound, schema
  {
    var k :| k in schema.props;
    assert Tidy(spec, schema.props[k]);
    match ChildOf(spec, schema.props[k]) {
      case NoChild =>
        p := prefix + [Seg(k, false)];
      case Child(n, arr) =>
        ChildIsSmaller(spec, rank, schema, k, bound);
        ChildSchemaAt(spec, rank, bound, schema, k);
        p := SchemaHasKey(spec, rank, ChildBound(spec, rank, schema.props[k], bound), n, prefix + [Seg(k, arr)]);
    }
    assert p in FieldKeys(spec, rank, bound, schema, k, prefix);
    assert p in FieldsKeys(spec, rank, bound, schema, schema.props.Keys, prefix);
  }

  lemma RefHasKey(spec: Spec, rank: Rank, ref: string, below: Path, full: Path) returns (p: Path)
    requires TidySpec(spec, rank)
    ensures p in KeysOfRef(spec, rank, ref, below, full)
  {
    var resolved := ResolveRef(spec, ref);
    RefIsBounded(spec, rank, ref);
    if resolved.hasProps && resolved.props != map[] {
      p := SchemaHasKey(spec, rank, RefBound(spec, rank, ref), resolved, below);
    } else {
      p := full;
    }
  }

  /** A field that a value is read against. */
  ghost predicate FieldAt(spec: Spec, rank: Rank, bound: nat, field: Node) {
    ReadAgainst(spec, rank, bound, field) && (field.hasProps ==> field.props != map[])
  }

  lemma NodeIsTidy(spec: Spec, rank: Rank, bound: nat, schema: Node, k: string)
    requires ReadAgainst(spec, rank, bound, schema) && GetSchemaNode(spec, schema, k).Some?
    ensures FieldAt(spec, rank, NodeBound(spec, rank, schema, k, bound), GetSchemaNode(spec, schema, k).value)
  {
    NodeIsBounded(spec, rank, schema, k, bound);
    assert Tidy(spec, schema.props[k]);
  }

  lemma ItemSchemaIsTidy(spec: Spec, rank: Rank, bound: nat, field: Node)
    requires FieldAt(spec, rank, bound, field)
    ensures ReadAgainst(spec, rank, ItemsBound(spec, rank, field, bound), ItemSchema(spec, Some(field)))
  {
    ItemSchemaIsBounded(spec, rank, field, bound);
  }

  /** What stands for an absent value is never nothing. */
  lemma AbsentLeavesKey(spec: Spec, rank: Rank, bound: nat, x: Json, field: Node, k: string, prefix: Path)
    returns (p: Path)
    requires FieldAt(spec, rank, bound, field)
    ensures p in AbsentKeys(spec, rank, bound, x, field, k, prefix)
  {
    var full := prefix + [Seg(k, false)];
    p := full;
    if x.Null? && field.Truthy() {
      if field.IsObject() {
        p := SchemaHasKey(spec, rank, bound, field, full);
      } else if field.ref.Some? {
        p := RefHasKey(spec, rank, field.ref.value, full, full);
      }
    } else if x == Arr([]) && field.Truthy() {
      var items := ItemsNode(field);
      ItemsAreBounded(spec, rank, field, bound);
      if items.ref.Some? {
        p := RefHasKey(spec, rank, items.ref.value, prefix + [Seg(k, true)], full);
      } else if items.IsObject() {
        p := SchemaHasKey(spec, rank, bound, items, prefix + [Seg(k, true)]);
      }
    } else if x == Obj(map[]) && field.Truthy() && field.hasProps {
      p := SchemaHasKey(spec, rank, bound, field, full);
    }
  }

  /** A visible value leaves a key, whatever it is read against. */
  lemma {:induction false} VisibleLeavesKey(spec: Spec, rank: Rank, bound: nat, v: Json, schema: Node, prefix: Path)
    returns (p: Path)
    requires ReadAgainst(spec, rank, bound, schema) && v.Obj? && v.members != map[] && Visible(v)
    ensures p in ValueKeys(spec, rank, bound, v, schema, prefix)
    decreases v, 1
  {
    var k :| k in v.members && Visible(v.members[k]);
    p := VisibleMemberLeavesKey(spec, rank, bound, v, k, schema, prefix);
    assert p in MembersKeys(spec, rank, bound, v, v.members.Keys, schema, prefix);
  }

  lemma {:induction false} VisibleMemberLeavesKey(spec: Spec, rank: Rank, bound: nat, v: Json, k: string, schema: Node,
                                                  prefix: Path) returns (p: Path)
    requires ReadAgainst(spec, rank, bound, schema) && v.Obj? && k in v.members && Visible(v.members[k])
    ensures p in MemberKeys(spec, rank, bound, v, k, schema, prefix)
    decreases v, 0
  {
    var x := v.members[k];
    var field := GetSchemaNode(spec, schema, k);
    var b := NodeBound(spec, rank, schema, k, bound);
    var full, many := prefix + [Seg(k, false)], prefix + [Seg(k, true)];
    if field.Some? {
      NodeIsTidy(spec, rank, bound, schema, k);
      if x.Obj? && x.members != map[] {
        p := VisibleLeavesKey(spec, rank, b, x, ObjectSchema(field), full);
      } else if x.Arr? && x.items != [] && x.items[0].Obj? {
        ItemSchemaIsTidy(spec, rank, b, field.value);
        p := VisibleLeavesKey(spec, rank, ItemsBound(spec, rank, field.value, b), x.items[0], ItemSchema(spec, field),
                              many);
      } else {
        p := AbsentLeavesKey(spec, rank, b, x, field.value, k, prefix);
      }
    } else if x.Obj? && x.members != map[] {
      p := VisibleLeavesKey(spec, rank, bound, x, NO_PROPS, full);
    } else if x.Arr? && x.items != [] && x.items[0].Obj? {
      p := VisibleLeavesKey(spec, rank, bound, x.items[0], EMPTY, many);
    } else {
      p := full;
    }
  }

  /** And one that is not visible leaves none. */
  lemma {:induction false} HiddenLeavesNothing(spec: Spec, rank: Rank, bound: nat, v: Json, k: string, schema: Node,
                                               prefix: Path)
    requires Acyclic(spec, rank) && RefsBelow(spec, rank, schema, bound)
    requires v.Obj? && k in v.members && !Visible(v.members[k])
    ensures MemberKeys(spec, rank, bound, v, k, schema, prefix) == {}
    decreases v, 0
  {
    var x := v.members[k];
    var field := GetSchemaNode(spec, schema, k);
    var b := NodeBound(spec, rank, schema, k, bound);
    var full, many := prefix + [Seg(k, false)], prefix + [Seg(k, true)];
    if field.Some? {
      NodeIsBounded(spec, rank, schema, k, bound);
      if x.Obj? {
        HiddenObjectLeavesNothing(spec, rank, b, x, ObjectSchema(field), full);
      } else {
        ItemSchemaIsBounded(spec, rank, field.value, b);
        HiddenObjectLeavesNothing(spec, rank, ItemsBound(spec, rank, field.value, b), x.items[0],
                                  ItemSchema(spec, field), many);
      }
    } else if x.Obj? {
      HiddenObjectLeavesNothing(spec, rank, bound, x, NO_PROPS, full);
    } else {
      HiddenObjectLeavesNothing(spec, rank, bound, x.items[0], EMPTY, many);
    }
  }

  lemma {:induction false} HiddenObjectLeavesNothing(spec: Spec, rank: Rank, bound: nat, v: Json, schema: Node,
                                                     prefix: Path)
    requires Acyclic(spec, rank) && RefsBelow(spec, rank, schema, bound)
    requires v.Obj? && forall k :: k in v.members ==> !Visible(v.members[k])
    ensures ValueKeys(spec, rank, bound, v, schema, prefix) == {}
    decreases v, 1
  {
    forall k | k in v.members ensures MemberKeys(spec, rank, bound, v, k, schema, prefix) == {} {
      HiddenLeavesNothing(spec, rank, bound, v, k, schema, prefix);
    }
    assert MembersKeys(spec, rank, bound, v, v.members.Keys, schema, prefix) == {};
  }

  lemma SlotToleratesLeaf(p: Path, prefix: Path, k: string)
    requires Slot(p, prefix, k) && (|p| > |prefix| + 1 || p == prefix + [Seg(k, false)])
    ensures Covered(prefix + [Seg(k, false)], {p})
    ensures Tolerated(p, {prefix + [Seg(k, false)]})
  {
    var full := prefix + [Seg(k, false)];
    var n := |prefix|;
    if p != full {
      assert full[..n] == prefix;
      assert Extends(p, full);
      var a := p[..n + 1];
      assert a[..n] == prefix;
      assert Cleaned(a) == full;
      assert HasAncestorIn(p, {full}, |p|);
    }
  }

  /** A leaf is reported clean exactly when it is visible. */
  lemma LeafIsClean(spec: Spec, rank: Rank, bound: nat, schema: Node, v: Json, k: string, prefix: Path)
    requires SchemaAt(spec, rank, bound, schema) && k in schema.props && v.Obj? && k in v.members
    requires ChildOf(spec, schema.props[k]).NoChild?
    ensures FieldReports(spec, rank, bound, schema, v, k, prefix, {}, {}) <==> Visible(v.members[k])
  {
    var full := prefix + [Seg(k, false)];
    var carried := CarriedAt(spec, rank, bound, v, k, schema, prefix);
    assert DeclaredAt(spec, rank, bound, schema, k, prefix) == {full};
    forall p | p in carried ensures Covered(full, {p}) && Tolerated(p, {full}) {
      LeafKeyShape(spec, rank, bound, schema, v, k, prefix, p);
      SlotToleratesLeaf(p, prefix, k);
    }
    if Visible(v.members[k]) {
      var key := VisibleMemberLeavesKey(spec, rank, bound, v, k, schema, prefix);
      assert Covered(full, {key});
      assert Covered(full, carried);
    } else {
      HiddenLeavesNothing(spec, rank, bound, v, k, schema, prefix);
      assert full in Missing({full}, carried);
    }
  }

  lemma LeafKeyShape(spec: Spec, rank: Rank, bound: nat, schema: Node, v: Json, k: string, prefix: Path, p: Path)
    requires SchemaAt(spec, rank, bound, schema) && k in schema.props && v.Obj? && k in v.members
    requires ChildOf(spec, schema.props[k]).NoChild?
    requires p in CarriedAt(spec, rank, bound, v, k, schema, prefix)
    ensures Slot(p, prefix, k) && (|p| > |prefix| + 1 || p == prefix + [Seg(k, false)])
  {
    var x := v.members[k];
    var f := schema.props[k];
    assert RefsBelow(spec, rank, f, bound);
    MemberKeysInSlot(spec, rank, bound, v, k, schema, prefix, p);
    if x.Obj? && x.members != map[] {
      ValueKeysLonger(spec, rank, bound, x, ObjectSchema(Some(f)), prefix + [Seg(k, false)], p);
    } else if x.Arr? && x.items != [] && x.items[0].Obj? {
      ItemSchemaIsBounded(spec, rank, f, bound);
      ValueKeysLonger(spec, rank, ItemsBound(spec, rank, f, bound), x.items[0], ItemSchema(spec, Some(f)),
                      prefix + [Seg(k, true)], p);
    } else {
      AbsentKeysShape(spec, rank, bound, x, f, k, prefix, p);
    }
  }

  lemma AbsentKeysShape(spec: Spec, rank: Rank, bound: nat, x: Json, field: Node, k: string, prefix: Path, p: Path)
    requires Acyclic(spec, rank) && RefsBelow(spec, rank, field, bound)
    requires p in AbsentKeys(spec, rank, bound, x, field, k, prefix)
    ensures |p| > |prefix| + 1 || p == prefix + [Seg(k, false)]
  {
    var full, many := prefix + [Seg(k, false)], prefix + [Seg(k, true)];
    var items := ItemsNode(field);
    ItemsAreBounded(spec, rank, field, bound);
    if p != full {
      if x.Null? && !field.IsObject() {
        RefKeysLonger(spec, rank, field.ref.value, full, full, p);
      } else if x.Null? || x == Obj(map[]) {
        SchemaKeysLonger(spec, rank, bound, field, full, p);
      } else if items.ref.Some? {
        RefKeysLonger(spec, rank, items.ref.value, many, full, p);
      } else {
        SchemaKeysLonger(spec, rank, bound, items, many, p);
      }
    }
  }

  lemma RefKeysLonger(spec: Spec, rank: Rank, ref: string, below: Path, full: Path, p: Path)
    requires Acyclic(spec, rank) && p in KeysOfRef(spec, rank, ref, below, full) && p != full
    ensures |p| > |below|
  {
    RefIsBounded(spec, rank, ref);
    SchemaKeysLonger(spec, rank, RefBound(spec, rank, ref), ResolveRef(spec, ref), below, p);
  }

  // ---- the theorems --------------------------------------------------------------------------

  /** A conforming item is reported clean. */
  lemma {:induction false} ConformingIsClean(spec: Spec, rank: Rank, bound: nat, schema: Node, v: Json, prefix: Path)
    requires SchemaAt(spec, rank, bound, schema) && ConformsObject(spec, schema, v)
    ensures Reports(spec, rank, bound, schema, v, prefix, {}, {})
    decreases v, 0
  {
    forall k ensures FieldReports(spec, rank, bound, schema, v, k, prefix, {}, {}) {
      if k in v.members {
        ConformingFieldIsClean(spec, rank, bound, schema, v, k, prefix);
      }
    }
    ReportOfOneField(spec, rank, bound, schema, v, "", prefix, {}, {});
  }

  lemma {:induction false} ConformingFieldIsClean(spec: Spec, rank: Rank, bound: nat, schema: Node, v: Json,
                                                  k: string, prefix: Path)
    requires SchemaAt(spec, rank, bound, schema) && k in schema.props && v.Obj? && k in v.members
    requires ConformsField(spec, schema.props[k], v.members[k])
    ensures FieldReports(spec, rank, bound, schema, v, k, prefix, {}, {})
    decreases v.members[k], 1
  {
    var x := v.members[k];
    match ChildOf(spec, schema.props[k])
    case NoChild =>
      LeafIsClean(spec, rank, bound, schema, v, k, prefix);
    case Child(n, arr) =>
      if (if arr then x == Arr([]) else x == Obj(map[]) || x == Null) {
        AbsentField(spec, rank, bound, schema, v, k, prefix);
      } else {
        var y := if arr then x.items[0] else x;
        FieldOfChild(spec, rank, bound, schema, v, k, prefix, y);
        ChildSchemaAt(spec, rank, bound, schema, k);
        ConformingIsClean(spec, rank, ChildBound(spec, rank, schema.props[k], bound), n, y, prefix + [Seg(k, arr)]);
      }
  }

  /** A null where an array of objects is declared, or an object whose definition does not say that it is
      one: its own key stands there, which the schema does not know, and all the keys below are missed. */
  lemma NullIsReported(spec: Spec, rank: Rank, bound: nat, schema: Node, v: Json, k: string, prefix: Path)
    requires SchemaAt(spec, rank, bound, schema) && k in schema.props && v.Obj? && k in v.members &&
             v.members[k] == Null
    requires ChildOf(spec, schema.props[k]).Child?
    requires var Child(n, arr) := ChildOf(spec, schema.props[k]); arr || !n.IsObject()
    ensures FieldReports(spec, rank, bound, schema, v, k, prefix, DeclaredAt(spec, rank, bound, schema, k, prefix),
                         {prefix + [Seg(k, false)]})
  {
    var full := prefix + [Seg(k, false)];
    var declared := DeclaredAt(spec, rank, bound, schema, k, prefix);
    ChildSchemaAt(spec, rank, bound, schema, k);
    var b := ChildBound(spec, rank, schema.props[k], bound);
    var Child(n, arr) := ChildOf(spec, schema.props[k]);
    forall p | p in declared ensures |p| > |full| {
      SchemaKeysLonger(spec, rank, b, n, prefix + [Seg(k, arr)], p);
    }
    assert CarriedAt(spec, rank, bound, v, k, schema, prefix) == {full};
    assert Extra(declared, {full}) == {full};
    assert Missing(declared, {full}) == declared;
  }

  /** Whatever does not show is reported. */
  lemma {:induction false} UnshownIsReported(spec: Spec, rank: Rank, bound: nat, schema: Node, v: Json, prefix: Path)
    requires SchemaAt(spec, rank, bound, schema) && FitsObject(spec, schema, v) && !ShowsObject(spec, schema, v)
    ensures !Reports(spec, rank, bound, schema, v, prefix, {}, {})
    decreases v, 0
  {
    var k :| k in v.members && k in schema.props && !ShowsField(spec, schema.props[k], v.members[k]);
    UnshownFieldIsReported(spec, rank, bound, schema, v, k, prefix);
    FieldReportIsKept(spec, rank, bound, schema, v, k, prefix);
  }

  lemma FieldReportIsKept(spec: Spec, rank: Rank, bound: nat, schema: Node, v: Json, k: string, prefix: Path)
    requires Acyclic(spec, rank) && RefsBelow(spec, rank, schema, bound) && v.Obj?
    requires !FieldReports(spec, rank, bound, schema, v, k, prefix, {}, {})
    ensures !Reports(spec, rank, bound, schema, v, prefix, {}, {})
  {
    var declared := DeclaredAt(spec, rank, bound, schema, k, prefix);
    var carried := CarriedAt(spec, rank, bound, v, k, schema, prefix);
    DeclaredSlot(spec, rank, bound, schema, k, prefix);
    CarriedSlot(spec, rank, bound, v, k, schema, prefix);
    if p :| p in Missing(declared, carried) {
      MissingByField(spec, rank, bound, schema, v, k, prefix, p);
    } else {
      var p :| p in Extra(declared, carried);
      ExtraByField(spec, rank, bound, schema, v, k, prefix, p);
    }
  }

  lemma {:induction false} UnshownFieldIsReported(spec: Spec, rank: Rank, bound: nat, schema: Node, v: Json, k: string,
                                                  prefix: Path)
    requires SchemaAt(spec, rank, bound, schema) && k in schema.props && v.Obj? && k in v.members
    requires FitsField(spec, schema.props[k], v.members[k]) && !ShowsField(spec, schema.props[k], v.members[k])
    ensures !FieldReports(spec, rank, bound, schema, v, k, prefix, {}, {})
    decreases v.members[k], 1
  {
    var x := v.members[k];
    match ChildOf(spec, schema.props[k])
    case NoChild =>
      LeafIsClean(spec, rank, bound, schema, v, k, prefix);
    case Child(n, arr) =>
      if x == Null {
        NullIsReported(spec, rank, bound, schema, v, k, prefix);
      } else {
        var y := if arr then x.items[0] else x;
        FieldOfChild(spec, rank, bound, schema, v, k, prefix, y);
        ChildSchemaAt(spec, rank, bound, schema, k);
        UnshownIsReported(spec, rank, ChildBound(spec, rank, schema.props[k], bound), n, y, prefix + [Seg(k, arr)]);
      }
  }

  /** An item with the declared fields is reported clean if and only if every leaf that is read leaves a
      key behind, and no array of objects that is read is null, nor an object that does not say that it is
      one. */
  lemma CleanExactly(spec: Spec, rank: Rank, bound: nat, schema: Node, v: Json, prefix: Path)
    requires SchemaAt(spec, rank, bound, schema) && FitsObject(spec, schema, v)
    ensures Reports(spec, rank, bound, schema, v, prefix, {}, {}) <==> ShowsObject(spec, schema, v)
  {
    if ShowsObject(spec, schema, v) {
      ConformsSplits(spec, schema, v);
      ConformingIsClean(spec, rank, bound, schema, v, prefix);
    } else {
      UnshownIsReported(spec, rank, bound, schema, v, prefix);
    }
  }

  /** The objects of an item that the detector reads are addressed by the fields leading to them. */
  type Location = seq<string>

  function Into(x: Json): (y: Json) {
    if x.Arr? && x.items != [] then x.items[0] else x
  }

  function Put(x: Json, y: Json): (r: Json) {
    if x.Arr? && x.items != [] then Arr([y] + x.items[1..]) else y
  }

  function ObjectAt(v: Json, at: Location): (r: Json)
    decreases |at|
  {
    if at == [] then v
    else if v.Obj? && at[0] in v.members then ObjectAt(Into(v.members[at[0]]), at[1..])
    else Null
  }

  function DropAt(v: Json, at: Location, k: string): (r: Json)
    decreases |at|
  {
    if !v.Obj? then v
    else if at == [] then Obj(v.members - {k})
    else if at[0] !in v.members then v
    else Obj(v.members[at[0] := Put(v.members[at[0]], DropAt(Into(v.members[at[0]]), at[1..], k))])
  }

  function AddAt(v: Json, at: Location, k: string, x: Json): (r: Json)
    decreases |at|
  {
    if !v.Obj? then v
    else if at == [] then Obj(v.members[k := x])
    else if at[0] !in v.members then v
    else Obj(v.members[at[0] := Put(v.members[at[0]], AddAt(Into(v.members[at[0]]), at[1..], k, x))])
  }

  /** `at` leads, field by field, to a declared object that conforms with all its fields. */
  ghost predicate Leads(spec: Spec, schema: Node, v: Json, at: Location)
    decreases |at|
  {
    ConformsObject(spec, schema, v) &&
    (at != [] ==>
       at[0] in v.members && ChildOf(spec, schema.props[at[0]]).Child? &&
       var Child(n, arr) := ChildOf(spec, schema.props[at[0]]);
       var x := v.members[at[0]];
       (arr ==> x.Arr? && x.items != []) && Leads(spec, n, if arr then x.items[0] else x, at[1..]))
  }

  /** The keys the schema declares for field `k` of the object at `at`. */
  ghost function KeysAt(spec: Spec, rank: Rank, bound: nat, schema: Node, at: Location, k: string,
                        prefix: Path): (r: set<Path>)
    requires Acyclic(spec, rank) && RefsBelow(spec, rank, schema, bound)
    decreases |at|
  {
    if at == [] then DeclaredAt(spec, rank, bound, schema, k, prefix)
    else if at[0] in schema.props && ChildOf(spec, schema.props[at[0]]).Child? then
      var Child(n, arr) := ChildOf(spec, schema.props[at[0]]);
      ChildIsSmaller(spec, rank, schema, at[0], bound);
      KeysAt(spec, rank, ChildBound(spec, rank, schema.props[at[0]], bound), n, at[1..], k, prefix + [Seg(at[0], arr)])
    else {}
  }

  /** The dotted path of the object at `at`. */
  function PathAt(spec: Spec, schema: Node, at: Location, prefix: Path): (r: Path)
    decreases |at|
  {
    if at == [] then prefix
    else if at[0] in schema.props && ChildOf(spec, schema.props[at[0]]).Child? then
      var Child(n, arr) := ChildOf(spec, schema.props[at[0]]);
      PathAt(spec, n, at[1..], prefix + [Seg(at[0], arr)])
    else prefix
  }

  /** What a field contributes depends on its own value alone. */
  lemma SameMember(spec: Spec, rank: Rank, bound: nat, schema: Node, v: Json, w: Json, k: string, prefix: Path)
    requires Acyclic(spec, rank) && RefsBelow(spec, rank, schema, bound)
    requires v.Obj? && w.Obj? && k in v.members && k in w.members && v.members[k] == w.members[k]
    ensures CarriedAt(spec, rank, bound, v, k, schema, prefix) == CarriedAt(spec, rank, bound, w, k, schema, prefix)
  {
  }

  lemma OthersAreClean(spec: Spec, rank: Rank, bound: nat, schema: Node, v: Json, w: Json, f: string, prefix: Path)
    requires SchemaAt(spec, rank, bound, schema) && ConformsObject(spec, schema, v)
    requires w.Obj? && w.members - {f} == v.members - {f}
    ensures forall k :: k != f ==> FieldReports(spec, rank, bound, schema, w, k, prefix, {}, {})
  {
    forall k | k != f ensures FieldReports(spec, rank, bound, schema, w, k, prefix, {}, {}) {
      assert k in w.members <==> k in (w.members - {f});
      assert k in v.members <==> k in (v.members - {f});
      if k in v.members {
        assert (w.members - {f})[k] == w.members[k] && (v.members - {f})[k] == v.members[k];
        ConformingFieldIsClean(spec, rank, bound, schema, v, k, prefix);
        SameMember(spec, rank, bound, schema, v, w, k, prefix);
      }
    }
  }

  /** One step of a location: the report of the changed object below is the report here. */
  lemma ReportBelow(spec: Spec, rank: Rank, bound: nat, schema: Node, v: Json, f: string, y: Json, prefix: Path,
                    missing: set<Path>, extra: set<Path>)
    requires SchemaAt(spec, rank, bound, schema) && ConformsObject(spec, schema, v)
    requires f in v.members && ChildOf(spec, schema.props[f]).Child?
    requires var Child(n, arr) := ChildOf(spec, schema.props[f]);
             (if arr then v.members[f].Arr? && v.members[f].items != [] else v.members[f].Obj? && y != Obj(map[])) &&
             y.Obj? &&
             RefsBelow(spec, rank, n, ChildBound(spec, rank, schema.props[f], bound)) &&
             Reports(spec, rank, ChildBound(spec, rank, schema.props[f], bound), n, y, prefix + [Seg(f, arr)],
                     missing, extra)
    ensures Reports(spec, rank, bound, schema, Obj(v.members[f := Put(v.members[f], y)]), prefix, missing, extra)
  {
    var w := Obj(v.members[f := Put(v.members[f], y)]);
    FieldOfChild(spec, rank, bound, schema, w, f, prefix, y);
    OthersAreClean(spec, rank, bound, schema, v, w, f, prefix);
    ReportOfOneField(spec, rank, bound, schema, w, f, prefix, missing, extra);
  }

  /** Without `k`, the object at `at` is an empty dictionary that is a field's own value: the detector
      then reads it as standing for everything the schema declares. An item of a list is not masked. */
  predicate Masked(spec: Spec, schema: Node, v: Json, at: Location, k: string)
    decreases |at|
  {
    at != [] && v.Obj? && at[0] in v.members && at[0] in schema.props && ChildOf(spec, schema.props[at[0]]).Child? &&
    var Child(n, arr) := ChildOf(spec, schema.props[at[0]]);
    var y := Into(v.members[at[0]]);
    if |at| == 1 then !arr && y.Obj? && y.members - {k} == map[] else Masked(spec, n, y, at[1..], k)
  }

  /** Dropping a declared field reports exactly that field's keys, unless it empties a nested object,
      and then it reports nothing. */
  lemma {:induction false} DroppedFieldIsReported(spec: Spec, rank: Rank, bound: nat, schema: Node, v: Json,
                                                  at: Location, k: string, prefix: Path)
    requires SchemaAt(spec, rank, bound, schema) && Leads(spec, schema, v, at)
    requires ObjectAt(v, at).Obj? && k in ObjectAt(v, at).members
    ensures Reports(spec, rank, bound, schema, DropAt(v, at, k), prefix,
                    if Masked(spec, schema, v, at, k) then {} else KeysAt(spec, rank, bound, schema, at, k, prefix), {})
    decreases |at|
  {
    if at == [] {
      var w := DropAt(v, at, k);
      OthersAreClean(spec, rank, bound, schema, v, w, k, prefix);
      var declared := DeclaredAt(spec, rank, bound, schema, k, prefix);
      assert CarriedAt(spec, rank, bound, w, k, schema, prefix) == {};
      assert Missing(declared, {}) == declared;
      ReportOfOneField(spec, rank, bound, schema, w, k, prefix, declared, {});
    } else if |at| == 1 && Masked(spec, schema, v, at, k) {
      assert at == [at[0]];
      MaskedFieldIsClean(spec, rank, bound, schema, v, at[0], k, prefix);
    } else {
      var f := at[0];
      var Child(n, arr) := ChildOf(spec, schema.props[f]);
      var y := Into(v.members[f]);
      ChildSchemaAt(spec, rank, bound, schema, f);
      DroppedFieldIsReported(spec, rank, ChildBound(spec, rank, schema.props[f], bound), n, y, at[1..], k,
                             prefix + [Seg(f, arr)]);
      var changed := DropAt(y, at[1..], k);
      assert at[1..] != [] ==> at[1] in changed.members;
      ReportBelow(spec, rank, bound, schema, v, f, changed, prefix,
                  if Masked(spec, schema, v, at, k) then {} else KeysAt(spec, rank, bound, schema, at, k, prefix), {});
    }
  }

  lemma MaskedFieldIsClean(spec: Spec, rank: Rank, bound: nat, schema: Node, v: Json, f: string, k: string,
                           prefix: Path)
    requires SchemaAt(spec, rank, bound, schema) && ConformsObject(spec, schema, v) && f in v.members
    requires ChildOf(spec, schema.props[f]).Child? && !ChildOf(spec, schema.props[f]).arr
    requires v.members[f].Obj? && v.members[f].members - {k} == map[]
    ensures Reports(spec, rank, bound, schema, DropAt(v, [f], k), prefix, {}, {})
  {
    var w := DropAt(v, [f], k);
    assert [f][1..] == [];
    assert DropAt(v.members[f], [], k) == Obj(map[]);
    assert w == Obj(v.members[f := Obj(map[])]);
    AbsentField(spec, rank, bound, schema, w, f, prefix);
    OthersAreClean(spec, rank, bound, schema, v, w, f, prefix);
    ReportOfOneField(spec, rank, bound, schema, w, f, prefix, {}, {});
  }

  /** Adding an undeclared scalar to a declared object reports exactly that key. */
  lemma {:induction false} AddedScalarIsReported(spec: Spec, rank: Rank, bound: nat, schema: Node, v: Json,
                                                 at: Location, k: string, x: Json, prefix: Path)
    requires SchemaAt(spec, rank, bound, schema) && Leads(spec, schema, v, at)
    requires ObjectAt(v, at).Obj? && k !in ObjectAt(v, at).members && x.IsLeaf()
    ensures Reports(spec, rank, bound, schema, AddAt(v, at, k, x), prefix, {},
                    {PathAt(spec, schema, at, prefix) + [Seg(k, false)]})
    decreases |at|
  {
    if at == [] {
      var w := AddAt(v, at, k, x);
      var full := prefix + [Seg(k, false)];
      OthersAreClean(spec, rank, bound, schema, v, w, k, prefix);
      assert DeclaredAt(spec, rank, bound, schema, k, prefix) == {};
      assert CarriedAt(spec, rank, bound, w, k, schema, prefix) == {full};
      assert Extra({}, {full}) == {full};
      ReportOfOneField(spec, rank, bound, schema, w, k, prefix, {}, {full});
    } else {
      var f := at[0];
      var Child(n, arr) := ChildOf(spec, schema.props[f]);
      var y := Into(v.members[f]);
      ChildSchemaAt(spec, rank, bound, schema, f);
      AddedScalarIsReported(spec, rank, ChildBound(spec, rank, schema.props[f], bound), n, y, at[1..], k, x,
                            prefix + [Seg(f, arr)]);
      var changed := AddAt(y, at[1..], k, x);
      assert (if at[1..] == [] then k else at[1]) in changed.members;
      ReportBelow(spec, rank, bound, schema, v, f, changed, prefix, {},
                  {PathAt(spec, schema, at, prefix) + [Seg(k, false)]});
    }
  }
}
