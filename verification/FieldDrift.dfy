/** The field-drift detector (`scripts/field_drift.py`): the keys a Swagger schema declares, the keys a
    live item carries, and the reconciliation of the two.

    A key such as `a.b[].c` is a sequence of segments, one per dot, each remembering whether `[]`
    follows its name; field names hold no dot and no bracket. */
module FieldDrift {
  import opened Options
  import opened Json

  datatype Seg = Seg(name: string, arr: bool)
  type Path = seq<Seg>

  /** The members of a schema dictionary that the detector reads; `props` is meaningful when
      `hasProps`, and `other` says that it holds anything else. */
  datatype Node = Node(ref: Option<string>, ty: Option<string>, hasProps: bool, props: map<string, Node>,
                       items: Option<Node>, other: bool)
  {
    predicate Truthy() {
      ref.Some? || ty.Some? || hasProps || items.Some? || other
    }

    predicate IsObject() {
      ty == Some("object") && hasProps
    }
  }

  const EMPTY := Node(None, None, false, map[], None, false)
  const NO_PROPS := Node(None, None, true, map[], None, false)

  type Spec = map<string, Node>

  const DEFINITIONS := "#/definitions/"

  function RefName(ref: string): (r: string) {
    if DEFINITIONS <= ref then ref[|DEFINITIONS|..] else ref
  }

  function ResolveRef(spec: Spec, ref: string): (r: Node) {
    if RefName(ref) in spec then spec[RefName(ref)] else EMPTY
  }

  // ---- acyclic specifications ---------------------------------------------------

  type Rank = string -> nat

  /** Every definition `node` refers to ranks below `bound`. */
  ghost predicate RefsBelow(spec: Spec, rank: Rank, node: Node, bound: nat)
    decreases node
  {
    (node.ref.Some? && RefName(node.ref.value) in spec ==> rank(RefName(node.ref.value)) < bound) &&
    (forall k :: k in node.props ==> RefsBelow(spec, rank, node.props[k], bound)) &&
    (node.items.Some? ==> RefsBelow(spec, rank, node.items.value, bound))
  }

  /** No definition reaches itself: each refers only to definitions of smaller rank. */
  ghost predicate Acyclic(spec: Spec, rank: Rank) {
    forall name :: name in spec ==> RefsBelow(spec, rank, spec[name], rank(name))
  }

  ghost function RefBound(spec: Spec, rank: Rank, ref: string): (r: nat) {
    if RefName(ref) in spec then rank(RefName(ref)) else 0
  }

  // ---- extract_keys_from_schema ---------------------------------------------------

  /** The schema below a field, if it declares members: through a reference, as an object, or as the
      items of an array. */
  datatype Child = NoChild | Child(node: Node, arr: bool)

  function ChildOf(spec: Spec, f: Node): (r: Child) {
    if f.ref.Some? then Child(ResolveRef(spec, f.ref.value), false)
    else if f.IsObject() then Child(f, false)
    else if f.ty == Some("array") && f.items.Some? then
      var items := f.items.value;
      if items.ref.Some? then Child(ResolveRef(spec, items.ref.value), true)
      else if items.IsObject() then Child(items, true)
      else NoChild
    else NoChild
  }

  ghost function ChildBound(spec: Spec, rank: Rank, f: Node, bound: nat): (r: nat) {
    if f.ref.Some? then RefBound(spec, rank, f.ref.value)
    else if !f.IsObject() && f.items.Some? && f.items.value.ref.Some? then RefBound(spec, rank, f.items.value.ref.value)
    else bound
  }

  /** The child ranks lower, or it is the field or its items. */
  lemma ChildIsSmaller(spec: Spec, rank: Rank, node: Node, k: string, bound: nat)
    requires Acyclic(spec, rank) && RefsBelow(spec, rank, node, bound) && k in node.props
    requires ChildOf(spec, node.props[k]).Child?
    ensures var f := node.props[k];
            var child := ChildOf(spec, f).node;
            var b := ChildBound(spec, rank, f, bound);
            RefsBelow(spec, rank, child, b) && (b < bound || child == EMPTY || (b == bound && child < node))
  {
    var f := node.props[k];
    assert RefsBelow(spec, rank, f, bound);
    if f.items.Some? {
      assert RefsBelow(spec, rank, f.items.value, bound);
    }
  }

  /** Every dotted key path the schema declares. */
  ghost function SchemaKeys(spec: Spec, rank: Rank, bound: nat, node: Node, prefix: Path): (r: set<Path>)
    requires Acyclic(spec, rank) && RefsBelow(spec, rank, node, bound)
    decreases bound, node, 2
  {
    if node.hasProps then FieldsKeys(spec, rank, bound, node, node.props.Keys, prefix) else {}
  }

  ghost function FieldsKeys(spec: Spec, rank: Rank, bound: nat, node: Node, names: set<string>,
                            prefix: Path): (r: set<Path>)
    requires Acyclic(spec, rank) && RefsBelow(spec, rank, node, bound) && names <= node.props.Keys
    decreases bound, node, 1
  {
    set k, p | k in names && p in FieldKeys(spec, rank, bound, node, k, prefix) :: p
  }

  ghost function FieldKeys(spec: Spec, rank: Rank, bound: nat, node: Node, k: string, prefix: Path): (r: set<Path>)
    requires Acyclic(spec, rank) && RefsBelow(spec, rank, node, bound) && k in node.props
    decreases bound, node, 0
  {
    match ChildOf(spec, node.props[k])
    case NoChild => {prefix + [Seg(k, false)]}
    case Child(child, arr) =>
      ChildIsSmaller(spec, rank, node, k, bound);
      if child == EMPTY then {}
      else SchemaKeys(spec, rank, ChildBound(spec, rank, node.props[k], bound), child, prefix + [Seg(k, arr)])
  }

  /** The recursion as the script runs it. */
  method ExtractSchemaKeys(spec: Spec, ghost rank: Rank, ghost bound: nat, node: Node, prefix: Path)
    returns (keys: set<Path>)
    requires Acyclic(spec, rank) && RefsBelow(spec, rank, node, bound)
    ensures keys == SchemaKeys(spec, rank, bound, node, prefix)
    decreases bound, node, 1
  {
    keys := {};
    if !node.hasProps {
      return;
    }
    var todo := node.props.Keys;
    while todo != {}
      invariant todo <= node.props.Keys
      invariant keys == FieldsKeys(spec, rank, bound, node, node.props.Keys - todo, prefix)
      decreases todo
    {
      var k :| k in todo;
      var found := ExtractFieldKeys(spec, rank, bound, node, k, prefix);
      keys := keys + found;
      assert node.props.Keys - (todo - {k}) == (node.props.Keys - todo) + {k};
      todo := todo - {k};
    }
    assert node.props.Keys - todo == node.props.Keys;
  }

  /** One turn of the loop. */
  method ExtractFieldKeys(spec: Spec, ghost rank: Rank, ghost bound: nat, node: Node, k: string, prefix: Path)
    returns (keys: set<Path>)
    requires Acyclic(spec, rank) && RefsBelow(spec, rank, node, bound) && k in node.props
    ensures keys == FieldKeys(spec, rank, bound, node, k, prefix)
    decreases bound, node, 0
  {
    match ChildOf(spec, node.props[k])
    case NoChild =>
      keys := {prefix + [Seg(k, false)]};
    case Child(child, arr) =>
      ChildIsSmaller(spec, rank, node, k, bound);
      if child == EMPTY {
        keys := {};
      } else {
        keys := ExtractSchemaKeys(spec, rank, ChildBound(spec, rank, node.props[k], bound), child,
                                  prefix + [Seg(k, arr)]);
      }
  }

  // ---- extract_keys_from_value ----------------------------------------------------

  /** `_get_schema_node`: a field's schema, its reference resolved once. */
  function GetSchemaNode(spec: Spec, schema: Node, k: string): (r: Option<Node>) {
    if !schema.hasProps || k !in schema.props then None
    else
      var f := schema.props[k];
      Some(if f.ref.Some? then ResolveRef(spec, f.ref.value) else f)
  }

  ghost function NodeBound(spec: Spec, rank: Rank, schema: Node, k: string, bound: nat): (r: nat) {
    if schema.hasProps && k in schema.props && schema.props[k].ref.Some?
    then RefBound(spec, rank, schema.props[k].ref.value) else bound
  }

  function ItemsNode(f: Node): (r: Node) {
    if f.items.Some? then f.items.value else EMPTY
  }

  ghost function ItemsBound(spec: Spec, rank: Rank, f: Node, bound: nat): (r: nat) {
    if ItemsNode(f).ref.Some? then RefBound(spec, rank, ItemsNode(f).ref.value) else bound
  }

  lemma NodeIsBounded(spec: Spec, rank: Rank, schema: Node, k: string, bound: nat)
    requires Acyclic(spec, rank) && RefsBelow(spec, rank, schema, bound)
    requires GetSchemaNode(spec, schema, k).Some?
    ensures RefsBelow(spec, rank, GetSchemaNode(spec, schema, k).value, NodeBound(spec, rank, schema, k, bound))
  {
    assert RefsBelow(spec, rank, schema.props[k], bound);
  }

  lemma RefIsBounded(spec: Spec, rank: Rank, ref: string)
    requires Acyclic(spec, rank)
    ensures RefsBelow(spec, rank, ResolveRef(spec, ref), RefBound(spec, rank, ref))
  {
  }

  lemma ItemsAreBounded(spec: Spec, rank: Rank, f: Node, bound: nat)
    requires RefsBelow(spec, rank, f, bound)
    ensures RefsBelow(spec, rank, ItemsNode(f), bound)
  {
  }

  /** The schema a populated dictionary is read against. */
  function ObjectSchema(field: Option<Node>): (r: Node) {
    if field.Some? && field.value.hasProps then field.value else NO_PROPS
  }

  /** The schema the first item of a populated list is read against. */
  function ItemSchema(spec: Spec, field: Option<Node>): (r: Node) {
    if field.Some? && field.value.Truthy() then
      var items := ItemsNode(field.value);
      if items.ref.Some? then ResolveRef(spec, items.ref.value) else if items.hasProps then items else EMPTY
    else EMPTY
  }

  lemma ItemSchemaIsBounded(spec: Spec, rank: Rank, field: Node, bound: nat)
    requires Acyclic(spec, rank) && RefsBelow(spec, rank, field, bound)
    ensures RefsBelow(spec, rank, ItemSchema(spec, Some(field)), ItemsBound(spec, rank, field, bound))
  {
    ItemsAreBounded(spec, rank, field, bound);
  }

  /** The dotted key paths of a live value. */
  ghost function ValueKeys(spec: Spec, rank: Rank, bound: nat, v: Json, schema: Node, prefix: Path): (r: set<Path>)
    requires Acyclic(spec, rank) && RefsBelow(spec, rank, schema, bound)
    decreases v, 2
  {
    if v.Obj? then MembersKeys(spec, rank, bound, v, v.members.Keys, schema, prefix) else {}
  }

  ghost function MembersKeys(spec: Spec, rank: Rank, bound: nat, v: Json, names: set<string>, schema: Node,
                             prefix: Path)
    : (r: set<Path>)
    requires Acyclic(spec, rank) && RefsBelow(spec, rank, schema, bound)
    requires v.Obj? && names <= v.members.Keys
    decreases v, 1
  {
    set k, p | k in names && p in MemberKeys(spec, rank, bound, v, k, schema, prefix) :: p
  }

  ghost function MemberKeys(spec: Spec, rank: Rank, bound: nat, v: Json, k: string, schema: Node,
                            prefix: Path): (r: set<Path>)
    requires Acyclic(spec, rank) && RefsBelow(spec, rank, schema, bound)
    requires v.Obj? && k in v.members
    decreases v, 0
  {
    var x := v.members[k];
    var full := prefix + [Seg(k, false)];
    var field := GetSchemaNode(spec, schema, k);
    var b := NodeBound(spec, rank, schema, k, bound);
    if field.Some? then
      NodeIsBounded(spec, rank, schema, k, bound);
      if x.Obj? && x.members != map[] then ValueKeys(spec, rank, b, x, ObjectSchema(field), full)
      else if x.Arr? && x.items != [] && x.items[0].Obj? then
        ItemSchemaIsBounded(spec, rank, field.value, b);
        ValueKeys(spec, rank, ItemsBound(spec, rank, field.value, b), x.items[0], ItemSchema(spec, field),
                  prefix + [Seg(k, true)])
      else AbsentKeys(spec, rank, b, x, field.value, k, prefix)
    else
      if x.Obj? && x.members != map[] then ValueKeys(spec, rank, bound, x, NO_PROPS, full)
      else if x.Arr? && x.items != [] && x.items[0].Obj? then
        ValueKeys(spec, rank, bound, x.items[0], EMPTY, prefix + [Seg(k, true)])
      else {full}
  }

  /** What a null, an empty list or an empty dictionary stands for: the keys the schema declares there. */
  ghost function AbsentKeys(spec: Spec, rank: Rank, bound: nat, x: Json, field: Node, k: string,
                            prefix: Path): (r: set<Path>)
    requires Acyclic(spec, rank) && RefsBelow(spec, rank, field, bound)
  {
    var full := prefix + [Seg(k, false)];
    if x.Null? && field.Truthy() then
      if field.IsObject() then SchemaKeys(spec, rank, bound, field, full)
      else if field.ref.Some? then KeysOfRef(spec, rank, field.ref.value, full, full)
      else {full}
    else if x == Arr([]) && field.Truthy() then
      var items := ItemsNode(field);
      ItemsAreBounded(spec, rank, field, bound);
      if items.ref.Some? then KeysOfRef(spec, rank, items.ref.value, prefix + [Seg(k, true)], full)
      else if items.IsObject() then SchemaKeys(spec, rank, bound, items, prefix + [Seg(k, true)])
      else {full}
    else if x == Obj(map[]) && field.Truthy() then
      if field.hasProps then SchemaKeys(spec, rank, bound, field, full) else {full}
    else {full}
  }

  ghost function KeysOfRef(spec: Spec, rank: Rank, ref: string, below: Path, full: Path): (r: set<Path>)
    requires Acyclic(spec, rank)
  {
    RefIsBounded(spec, rank, ref);
    var resolved := ResolveRef(spec, ref);
    if resolved.hasProps && resolved.props != map[] then
      SchemaKeys(spec, rank, RefBound(spec, rank, ref), resolved, below)
    else {full}
  }

  method ExtractValueKeys(spec: Spec, ghost rank: Rank, ghost bound: nat, v: Json, schema: Node, prefix: Path)
    returns (keys: set<Path>)
    requires Acyclic(spec, rank) && RefsBelow(spec, rank, schema, bound)
    ensures keys == ValueKeys(spec, rank, bound, v, schema, prefix)
    decreases v, 1
  {
    keys := {};
    if !v.Obj? {
      return;
    }
    var todo := v.members.Keys;
    while todo != {}
      invariant todo <= v.members.Keys
      invariant keys == MembersKeys(spec, rank, bound, v, v.members.Keys - todo, schema, prefix)
      decreases todo
    {
      var k :| k in todo;
      var below := ExtractMemberKeys(spec, rank, bound, v, k, schema, prefix);
      keys := keys + below;
      assert v.members.Keys - (todo - {k}) == (v.members.Keys - todo) + {k};
      todo := todo - {k};
    }
    assert v.members.Keys - todo == v.members.Keys;
  }

  /** One turn of the loop. */
  method ExtractMemberKeys(spec: Spec, ghost rank: Rank, ghost bound: nat, v: Json, k: string, schema: Node,
                           prefix: Path)
    returns (keys: set<Path>)
    requires Acyclic(spec, rank) && RefsBelow(spec, rank, schema, bound)
    requires v.Obj? && k in v.members
    ensures keys == MemberKeys(spec, rank, bound, v, k, schema, prefix)
    decreases v, 0
  {
    var x := v.members[k];
    var full := prefix + [Seg(k, false)];
    var field := GetSchemaNode(spec, schema, k);
    ghost var b := NodeBound(spec, rank, schema, k, bound);
    if field.Some? {
      NodeIsBounded(spec, rank, schema, k, bound);
    }
    if x.Obj? && x.members != map[] {
      keys := ExtractValueKeys(spec, rank, b, x, ObjectSchema(field), full);
    } else if x.Arr? && x.items != [] && x.items[0].Obj? {
      ghost var ib := bound;
      if field.Some? {
        ItemSchemaIsBounded(spec, rank, field.value, b);
        ib := ItemsBound(spec, rank, field.value, b);
      }
      keys := ExtractValueKeys(spec, rank, ib, x.items[0], ItemSchema(spec, field), prefix + [Seg(k, true)]);
    } else if field.Some? {
      keys := ExtractAbsentKeys(spec, rank, b, x, field.value, k, prefix);
    } else {
      keys := {full};
    }
  }

  method ExtractAbsentKeys(spec: Spec, ghost rank: Rank, ghost bound: nat, x: Json, field: Node, k: string,
                           prefix: Path)
    returns (keys: set<Path>)
    requires Acyclic(spec, rank) && RefsBelow(spec, rank, field, bound)
    ensures keys == AbsentKeys(spec, rank, bound, x, field, k, prefix)
  {
    var full := prefix + [Seg(k, false)];
    keys := {full};
    if x.Null? && field.Truthy() {
      if field.IsObject() {
        keys := ExtractSchemaKeys(spec, rank, bound, field, full);
      } else if field.ref.Some? {
        keys := ExtractKeysOfRef(spec, rank, field.ref.value, full, full);
      }
    } else if x == Arr([]) && field.Truthy() {
      var items := ItemsNode(field);
      ItemsAreBounded(spec, rank, field, bound);
      if items.ref.Some? {
        keys := ExtractKeysOfRef(spec, rank, items.ref.value, prefix + [Seg(k, true)], full);
      } else if items.IsObject() {
        keys := ExtractSchemaKeys(spec, rank, bound, items, prefix + [Seg(k, true)]);
      }
    } else if x == Obj(map[]) && field.Truthy() && field.hasProps {
      keys := ExtractSchemaKeys(spec, rank, bound, field, full);
    }
  }

  method ExtractKeysOfRef(spec: Spec, ghost rank: Rank, ref: string, below: Path, full: Path) returns (keys: set<Path>)
    requires Acyclic(spec, rank)
    ensures keys == KeysOfRef(spec, rank, ref, below, full)
  {
    RefIsBounded(spec, rank, ref);
    var resolved := ResolveRef(spec, ref);
    keys := {full};
    if resolved.hasProps && resolved.props != map[] {
      keys := ExtractSchemaKeys(spec, rank, RefBound(spec, rank, ref), resolved, below);
    }
  }

  // ---- _reconcile -----------------------------------------------------------------

  /** `mk.startswith(sk + ".") or mk.startswith(sk + "[")` */
  predicate Extends(mk: Path, sk: Path) {
    0 < |sk| <= |mk| &&
    var n := |sk| - 1;
    if mk[n] == sk[n] then |sk| < |mk| && mk[..n] == sk[..n]
    else mk[..n] == sk[..n] && mk[n] == Seg(sk[n].name, true)
  }

  /** `ancestor.rstrip("[]")` */
  function Cleaned(p: Path): (r: Path)
    requires p != []
  {
    p[..|p| - 1] + [Seg(p[|p| - 1].name, false)]
  }

  predicate Covered(sk: Path, mockKeys: set<Path>) {
    sk in mockKeys || exists mk :: mk in mockKeys && Extends(mk, sk)
  }

  predicate HasAncestorIn(mk: Path, specKeys: set<Path>, n: nat)
    requires n <= |mk|
  {
    exists i :: 1 <= i < n && (mk[..i] in specKeys || Cleaned(mk[..i]) in specKeys)
  }

  predicate Tolerated(mk: Path, specKeys: set<Path>) {
    mk in specKeys || HasAncestorIn(mk, specKeys, |mk|)
  }

  function Missing(specKeys: set<Path>, mockKeys: set<Path>): (r: set<Path>) {
    set sk | sk in specKeys && !Covered(sk, mockKeys)
  }

  function Extra(specKeys: set<Path>, mockKeys: set<Path>): (r: set<Path>) {
    set mk | mk in mockKeys && !Tolerated(mk, specKeys)
  }

  method Reconcile(specKeys: set<Path>, mockKeys: set<Path>) returns (missing: set<Path>, extra: set<Path>)
    ensures missing == Missing(specKeys, mockKeys) && extra == Extra(specKeys, mockKeys)
  {
    missing, extra := {}, {};
    var todo := specKeys - mockKeys;
    while todo != {}
      invariant todo <= specKeys - mockKeys
      invariant missing == Missing(specKeys - todo, mockKeys)
      decreases todo
    {
      var sk :| sk in todo;
      if !(exists mk :: mk in mockKeys && Extends(mk, sk)) {
        missing := missing + {sk};
      }
      todo := todo - {sk};
    }
    assert specKeys - todo == specKeys;
    todo := mockKeys - specKeys;
    while todo != {}
      invariant todo <= mockKeys - specKeys
      invariant extra == Extra(specKeys, mockKeys - todo)
      decreases todo
    {
      var mk :| mk in todo;
      var covered := AncestorDeclared(mk, specKeys);
      if !covered {
        extra := extra + {mk};
      }
      todo := todo - {mk};
    }
    assert mockKeys - todo == mockKeys;
  }

  method AncestorDeclared(mk: Path, specKeys: set<Path>) returns (covered: bool)
    ensures covered == HasAncestorIn(mk, specKeys, |mk|)
  {
    covered := false;
    var i := 1;
    while i < |mk|
      invariant 1 <= i
      invariant i <= |mk| || |mk| == 0
      invariant i <= |mk| ==> !HasAncestorIn(mk, specKeys, i)
    {
      if Cleaned(mk[..i]) in specKeys || mk[..i] in specKeys {
        return true;
      }
      i := i + 1;
    }
  }
}
