/** The verdict of `main` in `scripts/schema_drift.py`, and when it is clean: an answer that conforms
    to the specification never drifts. */
module SchemaVerdict {
  import opened Json
  import opened Text
  import opened Observation
  import opened SchemaRefs
  import opened SchemaDrift

  // ---- the verdict --------------------------------------------------------------

  /** `p.split(".")[-1]` : what stands after the last dot. */
  function LastSegment(p: string): (r: string) {
    p[AfterLast(p, '.')..]
  }

  predicate Contains(s: string, part: string) {
    exists i :: 0 <= i <= |s| && part <= s[i..]
  }

  predicate EndsWith(s: string, tail: string) {
    |tail| <= |s| && s[|s| - |tail|..] == tail
  }

  /** Pagination state is not shape, on either side. */
  function WithoutNextLink(paths: set<string>): (r: set<string>) {
    set p | p in paths && LastSegment(p) != "nextLink"
  }

  predicate Under(p: string, prefixes: set<string>) {
    exists o {:trigger Below(p, o)} :: o in prefixes && Below(p, o)
  }

  function Missing(declared: set<string>, seen: set<string>, unobservable: set<string>): (r: set<string>) {
    set p | p in WithoutNextLink(declared) && p !in WithoutNextLink(seen) && !EndsWith(p, "[*]") &&
            !Under(p, unobservable)
  }

  function Extra(declared: set<string>, seen: set<string>, freeForm: set<string>): (r: set<string>) {
    set p | p in WithoutNextLink(seen) && p !in WithoutNextLink(declared) &&
            !Contains(LastSegment(p), "[*]") && !Under(p, freeForm)
  }

  datatype Verdict = Verdict(missing: set<string>, extra: set<string>)

  /** What is reported of one answer. */
  function Judge(files: Files, doc: Json, schema: Json, body: Json): (r: Verdict) {
    var declared := Flatten(files, doc, schema, "", 0);
    var seen := Observed(body, "", 0, SAMPLE);
    Verdict(Missing(declared, seen, ObservedOpaque(body, "", 0, SAMPLE)),
            Extra(declared, seen, DeclaredOpaque(files, doc, schema, "", 0)))
  }

  /** An answer is judged alike against a schema in its own file and against the schema moved to
      another document. */
  lemma RelocationKeepsVerdict(files: Files, host: Json, file: string, schema: Json, body: Json)
    requires IsFileName(file)
    requires PathsSettled(files, files(file), schema, 0) && FreeFormSettled(files, files(file), schema, 0)
    ensures Judge(files, host, Qualify(schema, file), body) == Judge(files, files(file), schema, body)
  {
    RelocationKeepsPaths(files, host, file, schema, "", 0);
    RelocationKeepsOpaque(files, host, file, schema, "", 0);
  }

  /** What is reported missing is what is declared, reported and not accounted for. */
  lemma MissingMeans(files: Files, doc: Json, schema: Json, body: Json, p: string)
    ensures p in Judge(files, doc, schema, body).missing <==>
            p in Flatten(files, doc, schema, "", 0) && IsReported(p) && !Accounted(body, "", 0, p)
  {
  }

  /** A name of `n` letters. */
  function Letters(n: nat): (r: string)
    ensures |r| == n && forall i :: 0 <= i < n ==> r[i] == 'x'
  {
    seq(n, _ => 'x')
  }

  lemma LettersAreReported(n: nat)
    requires n > 0
    ensures IsReported(Letters(n))
  {
    var name := Letters(n);
    AfterLastNone(name, '.');
    assert name[0] == 'x';
    assert n >= 3 ==> name[n - 3..][0] == 'x';
  }

  /** Without the first half of the condition some answer is judged differently: the empty object misses a
      path of the document the schema is moved to. */
  lemma RelocationNeedsPaths(files: Files, file: string, schema: Json)
    requires IsFileName(file) && !PathsSettled(files, files(file), schema, 0)
    ensures exists host: Json, body: Json ::
              Judge(files, host, Qualify(schema, file), body) != Judge(files, files(file), schema, body)
  {
    var own := Flatten(files, files(file), schema, "", 0);
    var longer := LongerName(own);
    var name := Letters(|longer| + 1);
    var q := PathsLand(files, name, file, schema, "", 0);
    LettersAreReported(|longer| + 1);
    ReportedByName(q, name);
    var body := Obj(map[]);
    NothingAccounts(q + name);
    MissingMeans(files, Landing(name), Qualify(schema, file), body, q + name);
    MissingMeans(files, files(file), schema, body, q + name);
    assert Judge(files, Landing(name), Qualify(schema, file), body) != Judge(files, files(file), schema, body);
  }

  lemma NothingAccounts(p: string)
    ensures !Accounted(Obj(map[]), "", 0, p)
  {
    assert Observed(Obj(map[]), "", 0, SAMPLE) == {} == ObservedOpaque(Obj(map[]), "", 0, SAMPLE);
  }

  // ---- shapes and conformance -----------------------------------------------------

  /** What a schema means once its references are resolved and its `allOf` parts merged. A list is
      not directly inside a list, unless there are only scalars in it. */
  datatype Shape =
    | Scalar
    | Free
    | Record(fields: map<string, Shape>)
    | ScalarList
    | FreeList
    | RecordList(fields: map<string, Shape>)
  {
    predicate HasFields() {
      Record? || RecordList?
    }
  }

  /** A leaf, or a list of such values. */
  ghost predicate OnlyLeaves(v: Json)
    decreases v
  {
    !v.Obj? && (v.Arr? ==> forall i :: 0 <= i < |v.items| ==> OnlyLeaves(v.items[i]))
  }

  /** A value of the shape. Objects, lists and the items of a list may be null. */
  ghost predicate Conforms(shape: Shape, v: Json)
    decreases shape, 1
  {
    match shape
    case Scalar => v.IsLeaf()
    case Free => true
    case Record(_) => v == Null || ConformsFields(shape, v)
    case ScalarList => v == Null || (v.Arr? && OnlyLeaves(v))
    case FreeList => v == Null || v.Arr?
    case RecordList(_) =>
      v == Null ||
      (v.Arr? && forall i :: 0 <= i < |v.items| ==> v.items[i] == Null || ConformsFields(shape, v.items[i]))
  }

  ghost predicate ConformsFields(shape: Shape, v: Json)
    requires shape.HasFields()
    decreases shape, 0
  {
    v.Obj? && v.members.Keys == shape.fields.Keys &&
    forall k :: k in shape.fields ==> Conforms(shape.fields[k], v.members[k])
  }

  predicate Resolved(node: Json) {
    node.Obj? ==> "$ref" !in node.members
  }

  predicate HasMembers(m: map<string, Json>) {
    "properties" in m || "allOf" in m
  }

  predicate IsList(node: Json) {
    node.Obj? && TypeIs(node.members, "array")
  }

  function ListItems(files: Files, doc: Json, node: Json): (r: Json)
    requires node.Obj?
  {
    Target(files, doc, ItemsOf(node.members))
  }

  /** `node`, a resolved member of an object at walk depth `depth`, describes `shape`. */
  ghost predicate Describes(files: Files, doc: Json, node: Json, depth: nat, shape: Shape)
    decreases shape, 1
  {
    Resolved(node) &&
    match shape
    case Scalar => !IsList(node) && (node.Obj? ==> !HasMembers(node.members))
    case Free => !IsList(node) && node.Obj? && !HasMembers(node.members) && FreeForm(node.members)
    case Record(_) =>
      !IsList(node) && node.Obj? && HasMembers(node.members) && DescribesFields(files, doc, node, depth + 1, shape)
    case ScalarList =>
      IsList(node) && Resolved(ListItems(files, doc, node)) &&
      Props(files, doc, ListItems(files, doc, node), depth + 1) == map[]
    case FreeList =>
      IsList(node) && Resolved(ListItems(files, doc, node)) && BareItems(ListItems(files, doc, node))
    case RecordList(_) =>
      IsList(node) && Resolved(ListItems(files, doc, node)) &&
      DescribesFields(files, doc, ListItems(files, doc, node), depth + 1, shape)
  }

  ghost predicate DescribesFields(files: Files, doc: Json, schema: Json, depth: nat, shape: Shape)
    requires shape.HasFields()
    decreases shape, 0
  {
    var props := Props(files, doc, schema, depth);
    props.Keys == shape.fields.Keys &&
    forall k :: k in shape.fields ==> Describes(files, doc, Target(files, doc, props[k]), depth, shape.fields[k])
  }

  /** Both walks reach every object: the schema walk stops past depth 6 and counts a list with its
      item as one level, the value walk stops past depth 8 and counts them as two. */
  predicate Fits(shape: Shape, depth: nat, level: nat)
    decreases shape, 1
  {
    match shape
    case Scalar => true
    case ScalarList => true
    case Free => depth <= FLATTEN_DEPTH
    case FreeList => depth <= FLATTEN_DEPTH
    case Record(_) => depth <= FLATTEN_DEPTH && level + 1 <= OBSERVE_DEPTH && FitsFields(shape, depth + 1, level + 1)
    case RecordList(_) =>
      depth <= FLATTEN_DEPTH && level + 2 <= OBSERVE_DEPTH && FitsFields(shape, depth + 1, level + 2)
  }

  predicate FitsFields(shape: Shape, depth: nat, level: nat)
    requires shape.HasFields()
    decreases shape, 0
  {
    forall k :: k in shape.fields ==> Fits(shape.fields[k], depth, level)
  }

  // ---- what a sample shows ----------------------------------------------------------

  /** A path that is reported when it is missing. */
  predicate IsReported(p: string) {
    LastSegment(p) != "nextLink" && !EndsWith(p, "[*]")
  }

  /** Some path below the shape is reported when it is missing. */
  predicate HasReported(shape: Shape)
    requires shape.HasFields()
  {
    exists k :: k in shape.fields &&
                (IsReported(k) || (shape.fields[k].HasFields() && HasReported(shape.fields[k])))
  }

  /** What the objects that share one position hold under `k`. */
  function Values(vs: set<Json>, k: string): (r: set<Json>) {
    set v | v in vs && v.Obj? && k in v.members :: v.members[k]
  }

  /** The objects among the sampled items of lists that share one position. */
  function Samples(ws: set<Json>): (r: set<Json>) {
    set w, i | w in ws && w.Arr? && 0 <= i < |w.items| && i < SAMPLE && w.items[i] != Null :: w.items[i]
  }

  /** Of the objects `vs`, all that are sampled at one position: every list of objects below that has
      something to report is null or empty in one of them, or shows an object among its samples. */
  predicate Shows(shape: Shape, vs: set<Json>)
    requires shape.HasFields()
    decreases shape, 0
  {
    forall k :: k in shape.fields ==> ShowsBelow(shape.fields[k], Values(vs, k))
  }

  predicate ShowsBelow(shape: Shape, ws: set<Json>)
    decreases shape, 1
  {
    match shape
    case Record(_) => Null in ws || Shows(shape, ws)
    case RecordList(_) =>
      Null in ws || Arr([]) in ws ||
      (if Samples(ws) == {} then !HasReported(shape) else Shows(shape, Samples(ws)))
    case _ => true
  }

  // ---- no false drift -----------------------------------------------------------

  lemma {:induction false} FlattenKeepsPrefix(files: Files, doc: Json, schema: Json, prefix: string, depth: nat,
                                              p: string)
    requires p in Flatten(files, doc, schema, prefix, depth)
    ensures prefix <= p
    decreases FLATTEN_DEPTH + 1 - depth, 1
  {
    var props := Props(files, doc, schema, depth);
    var k :| k in props && p in FlattenMember(files, doc, k, props[k], prefix, depth);
    if p != prefix + k {
      TargetKeepsPath(files, doc, Target(files, doc, props[k]), prefix + k, depth, p);
    }
  }

  lemma {:induction false} TargetKeepsPath(files: Files, doc: Json, sub: Json, path: string, depth: nat, p: string)
    requires p in FlattenTarget(files, doc, sub, path, depth)
    ensures path <= p
    decreases FLATTEN_DEPTH + 1 - depth, 0
  {
    if TypeIs(sub.members, "array") {
      FlattenKeepsPrefix(files, doc, ItemsOf(sub.members), path + "[*].", depth + 1, p);
    } else {
      FlattenKeepsPrefix(files, doc, sub, path + ".", depth + 1, p);
    }
  }

  lemma UnderSome(p: string, o: string, prefixes: set<string>)
    requires o in prefixes && Below(p, o)
    ensures Under(p, prefixes)
  {
  }

  lemma UnderMore(p: string, fewer: set<string>, more: set<string>)
    requires Under(p, fewer) && fewer <= more
    ensures Under(p, more)
  {
    var o :| o in fewer && Below(p, o);
    assert o in more;
  }

  lemma PropsOfItems(files: Files, doc: Json, node: Json, depth: nat)
    requires Resolved(Target(files, doc, node))
    ensures Props(files, doc, node, depth) == Props(files, doc, Target(files, doc, node), depth)
  {
    var items := Target(files, doc, node);
    assert !IsRef(items);
    assert Target(files, doc, items) == items;
  }

  /** What a member's value contributes to the two value walks. */
  lemma MemberContributes(v: Json, k: string, prefix: string, level: nat)
    requires v.Obj? && k in v.members && level <= OBSERVE_DEPTH
    ensures ObservedMember(v, k, prefix, level, SAMPLE) <= Observed(v, prefix, level, SAMPLE)
    ensures OpaqueMember(v, k, prefix, level, SAMPLE) <= ObservedOpaque(v, prefix, level, SAMPLE)
  {
  }

  lemma ItemContributes(v: Json, i: nat, prefix: string, level: nat)
    requires v.Arr? && i < |v.items| && i < SAMPLE && level <= OBSERVE_DEPTH
    ensures ObservedItem(v, i, prefix, level, SAMPLE) <= Observed(v, prefix, level, SAMPLE)
    ensures OpaqueItem(v, i, prefix, level, SAMPLE) <= ObservedOpaque(v, prefix, level, SAMPLE)
  {
    assert ObservedItem(v, i, prefix, level, SAMPLE) <= ObservedItems(v, |v.items|, prefix, level, SAMPLE);
    assert OpaqueItem(v, i, prefix, level, SAMPLE) <= OpaqueItems(v, |v.items|, prefix, level, SAMPLE);
  }

  lemma BelowDot(p: string, path: string)
    requires path + "." <= p
    ensures Below(p, path)
  {
  }

  lemma BelowList(p: string, path: string)
    requires path + "[*]." <= p
    ensures Below(p, path) && Below(p, path + "[*]")
  {
    assert path + "[*]." == path + "[*]" + ".";
    assert path + "[" <= path + "[*].";
  }

  /** `p` is observed in `v`, or lies below a null or an empty list of it. */
  ghost predicate Accounted(v: Json, prefix: string, level: nat, p: string) {
    p in Observed(v, prefix, level, SAMPLE) || Under(p, ObservedOpaque(v, prefix, level, SAMPLE))
  }

  lemma AccountedInMember(v: Json, k: string, prefix: string, level: nat, p: string)
    requires v.Obj? && k in v.members && level <= OBSERVE_DEPTH
    requires Accounted(v.members[k], prefix + k + ".", level + 1, p) || (v.members[k] == Null && Below(p, prefix + k))
    ensures Accounted(v, prefix, level, p)
  {
    MemberContributes(v, k, prefix, level);
    var here := ObservedOpaque(v, prefix, level, SAMPLE);
    var below := ObservedOpaque(v.members[k], prefix + k + ".", level + 1, SAMPLE);
    if v.members[k] == Null && Below(p, prefix + k) {
      UnderSome(p, prefix + k, here);
    } else if Under(p, below) {
      UnderMore(p, below, here);
    }
  }

  lemma AccountedInItem(v: Json, i: nat, prefix: string, level: nat, p: string)
    requires v.Arr? && i < |v.items| && i < SAMPLE && level <= OBSERVE_DEPTH
    requires Accounted(v.items[i], ListPrefix(prefix), level + 1, p)
    ensures Accounted(v, prefix, level, p)
  {
    ItemContributes(v, i, prefix, level);
    var below := OpaqueItem(v, i, prefix, level, SAMPLE);
    if Under(p, below) {
      UnderMore(p, below, ObservedOpaque(v, prefix, level, SAMPLE));
    }
  }

  lemma NoPropsNoPaths(files: Files, doc: Json, schema: Json, prefix: string, depth: nat)
    requires Props(files, doc, schema, depth) == map[]
    ensures Flatten(files, doc, schema, prefix, depth) == {}
  {
  }

  lemma BareItemsDeclareNothing(files: Files, doc: Json, items: Json, depth: nat)
    requires BareItems(items) && Resolved(items)
    ensures Props(files, doc, items, depth) == map[]
  {
    assert Target(files, doc, items) == items;
  }

  /** Only the lists of objects declare paths below themselves. */
  lemma FlattenedList(files: Files, doc: Json, sub: Json, shape: Shape, path: string, depth: nat, p: string)
    requires Describes(files, doc, sub, depth, shape) && IsList(sub)
    requires p in FlattenTarget(files, doc, sub, path, depth)
    ensures shape.RecordList?
    ensures p in Flatten(files, doc, ListItems(files, doc, sub), path + "[*].", depth + 1)
  {
    var node := ItemsOf(sub.members);
    PropsOfItems(files, doc, node, depth + 1);
    if !shape.RecordList? {
      if shape.FreeList? {
        BareItemsDeclareNothing(files, doc, ListItems(files, doc, sub), depth + 1);
      }
      NoPropsNoPaths(files, doc, node, path + "[*].", depth + 1);
    }
  }

  lemma FlattenedRecord(files: Files, doc: Json, sub: Json, shape: Shape, path: string, depth: nat, p: string)
    requires Describes(files, doc, sub, depth, shape) && !IsList(sub)
    requires p in FlattenTarget(files, doc, sub, path, depth)
    ensures shape.Record?
    ensures p in Flatten(files, doc, sub, path + ".", depth + 1)
  {
  }

  lemma FlattenedRecordPath(files: Files, doc: Json, sub: Json, path: string, depth: nat, p: string)
    requires p in Flatten(files, doc, sub, path + ".", depth)
    ensures Below(p, path)
  {
    FlattenKeepsPrefix(files, doc, sub, path + ".", depth, p);
    BelowDot(p, path);
  }

  lemma FlattenedListPath(files: Files, doc: Json, items: Json, path: string, depth: nat, p: string)
    requires p in Flatten(files, doc, items, path + "[*].", depth)
    ensures Below(p, path) && Below(p, EmptyListMark(path + "."))
    ensures p in Flatten(files, doc, items, ListPrefix(path + "."), depth)
  {
    FlattenKeepsPrefix(files, doc, items, path + "[*].", depth, p);
    BelowList(p, path);
    ListPrefixOf(path);
  }

  lemma TargetStaysBelow(files: Files, doc: Json, sub: Json, path: string, depth: nat, p: string)
    requires p in FlattenTarget(files, doc, sub, path, depth)
    ensures Below(p, path)
  {
    if TypeIs(sub.members, "array") {
      FlattenedListPath(files, doc, ItemsOf(sub.members), path, depth + 1, p);
    } else {
      FlattenedRecordPath(files, doc, sub, path, depth + 1, p);
    }
  }

  lemma LastSegmentOver(before: string, k: string)
    ensures LastSegment(before + ['.'] + k) == LastSegment(k)
  {
    var p := before + ['.'] + k;
    AfterLastOver(before, '.', k);
    assert p[|before| + 1..] == k;
    assert p[|before| + 1 + AfterLast(k, '.')..] == k[AfterLast(k, '.')..];
  }

  lemma ReportedByName(prefix: string, k: string)
    requires IsPrefix(prefix)
    ensures IsReported(prefix + k) <==> IsReported(k)
  {
    if prefix == "" {
      assert prefix + k == k;
    } else {
      var before := prefix[..|prefix| - 1];
      assert prefix + k == before + ['.'] + k;
      LastSegmentOver(before, k);
      SameEnding(before, k);
    }
  }

  lemma SameEnding(before: string, k: string)
    ensures EndsWith(before + ['.'] + k, "[*]") <==> EndsWith(k, "[*]")
  {
    var p := before + ['.'] + k;
    var n := |p|;
    if |k| >= 3 {
      assert p[n - 3..] == k[|k| - 3..];
    } else if n >= 3 {
      assert p[n - 1 - |k|] == '.';
      assert p[n - 3..][2 - |k|] == '.';
    }
  }

  /** A shape declares a path that is reported only if it has one. */
  lemma {:induction false} ReportedIsKnown(files: Files, doc: Json, schema: Json, shape: Shape, prefix: string,
                                           depth: nat, p: string)
    requires shape.HasFields() && DescribesFields(files, doc, schema, depth, shape)
    requires p in Flatten(files, doc, schema, prefix, depth) && IsPrefix(prefix) && IsReported(p)
    ensures HasReported(shape)
    decreases shape, 0
  {
    var props := Props(files, doc, schema, depth);
    var k :| k in props && p in FlattenMember(files, doc, k, props[k], prefix, depth);
    if p == prefix + k {
      ReportedByName(prefix, k);
    } else {
      ReportedBelowIsKnown(files, doc, Target(files, doc, props[k]), shape.fields[k], prefix + k, depth, p);
    }
  }

  lemma {:induction false} ReportedBelowIsKnown(files: Files, doc: Json, sub: Json, shape: Shape, path: string,
                                                depth: nat, p: string)
    requires Describes(files, doc, sub, depth, shape)
    requires p in FlattenTarget(files, doc, sub, path, depth) && IsReported(p)
    ensures shape.HasFields() && HasReported(shape)
    decreases shape, 1
  {
    PrefixesOf(path);
    if IsList(sub) {
      FlattenedList(files, doc, sub, shape, path, depth, p);
      ReportedIsKnown(files, doc, ListItems(files, doc, sub), shape, path + "[*].", depth + 1, p);
    } else {
      FlattenedRecord(files, doc, sub, shape, path, depth, p);
      ReportedIsKnown(files, doc, sub, shape, path + ".", depth + 1, p);
    }
  }

  /** Objects that share a position and conform. */
  ghost predicate AllConform(shape: Shape, vs: set<Json>)
    requires shape.HasFields()
  {
    vs != {} && forall v :: v in vs ==> ConformsFields(shape, v)
  }

  /** Every declared path that is reported is accounted for in one of the objects sampled. */
  lemma {:induction false} DeclaredIsSeen(files: Files, doc: Json, schema: Json, shape: Shape, vs: set<Json>,
                                          prefix: string, depth: nat, level: nat, p: string) returns (v: Json)
    requires shape.HasFields() && DescribesFields(files, doc, schema, depth, shape)
    requires AllConform(shape, vs) && Shows(shape, vs)
    requires FitsFields(shape, depth, level) && level <= OBSERVE_DEPTH
    requires p in Flatten(files, doc, schema, prefix, depth)
    ensures v in vs && (Accounted(v, prefix, level, p) || !IsReported(p))
    decreases shape, 0
  {
    var props := Props(files, doc, schema, depth);
    var k :| k in props && p in FlattenMember(files, doc, k, props[k], prefix, depth);
    if p == prefix + k {
      v :| v in vs;
      MemberContributes(v, k, prefix, level);
    } else {
      ValuesConform(shape, vs, k);
      var w := DeclaredBelowIsSeen(files, doc, Target(files, doc, props[k]), shape.fields[k], Values(vs, k), prefix + k,
                                   depth, level, p);
      v :| v in vs && v.Obj? && k in v.members && v.members[k] == w;
      TargetStaysBelow(files, doc, Target(files, doc, props[k]), prefix + k, depth, p);
      if IsReported(p) {
        AccountedInMember(v, k, prefix, level, p);
      }
    }
  }

  ghost predicate AllConformBelow(shape: Shape, ws: set<Json>) {
    ws != {} && forall w :: w in ws ==> Conforms(shape, w)
  }

  lemma ValuesConform(shape: Shape, vs: set<Json>, k: string)
    requires shape.HasFields() && k in shape.fields && AllConform(shape, vs)
    ensures AllConformBelow(shape.fields[k], Values(vs, k))
  {
    var v :| v in vs;
    assert v.members[k] in Values(vs, k);
  }

  /** What a value below a field does for the path: it accounts for it, or it is null. */
  ghost predicate AccountsBelow(w: Json, path: string, level: nat, p: string) {
    w == Null || Accounted(w, path + ".", level, p) || !IsReported(p)
  }

  lemma {:induction false} DeclaredBelowIsSeen(files: Files, doc: Json, sub: Json, shape: Shape, ws: set<Json>,
                                               path: string, depth: nat, level: nat, p: string) returns (w: Json)
    requires Describes(files, doc, sub, depth, shape) && Fits(shape, depth, level)
    requires AllConformBelow(shape, ws) && ShowsBelow(shape, ws)
    requires p in FlattenTarget(files, doc, sub, path, depth)
    ensures w in ws && AccountsBelow(w, path, level + 1, p)
    decreases shape, 5
  {
    if IsList(sub) {
      w := DeclaredBelowListIsSeen(files, doc, sub, shape, ws, path, depth, level, p);
    } else {
      w := DeclaredBelowRecordIsSeen(files, doc, sub, shape, ws, path, depth, level, p);
    }
  }

  lemma RecordsConform(files: Files, doc: Json, sub: Json, shape: Shape, ws: set<Json>, depth: nat, level: nat)
    requires shape.Record? && Describes(files, doc, sub, depth, shape) && Fits(shape, depth, level)
    requires AllConformBelow(shape, ws) && ShowsBelow(shape, ws) && Null !in ws
    ensures AllConform(shape, ws) && Shows(shape, ws) && DescribesFields(files, doc, sub, depth + 1, shape)
    ensures FitsFields(shape, depth + 1, level + 1) && level + 1 <= OBSERVE_DEPTH
  {
  }

  lemma {:induction false} DeclaredBelowRecordIsSeen(files: Files, doc: Json, sub: Json, shape: Shape, ws: set<Json>,
                                                     path: string, depth: nat, level: nat, p: string) returns (w: Json)
    requires Describes(files, doc, sub, depth, shape) && Fits(shape, depth, level)
    requires AllConformBelow(shape, ws) && ShowsBelow(shape, ws)
    requires !IsList(sub)
    requires p in FlattenTarget(files, doc, sub, path, depth)
    ensures w in ws && AccountsBelow(w, path, level + 1, p)
    decreases shape, 2
  {
    FlattenedRecord(files, doc, sub, shape, path, depth, p);
    if Null in ws {
      w := Null;
    } else {
      w := DeclaredInRecordIsSeen(files, doc, sub, shape, ws, path, depth, level, p);
    }
  }

  lemma {:induction false} DeclaredInRecordIsSeen(files: Files, doc: Json, sub: Json, shape: Shape, ws: set<Json>,
                                                  path: string, depth: nat, level: nat, p: string) returns (w: Json)
    requires shape.Record? && Describes(files, doc, sub, depth, shape) && Fits(shape, depth, level)
    requires AllConformBelow(shape, ws) && ShowsBelow(shape, ws) && Null !in ws
    requires p in Flatten(files, doc, sub, path + ".", depth + 1)
    ensures w in ws && AccountsBelow(w, path, level + 1, p)
    decreases shape, 1
  {
    RecordsConform(files, doc, sub, shape, ws, depth, level);
    w := DeclaredIsSeen(files, doc, sub, shape, ws, path + ".", depth + 1, level + 1, p);
  }

  lemma ListFields(files: Files, doc: Json, sub: Json, shape: Shape, depth: nat, level: nat)
    requires shape.RecordList? && Describes(files, doc, sub, depth, shape) && Fits(shape, depth, level)
    ensures IsList(sub) && DescribesFields(files, doc, ListItems(files, doc, sub), depth + 1, shape)
    ensures FitsFields(shape, depth + 1, level + 2) && level + 2 <= OBSERVE_DEPTH
  {
  }

  lemma {:induction false} DeclaredBelowListIsSeen(files: Files, doc: Json, sub: Json, shape: Shape, ws: set<Json>,
                                                   path: string, depth: nat, level: nat, p: string) returns (w: Json)
    requires Describes(files, doc, sub, depth, shape) && Fits(shape, depth, level)
    requires AllConformBelow(shape, ws) && ShowsBelow(shape, ws)
    requires IsList(sub)
    requires p in FlattenTarget(files, doc, sub, path, depth)
    ensures w in ws && AccountsBelow(w, path, level + 1, p)
    decreases shape, 4
  {
    FlattenedList(files, doc, sub, shape, path, depth, p);
    ListFields(files, doc, sub, shape, depth, level);
    w := DeclaredInItemsIsSeen(files, doc, ListItems(files, doc, sub), shape, ws, path, depth + 1, level + 1, p);
  }

  lemma {:induction false} DeclaredInItemsIsSeen(files: Files, doc: Json, items: Json, shape: Shape, ws: set<Json>,
                                                 path: string, depth: nat, level: nat, p: string) returns (w: Json)
    requires shape.RecordList? && DescribesFields(files, doc, items, depth, shape)
    requires AllConformBelow(shape, ws) && ShowsBelow(shape, ws)
    requires FitsFields(shape, depth, level + 1) && level + 1 <= OBSERVE_DEPTH
    requires p in Flatten(files, doc, items, path + "[*].", depth)
    ensures w in ws && AccountsBelow(w, path, level, p)
    decreases shape, 3
  {
    if Null in ws {
      w := Null;
    } else if Arr([]) in ws {
      w := ExcusedByEmptyList(files, doc, items, ws, path, depth, level, p);
    } else if Samples(ws) == {} {
      w :| w in ws;
      SilentList(files, doc, items, shape, path, depth, p);
    } else {
      SamplesConform(shape, ws);
      w := DeclaredInListIsSeen(files, doc, items, shape, ws, path, depth, level, p);
    }
  }

  /** A list of objects with nothing to report declares no path that is reported. */
  lemma SilentList(files: Files, doc: Json, items: Json, shape: Shape, path: string, depth: nat, p: string)
    requires shape.RecordList? && DescribesFields(files, doc, items, depth, shape) && !HasReported(shape)
    requires p in Flatten(files, doc, items, path + "[*].", depth)
    ensures !IsReported(p)
  {
    if IsReported(p) {
      PrefixesOf(path);
      ReportedIsKnown(files, doc, items, shape, path + "[*].", depth, p);
    }
  }

  lemma ExcusedByEmptyList(files: Files, doc: Json, items: Json, ws: set<Json>, path: string, depth: nat, level: nat,
                           p: string)
    returns (w: Json)
    requires Arr([]) in ws && p in Flatten(files, doc, items, path + "[*].", depth) && level <= OBSERVE_DEPTH
    ensures w in ws && Accounted(w, path + ".", level, p)
  {
    w := Arr([]);
    FlattenedListPath(files, doc, items, path, depth, p);
    UnderSome(p, EmptyListMark(path + "."), ObservedOpaque(w, path + ".", level, SAMPLE));
  }

  lemma {:induction false} DeclaredInListIsSeen(files: Files, doc: Json, items: Json, shape: Shape, ws: set<Json>,
                                                path: string, depth: nat, level: nat, p: string) returns (w: Json)
    requires shape.RecordList? && DescribesFields(files, doc, items, depth, shape)
    requires AllConform(shape, Samples(ws)) && Shows(shape, Samples(ws))
    requires FitsFields(shape, depth, level + 1) && level + 1 <= OBSERVE_DEPTH
    requires p in Flatten(files, doc, items, path + "[*].", depth)
    ensures w in ws && AccountsBelow(w, path, level, p)
    decreases shape, 1
  {
    assert SampleAccounts(Samples(ws), path + "[*].", level + 1, p) by {
      var v := DeclaredIsSeen(files, doc, items, shape, Samples(ws), path + "[*].", depth, level + 1, p);
    }
    w := AccountedInSample(ws, path, level, p);
  }

  ghost predicate SampleAccounts(us: set<Json>, prefix: string, level: nat, p: string) {
    exists v :: v in us && (Accounted(v, prefix, level, p) || !IsReported(p))
  }

  lemma SamplesConform(shape: Shape, ws: set<Json>)
    requires shape.RecordList? && AllConformBelow(shape, ws) && ShowsBelow(shape, ws)
    requires Null !in ws && Arr([]) !in ws && Samples(ws) != {}
    ensures AllConform(shape, Samples(ws)) && Shows(shape, Samples(ws))
  {
    AllSamplesConform(shape, ws);
  }

  lemma AllSamplesConform(shape: Shape, ws: set<Json>)
    requires shape.RecordList? && AllConformBelow(shape, ws)
    ensures forall v :: v in Samples(ws) ==> ConformsFields(shape, v)
  {
    forall v | v in Samples(ws) ensures ConformsFields(shape, v) {
      var w, i :| w in ws && w.Arr? && 0 <= i < |w.items| && i < SAMPLE && w.items[i] != Null && w.items[i] == v;
      assert Conforms(shape, w);
    }
  }

  lemma AccountedInSample(ws: set<Json>, path: string, level: nat, p: string) returns (w: Json)
    requires SampleAccounts(Samples(ws), path + "[*].", level + 1, p) && level <= OBSERVE_DEPTH
    ensures w in ws && AccountsBelow(w, path, level, p)
  {
    var v :| v in Samples(ws) && (Accounted(v, path + "[*].", level + 1, p) || !IsReported(p));
    var i;
    w, i :| w in ws && w.Arr? && 0 <= i < |w.items| && i < SAMPLE && w.items[i] != Null && w.items[i] == v;
    if IsReported(p) {
      ListPrefixOf(path);
      AccountedInItem(w, i, path + ".", level, p);
    }
  }

  lemma {:induction false} LeavesShowNothing(v: Json, prefix: string, level: nat)
    requires OnlyLeaves(v)
    ensures Observed(v, prefix, level, SAMPLE) == {}
    decreases v
  {
    if v.Arr? {
      forall i: nat | i < |v.items| ensures ObservedItem(v, i, prefix, level, SAMPLE) == {} {
        LeavesShowNothing(v.items[i], ListPrefix(prefix), level + 1);
      }
      assert ObservedItems(v, |v.items|, prefix, level, SAMPLE) == {};
    }
  }

  /** `p` is declared, or lies below a free-form object. */
  ghost predicate Allowed(files: Files, doc: Json, schema: Json, prefix: string, depth: nat, p: string) {
    p in Flatten(files, doc, schema, prefix, depth) || Under(p, DeclaredOpaque(files, doc, schema, prefix, depth))
  }

  ghost predicate AllowedBelow(files: Files, doc: Json, sub: Json, path: string, depth: nat, p: string) {
    p in FlattenTarget(files, doc, sub, path, depth) || Under(p, DeclaredOpaqueTarget(files, doc, sub, path, depth))
  }

  lemma AllowedInMember(files: Files, doc: Json, schema: Json, k: string, prefix: string, depth: nat, p: string)
    requires k in Props(files, doc, schema, depth)
    requires p == prefix + k ||
             AllowedBelow(files, doc, Target(files, doc, Props(files, doc, schema, depth)[k]), prefix + k, depth, p)
    ensures Allowed(files, doc, schema, prefix, depth, p)
  {
    var props := Props(files, doc, schema, depth);
    assert FlattenMember(files, doc, k, props[k], prefix, depth) <= Flatten(files, doc, schema, prefix, depth);
    var below := DeclaredOpaqueMember(files, doc, k, props[k], prefix, depth);
    assert below <= DeclaredOpaque(files, doc, schema, prefix, depth);
    if Under(p, below) {
      UnderMore(p, below, DeclaredOpaque(files, doc, schema, prefix, depth));
    }
  }

  /** Every observed path is allowed by the schema. */
  lemma {:induction false} SeenIsDeclared(files: Files, doc: Json, schema: Json, shape: Shape, v: Json,
                                          prefix: string, depth: nat, level: nat, p: string)
    requires shape.HasFields() && DescribesFields(files, doc, schema, depth, shape)
    requires ConformsFields(shape, v)
    requires FitsFields(shape, depth, level)
    requires p in Observed(v, prefix, level, SAMPLE)
    ensures Allowed(files, doc, schema, prefix, depth, p)
    decreases shape, 0
  {
    var props := Props(files, doc, schema, depth);
    var k :| k in v.members && p in ObservedMember(v, k, prefix, level, SAMPLE);
    if p != prefix + k {
      SeenBelowIsDeclared(files, doc, Target(files, doc, props[k]), shape.fields[k], v.members[k], prefix + k, depth,
                          level, p);
    }
    AllowedInMember(files, doc, schema, k, prefix, depth, p);
  }

  lemma {:induction false} SeenBelowIsDeclared(files: Files, doc: Json, sub: Json, shape: Shape, v: Json,
                                               path: string, depth: nat, level: nat, p: string)
    requires Describes(files, doc, sub, depth, shape) && Conforms(shape, v) && Fits(shape, depth, level)
    requires p in Observed(v, path + ".", level + 1, SAMPLE)
    ensures AllowedBelow(files, doc, sub, path, depth, p)
    decreases shape, 3
  {
    if shape.Free? {
      SeenInFreeForm(files, doc, sub, v, path, depth, level + 1, p);
    } else if shape.Record? {
      SeenBelowRecordIsDeclared(files, doc, sub, shape, v, path, depth, level, p);
    } else if shape.FreeList? || shape.RecordList? {
      SeenBelowListIsDeclared(files, doc, sub, shape, v, path, depth, level, p);
    } else {
      LeavesShowNothing(v, path + ".", level + 1);
    }
  }

  lemma {:induction false} SeenBelowRecordIsDeclared(files: Files, doc: Json, sub: Json, shape: Shape, v: Json,
                                                     path: string, depth: nat, level: nat, p: string)
    requires Describes(files, doc, sub, depth, shape) && Conforms(shape, v) && Fits(shape, depth, level)
    requires p in Observed(v, path + ".", level + 1, SAMPLE)
    requires shape.Record?
    ensures AllowedBelow(files, doc, sub, path, depth, p)
    decreases shape, 2
  {
    SeenInRecordIsDeclared(files, doc, sub, shape, v, path, depth, level, p);
    RecordAllows(files, doc, sub, shape, path, depth, level, p);
  }

  lemma {:induction false} SeenInRecordIsDeclared(files: Files, doc: Json, sub: Json, shape: Shape, v: Json,
                                                  path: string, depth: nat, level: nat, p: string)
    requires Describes(files, doc, sub, depth, shape) && Conforms(shape, v) && Fits(shape, depth, level)
    requires p in Observed(v, path + ".", level + 1, SAMPLE)
    requires shape.Record?
    ensures Allowed(files, doc, sub, path + ".", depth + 1, p)
    decreases shape, 1
  {
    RecordFields(files, doc, sub, shape, v, depth, level);
    SeenIsDeclared(files, doc, sub, shape, v, path + ".", depth + 1, level + 1, p);
  }

  lemma RecordFields(files: Files, doc: Json, sub: Json, shape: Shape, v: Json, depth: nat, level: nat)
    requires shape.Record? && Describes(files, doc, sub, depth, shape) && Conforms(shape, v) &&
             Fits(shape, depth, level)
    ensures DescribesFields(files, doc, sub, depth + 1, shape) && FitsFields(shape, depth + 1, level + 1)
    ensures v == Null || ConformsFields(shape, v)
  {
  }

  lemma RecordAllows(files: Files, doc: Json, sub: Json, shape: Shape, path: string, depth: nat, level: nat, p: string)
    requires Describes(files, doc, sub, depth, shape) && Fits(shape, depth, level) && shape.Record?
    requires Allowed(files, doc, sub, path + ".", depth + 1, p)
    ensures AllowedBelow(files, doc, sub, path, depth, p)
  {
  }

  lemma {:induction false} SeenBelowListIsDeclared(files: Files, doc: Json, sub: Json, shape: Shape, v: Json,
                                                   path: string, depth: nat, level: nat, p: string)
    requires Describes(files, doc, sub, depth, shape) && Conforms(shape, v) && Fits(shape, depth, level)
    requires p in Observed(v, path + ".", level + 1, SAMPLE)
    requires shape.FreeList? || shape.RecordList?
    ensures AllowedBelow(files, doc, sub, path, depth, p)
    decreases shape, 2
  {
    var i := SeenFittingItem(shape, v, path, depth, level, p);
    SeenInItemIsDeclared(files, doc, sub, shape, v.items[i], path, depth, level + 2, p);
  }

  lemma SeenFittingItem(shape: Shape, v: Json, path: string, depth: nat, level: nat, p: string) returns (i: nat)
    requires shape.FreeList? || shape.RecordList?
    requires Conforms(shape, v) && Fits(shape, depth, level) && p in Observed(v, path + ".", level + 1, SAMPLE)
    ensures v.Arr? && i < |v.items| && p in Observed(v.items[i], path + "[*].", level + 2, SAMPLE)
    ensures ItemFits(shape, v.items[i], depth, level + 2)
  {
    i := SeenItem(shape, v, path, level + 1, p);
    ListItemConforms(shape, v, i, depth, level);
  }

  lemma ListItemConforms(shape: Shape, v: Json, i: nat, depth: nat, level: nat)
    requires shape.FreeList? || shape.RecordList?
    requires Conforms(shape, v) && Fits(shape, depth, level) && v.Arr? && i < |v.items|
    ensures ItemFits(shape, v.items[i], depth, level + 2)
  {
  }

  ghost predicate ItemFits(shape: Shape, v: Json, depth: nat, level: nat) {
    depth <= FLATTEN_DEPTH &&
    (shape.FreeList? ||
     (shape.RecordList? && (v == Null || ConformsFields(shape, v)) && FitsFields(shape, depth + 1, level)))
  }

  lemma SeenInFreeForm(files: Files, doc: Json, sub: Json, v: Json, path: string, depth: nat, level: nat, p: string)
    requires Describes(files, doc, sub, depth, Free) && depth <= FLATTEN_DEPTH
    requires p in Observed(v, path + ".", level, SAMPLE)
    ensures AllowedBelow(files, doc, sub, path, depth, p)
  {
    ObservedStaysBelow(v, path, level, SAMPLE, p);
    UnderSome(p, path, DeclaredOpaqueTarget(files, doc, sub, path, depth));
  }

  lemma SeenItem(shape: Shape, v: Json, path: string, level: nat, p: string) returns (i: nat)
    requires (shape.FreeList? || shape.RecordList?) && Conforms(shape, v)
    requires p in Observed(v, path + ".", level, SAMPLE)
    ensures v.Arr? && i < |v.items| && p in Observed(v.items[i], path + "[*].", level + 1, SAMPLE)
  {
    var prefix := path + ".";
    ListPrefixOf(path);
    assert p in ObservedItems(v, |v.items|, prefix, level, SAMPLE);
    i :| 0 <= i < |v.items| && i < SAMPLE && p in ObservedItem(v, i, prefix, level, SAMPLE);
  }

  lemma {:induction false} SeenInItemIsDeclared(files: Files, doc: Json, sub: Json, shape: Shape, v: Json,
                                                path: string, depth: nat, level: nat, p: string)
    requires Describes(files, doc, sub, depth, shape) && ItemFits(shape, v, depth, level)
    requires p in Observed(v, path + "[*].", level, SAMPLE)
    ensures AllowedBelow(files, doc, sub, path, depth, p)
    decreases shape, 1
  {
    var items := ListItems(files, doc, sub);
    if BareItems(items) {
      assert path + "[*]." == path + "[*]" + ".";
      ObservedStaysBelow(v, path + "[*]", level, SAMPLE, p);
      UnderSome(p, path + "[*]", DeclaredOpaqueTarget(files, doc, sub, path, depth));
    } else {
      PropsOfItems(files, doc, ItemsOf(sub.members), depth + 1);
      SeenIsDeclared(files, doc, items, shape, v, path + "[*].", depth + 1, level, p);
    }
  }

  /** No answer that conforms has anything extra, whatever its samples show. */
  lemma NothingExtra(files: Files, doc: Json, schema: Json, shape: Shape, body: Json)
    requires shape.Record? && DescribesFields(files, doc, schema, 0, shape)
    requires FitsFields(shape, 0, 0)
    requires ConformsFields(shape, body)
    ensures Judge(files, doc, schema, body).extra == {}
  {
    var seen := Observed(body, "", 0, SAMPLE);
    forall p | p in seen ensures Allowed(files, doc, schema, "", 0, p) {
      SeenIsDeclared(files, doc, schema, shape, body, "", 0, 0, p);
    }
  }

  lemma NothingMissing(files: Files, doc: Json, schema: Json, body: Json)
    requires forall p :: p in Flatten(files, doc, schema, "", 0) && IsReported(p) ==> Accounted(body, "", 0, p)
    ensures Judge(files, doc, schema, body).missing == {}
  {
  }

  /** No false drift: an answer that conforms to a shape both walks can reach is reported clean, when
      its lists show what they declare. */
  lemma NoFalseDrift(files: Files, doc: Json, schema: Json, shape: Shape, body: Json)
    requires shape.Record? && DescribesFields(files, doc, schema, 0, shape)
    requires FitsFields(shape, 0, 0)
    requires ConformsFields(shape, body) && Shows(shape, {body})
    ensures Judge(files, doc, schema, body) == Verdict({}, {})
  {
    forall p | p in Flatten(files, doc, schema, "", 0) && IsReported(p) ensures Accounted(body, "", 0, p) {
      var v := DeclaredIsSeen(files, doc, schema, shape, {body}, "", 0, 0, p);
    }
    NothingMissing(files, doc, schema, body);
    NothingExtra(files, doc, schema, shape, body);
  }

  // ---- every shape has a schema ---------------------------------------------------

  /** A schema written out for a shape. */
  function Render(shape: Shape): (r: Json)
    decreases shape, 1
  {
    match shape
    case Scalar => Obj(map["type" := Str("string")])
    case Free => Obj(map["type" := Str("object")])
    case Record(_) => RenderFields(shape)
    case ScalarList => Obj(map["type" := Str("array"), "items" := Obj(map["type" := Str("string")])])
    case FreeList => Obj(map["type" := Str("array"), "items" := EMPTY])
    case RecordList(_) => Obj(map["type" := Str("array"), "items" := RenderFields(shape)])
  }

  function RenderFields(shape: Shape): (r: Json)
    requires shape.HasFields()
    ensures r.Obj? && r.members.Keys == {"properties"}
    decreases shape, 0
  {
    Obj(map["properties" := Obj(map k | k in shape.fields :: Render(shape.fields[k]))])
  }

  lemma PropsOfPlain(files: Files, doc: Json, node: Json, depth: nat)
    requires depth <= MAX_ALL_OF && node.Obj? && Resolved(node) && "allOf" !in node.members
    ensures Props(files, doc, node, depth) == MembersAt(node.members, "properties")
  {
    var own := MembersAt(node.members, "properties");
    assert Target(files, doc, node) == node;
    assert PartProps(files, doc, [], depth) == [];
    assert Merged(own, []) == own;
  }

  lemma RenderedHasNoReference(shape: Shape)
    ensures Render(shape).Obj? && "$ref" !in Render(shape).members
  {
    if shape.RecordList? {
      assert Render(shape).members.Keys == {"type", "items"};
    }
  }

  lemma RenderedIsResolved(files: Files, doc: Json, shape: Shape)
    ensures Target(files, doc, Render(shape)) == Render(shape)
  {
    RenderedHasNoReference(shape);
  }

  lemma {:induction false} RenderedDescribesFields(files: Files, doc: Json, shape: Shape, depth: nat, level: nat)
    requires shape.HasFields() && FitsFields(shape, depth, level) && depth <= MAX_ALL_OF - 1
    ensures DescribesFields(files, doc, RenderFields(shape), depth, shape)
    decreases shape, 0
  {
    PropsOfPlain(files, doc, RenderFields(shape), depth);
    forall k | k in shape.fields
      ensures Describes(files, doc, Target(files, doc, Render(shape.fields[k])), depth, shape.fields[k])
    {
      RenderedDescribes(files, doc, shape.fields[k], depth, level);
      RenderedIsResolved(files, doc, shape.fields[k]);
    }
  }

  lemma {:induction false} RenderedDescribes(files: Files, doc: Json, shape: Shape, depth: nat, level: nat)
    requires Fits(shape, depth, level) && depth <= MAX_ALL_OF - 1
    ensures Describes(files, doc, Render(shape), depth, shape)
    decreases shape, 1
  {
    match shape
    case Record(_) =>
      RenderedDescribesFields(files, doc, shape, depth + 1, level + 1);
      RenderedRecordDescribes(files, doc, shape, depth);
    case RecordList(_) =>
      RenderedDescribesFields(files, doc, shape, depth + 1, level + 2);
      RenderedListDescribes(files, doc, shape, depth);
    case ScalarList =>
      RenderedScalarsDescribe(files, doc, depth);
    case _ =>
      RenderedLeafDescribes(files, doc, shape, depth);
  }

  lemma RenderedRecordDescribes(files: Files, doc: Json, shape: Shape, depth: nat)
    requires shape.Record? && DescribesFields(files, doc, RenderFields(shape), depth + 1, shape)
    ensures Describes(files, doc, Render(shape), depth, shape)
  {
  }

  lemma RenderedLeafDescribes(files: Files, doc: Json, shape: Shape, depth: nat)
    requires shape.Scalar? || shape.Free? || shape.FreeList?
    ensures Describes(files, doc, Render(shape), depth, shape)
  {
  }

  lemma RenderedListDescribes(files: Files, doc: Json, shape: Shape, depth: nat)
    requires shape.RecordList? && DescribesFields(files, doc, RenderFields(shape), depth + 1, shape)
    ensures Describes(files, doc, Render(shape), depth, shape)
  {
    assert ListItems(files, doc, Render(shape)) == RenderFields(shape);
  }

  lemma RenderedScalarsDescribe(files: Files, doc: Json, depth: nat)
    requires depth <= MAX_ALL_OF - 1
    ensures Describes(files, doc, Render(ScalarList), depth, ScalarList)
  {
    var items := Obj(map["type" := Str("string")]);
    assert ListItems(files, doc, Render(ScalarList)) == items;
    PropsOfPlain(files, doc, items, depth + 1);
  }

  /** Every shape both walks can reach has a schema, and no conforming answer drifts from it. */
  lemma RenderedIsClean(files: Files, doc: Json, shape: Shape, body: Json)
    requires shape.Record? && FitsFields(shape, 0, 0) && ConformsFields(shape, body) && Shows(shape, {body})
    ensures Judge(files, doc, Render(shape), body) == Verdict({}, {})
  {
    RenderedDescribesFields(files, doc, shape, 0, 0);
    NoFalseDrift(files, doc, Render(shape), shape, body);
  }

  // ---- where a clean answer is not guaranteed ---------------------------------------

  lemma NullListShowsNothing(prefix: string, level: nat)
    ensures Observed(Arr([Null]), prefix, level, SAMPLE) == {} == ObservedOpaque(Arr([Null]), prefix, level, SAMPLE)
  {
    var list := Arr([Null]);
    assert ObservedItem(list, 0, prefix, level, SAMPLE) == {} == OpaqueItem(list, 0, prefix, level, SAMPLE);
  }

  lemma NullItemsSeen(a: string)
    ensures var body := Obj(map[a := Arr([Null])]);
            Observed(body, "", 0, SAMPLE) <= {a} && ObservedOpaque(body, "", 0, SAMPLE) == {}
  {
    var body := Obj(map[a := Arr([Null])]);
    NullListShowsNothing("" + a + ".", 1);
    assert "" + a == a;
    assert ObservedMember(body, a, "", 0, SAMPLE) == {a};
    assert OpaqueMember(body, a, "", 0, SAMPLE) == {};
  }

  lemma MemberDeclared(files: Files, doc: Json, schema: Json, k: string, prefix: string, depth: nat, p: string)
    requires k in Props(files, doc, schema, depth)
    requires p in FlattenMember(files, doc, k, Props(files, doc, schema, depth)[k], prefix, depth)
    ensures p in Flatten(files, doc, schema, prefix, depth)
  {
  }

  lemma FieldDeclared(files: Files, doc: Json, shape: Shape, k: string, prefix: string, depth: nat, p: string)
    requires shape.HasFields() && k in shape.fields && depth <= FLATTEN_DEPTH + 1
    requires p == prefix + k || p in FlattenTarget(files, doc, Render(shape.fields[k]), prefix + k, depth)
    ensures p in Flatten(files, doc, RenderFields(shape), prefix, depth)
  {
    PropsOfPlain(files, doc, RenderFields(shape), depth);
    RenderedIsResolved(files, doc, shape.fields[k]);
    MemberDeclared(files, doc, RenderFields(shape), k, prefix, depth, p);
  }

  lemma ListDeclares(files: Files, doc: Json, list: Shape, path: string, depth: nat, p: string)
    requires list.RecordList? && depth <= FLATTEN_DEPTH
    requires p in Flatten(files, doc, RenderFields(list), path + "[*].", depth + 1)
    ensures p in FlattenTarget(files, doc, Render(list), path, depth)
  {
  }

  /** A list `a` of records with a field `x` declares `a[*].x`. */
  lemma ItemPathIsDeclared(files: Files, doc: Json, a: string, x: string)
    ensures a + "[*]." + x in FlattenTarget(files, doc, Render(RecordList(map[x := Scalar])), a, 0)
  {
    var list := RecordList(map[x := Scalar]);
    FieldDeclared(files, doc, list, x, a + "[*].", 1, a + "[*]." + x);
    ListDeclares(files, doc, list, a, 0, a + "[*]." + x);
  }

  lemma ListPathIsDeclared(files: Files, doc: Json, a: string, x: string)
    ensures a + "[*]." + x in Flatten(files, doc, Render(Record(map[a := RecordList(map[x := Scalar])])), "", 0)
  {
    assert "" + a == a;
    ItemPathIsDeclared(files, doc, a, x);
    FieldDeclared(files, doc, Record(map[a := RecordList(map[x := Scalar])]), a, "", 0, a + "[*]." + x);
  }

  /** `{a: [null]}` against a list `a` of records with a field `x`: none of the sampled items shows the field,
      no empty list excuses it, and `a[*].x` is reported missing, whatever the two are called. */
  lemma NullItemsDrift(files: Files, doc: Json, a: string, x: string)
    requires IsReported(x)
    ensures var schema := Render(Record(map[a := RecordList(map[x := Scalar])]));
            a + "[*]." + x in Judge(files, doc, schema, Obj(map[a := Arr([Null])])).missing
  {
    var body := Obj(map[a := Arr([Null])]);
    var p := a + "[*]." + x;
    ListPathIsDeclared(files, doc, a, x);
    PrefixesOf(a);
    ReportedByName(a + "[*].", x);
    assert !Accounted(body, "", 0, p) by {
      NullItemsSeen(a);
      assert |p| > |a|;
    }
    MissingMeans(files, doc, Render(Record(map[a := RecordList(map[x := Scalar])])), body, p);
  }
}
