/** When a conforming answer is reported clean by `scripts/schema_drift.py`, exactly: if and only if every
    list of objects with something to report is null or empty somewhere, or shows an object among the
    items that are sampled. */
module SchemaClean {
  import opened Json
  import opened Observation
  import opened SchemaRefs
  import opened SchemaDrift
  import opened SchemaVerdict
  import opened SchemaDetection

  /** No field name can be mistaken for a path. */
  predicate PlainNames(shape: Shape) {
    shape.HasFields() ==> forall k :: k in shape.fields ==> IsPlain(k) && PlainNames(shape.fields[k])
  }

  /** None of the values at one position accounts for the path. */
  ghost predicate NoneAccounts(vs: set<Json>, prefix: string, level: nat, p: string) {
    forall v :: v in vs ==> !Accounted(v, prefix, level, p)
  }

  // ---- paths of a schema ----------------------------------------------------------------

  lemma ExtendedIsLonger(p: string, path: string, mark: string)
    requires path + mark <= p && mark != ""
    ensures p != path
  {
  }

  lemma TargetIsLonger(files: Files, doc: Json, sub: Json, path: string, depth: nat, p: string)
    requires p in FlattenTarget(files, doc, sub, path, depth)
    ensures p != path
  {
    if TypeIs(sub.members, "array") {
      FlattenKeepsPrefix(files, doc, ItemsOf(sub.members), path + "[*].", depth + 1, p);
      ExtendedIsLonger(p, path, "[*].");
    } else {
      FlattenKeepsPrefix(files, doc, sub, path + ".", depth + 1, p);
      ExtendedIsLonger(p, path, ".");
    }
  }

  lemma RecordDeclares(files: Files, doc: Json, sub: Json, shape: Shape, path: string, depth: nat, level: nat,
                       p: string)
    requires shape.Record? && Describes(files, doc, sub, depth, shape) && Fits(shape, depth, level)
    requires p in Flatten(files, doc, sub, path + ".", depth + 1)
    ensures p in FlattenTarget(files, doc, sub, path, depth)
  {
  }

  lemma ItemsDeclare(files: Files, doc: Json, sub: Json, shape: Shape, path: string, depth: nat, level: nat, p: string)
    requires shape.RecordList? && Describes(files, doc, sub, depth, shape) && Fits(shape, depth, level)
    requires p in Flatten(files, doc, ListItems(files, doc, sub), path + "[*].", depth + 1)
    ensures p in FlattenTarget(files, doc, sub, path, depth)
  {
    PropsOfItems(files, doc, ItemsOf(sub.members), depth + 1);
  }

  lemma BelowIsDeclared(files: Files, doc: Json, schema: Json, k: string, prefix: string, depth: nat, p: string)
    requires k in Props(files, doc, schema, depth)
    requires p in FlattenTarget(files, doc, Target(files, doc, Props(files, doc, schema, depth)[k]), prefix + k, depth)
    ensures p in Flatten(files, doc, schema, prefix, depth)
  {
    MemberDeclared(files, doc, schema, k, prefix, depth, p);
  }

  lemma NameIsDeclared(files: Files, doc: Json, schema: Json, k: string, prefix: string, depth: nat)
    requires k in Props(files, doc, schema, depth)
    ensures prefix + k in Flatten(files, doc, schema, prefix, depth)
  {
    MemberDeclared(files, doc, schema, k, prefix, depth, prefix + k);
  }

  /** A shape with something to report declares a path that is reported. */
  lemma {:induction false} ReportedPath(files: Files, doc: Json, schema: Json, shape: Shape, prefix: string, depth: nat,
                                        level: nat) returns (p: string)
    requires shape.HasFields() && DescribesFields(files, doc, schema, depth, shape)
    requires FitsFields(shape, depth, level) && HasReported(shape) && IsPrefix(prefix)
    ensures p in Flatten(files, doc, schema, prefix, depth) && IsReported(p)
    decreases shape, 0
  {
    var k :| k in shape.fields && (IsReported(k) || (shape.fields[k].HasFields() && HasReported(shape.fields[k])));
    if IsReported(k) {
      p := prefix + k;
      ReportedByName(prefix, k);
      NameIsDeclared(files, doc, schema, k, prefix, depth);
    } else {
      var sub := Target(files, doc, Props(files, doc, schema, depth)[k]);
      p := ReportedPathBelow(files, doc, sub, shape.fields[k], prefix + k, depth, level);
      BelowIsDeclared(files, doc, schema, k, prefix, depth, p);
    }
  }

  lemma {:induction false} ReportedPathBelow(files: Files, doc: Json, sub: Json, shape: Shape, path: string, depth: nat,
                                             level: nat) returns (p: string)
    requires Describes(files, doc, sub, depth, shape) && Fits(shape, depth, level)
    requires shape.HasFields() && HasReported(shape)
    ensures p in FlattenTarget(files, doc, sub, path, depth) && IsReported(p)
    decreases shape, 1
  {
    PrefixesOf(path);
    if shape.Record? {
      p := ReportedPath(files, doc, sub, shape, path + ".", depth + 1, level + 1);
      RecordDeclares(files, doc, sub, shape, path, depth, level, p);
    } else {
      p := ReportedPath(files, doc, ListItems(files, doc, sub), shape, path + "[*].", depth + 1, level + 2);
      ItemsDeclare(files, doc, sub, shape, path, depth, level, p);
    }
  }

  // ---- paths that no value shows -----------------------------------------------------------

  lemma NotSeenElsewhere(v: Json, k: string, prefix: string, level: nat, p: string)
    requires v.Obj? && ArePlain(v.members.Keys) && k in v.members && Below(p, prefix + k) && p != prefix + k
    requires p in Observed(v, prefix, level, SAMPLE)
    ensures p in Observed(v.members[k], prefix + k + ".", level + 1, SAMPLE)
  {
    var m := SeenBelow(v, prefix, level, p);
    SameName(p, prefix, m, k);
  }

  lemma NotExcusedElsewhere(v: Json, k: string, prefix: string, level: nat, p: string)
    requires v.Obj? && ArePlain(v.members.Keys) && k in v.members && Below(p, prefix + k) && v.members[k] != Null
    requires Under(p, ObservedOpaque(v, prefix, level, SAMPLE))
    ensures Under(p, ObservedOpaque(v.members[k], prefix + k + ".", level + 1, SAMPLE))
  {
    var o :| o in ObservedOpaque(v, prefix, level, SAMPLE) && Below(p, o);
    var m := OpaqueUnderMember(v, prefix, level, o);
    if v.members[m] != Null {
      OpaqueStaysBelow(v.members[m], prefix + m, level + 1, o);
    }
    BelowThrough(p, o, prefix + m);
    SameName(p, prefix, m, k);
  }

  /** An object accounts for a path below `k` only through its member `k`. */
  lemma NotAccountedInMember(v: Json, k: string, prefix: string, level: nat, p: string)
    requires v.Obj? && ArePlain(v.members.Keys) && k in v.members && Below(p, prefix + k) && p != prefix + k
    requires v.members[k] != Null && !Accounted(v.members[k], prefix + k + ".", level + 1, p)
    ensures !Accounted(v, prefix, level, p)
  {
    if p in Observed(v, prefix, level, SAMPLE) {
      NotSeenElsewhere(v, k, prefix, level, p);
    }
    if Under(p, ObservedOpaque(v, prefix, level, SAMPLE)) {
      NotExcusedElsewhere(v, k, prefix, level, p);
    }
  }

  /** A list that is not empty accounts for a path only through an object among its samples. */
  lemma NotAccountedInList(ws: set<Json>, w: Json, path: string, level: nat, p: string)
    requires w in ws && w.Arr? && w.items != [] && NoneAccounts(Samples(ws), path + "[*].", level + 1, p)
    ensures !Accounted(w, path + ".", level, p)
  {
    ListPrefixOf(path);
    if p in Observed(w, path + ".", level, SAMPLE) {
      var v := SeenInSample(ws, w, path + ".", level, p);
    }
    if o :| o in ObservedOpaque(w, path + ".", level, SAMPLE) && Below(p, o) {
      var v := OpaqueInSample(ws, w, path + ".", level, o);
    }
  }

  lemma NullShowsNothing(prefix: string, level: nat)
    ensures Observed(Null, prefix, level, SAMPLE) == {} == ObservedOpaque(Null, prefix, level, SAMPLE)
  {
  }

  lemma SeenInSample(ws: set<Json>, w: Json, prefix: string, level: nat, p: string) returns (v: Json)
    requires w in ws && w.Arr? && p in Observed(w, prefix, level, SAMPLE)
    ensures v in Samples(ws) && p in Observed(v, ListPrefix(prefix), level + 1, SAMPLE)
  {
    assert p in ObservedItems(w, |w.items|, prefix, level, SAMPLE);
    var i :| 0 <= i < |w.items| && i < SAMPLE && p in ObservedItem(w, i, prefix, level, SAMPLE);
    v := w.items[i];
    NullShowsNothing(ListPrefix(prefix), level + 1);
  }

  lemma OpaqueInSample(ws: set<Json>, w: Json, prefix: string, level: nat, o: string) returns (v: Json)
    requires w in ws && w.Arr? && w.items != [] && o in ObservedOpaque(w, prefix, level, SAMPLE)
    ensures v in Samples(ws) && o in ObservedOpaque(v, ListPrefix(prefix), level + 1, SAMPLE)
  {
    assert o in OpaqueItems(w, |w.items|, prefix, level, SAMPLE);
    var i :| 0 <= i < |w.items| && i < SAMPLE && o in OpaqueItem(w, i, prefix, level, SAMPLE);
    v := w.items[i];
    NullShowsNothing(ListPrefix(prefix), level + 1);
  }

  /** Where the samples do not show enough, some path that is reported is accounted for by none of them. */
  lemma {:induction false} Unaccounted(files: Files, doc: Json, schema: Json, shape: Shape, vs: set<Json>,
                                       prefix: string, depth: nat, level: nat) returns (p: string)
    requires shape.HasFields() && DescribesFields(files, doc, schema, depth, shape)
    requires AllConform(shape, vs) && PlainNames(shape) && FitsFields(shape, depth, level)
    requires !Shows(shape, vs)
    ensures p in Flatten(files, doc, schema, prefix, depth) && IsReported(p) && NoneAccounts(vs, prefix, level, p)
    decreases shape, 0
  {
    var k :| k in shape.fields && !ShowsBelow(shape.fields[k], Values(vs, k));
    var sub := Target(files, doc, Props(files, doc, schema, depth)[k]);
    ValuesConform(shape, vs, k);
    p := UnaccountedBelow(files, doc, sub, shape.fields[k], Values(vs, k), prefix + k, depth, level);
    BelowIsDeclared(files, doc, schema, k, prefix, depth, p);
    TargetStaysBelow(files, doc, sub, prefix + k, depth, p);
    TargetIsLonger(files, doc, sub, prefix + k, depth, p);
    NotAccountedInMembers(shape, vs, k, prefix, level, p);
  }

  lemma NotAccountedInMembers(shape: Shape, vs: set<Json>, k: string, prefix: string, level: nat, p: string)
    requires shape.HasFields() && AllConform(shape, vs) && PlainNames(shape) && k in shape.fields
    requires Below(p, prefix + k) && p != prefix + k
    requires Null !in Values(vs, k) && NoneAccounts(Values(vs, k), prefix + k + ".", level + 1, p)
    ensures NoneAccounts(vs, prefix, level, p)
  {
    forall v | v in vs ensures !Accounted(v, prefix, level, p) {
      assert ConformsFields(shape, v);
      assert v.members[k] in Values(vs, k);
      NotAccountedInMember(v, k, prefix, level, p);
    }
  }

  lemma {:induction false} UnaccountedBelow(files: Files, doc: Json, sub: Json, shape: Shape, ws: set<Json>,
                                            path: string, depth: nat, level: nat) returns (p: string)
    requires Describes(files, doc, sub, depth, shape) && Fits(shape, depth, level)
    requires AllConformBelow(shape, ws) && PlainNames(shape)
    requires !ShowsBelow(shape, ws)
    ensures p in FlattenTarget(files, doc, sub, path, depth) && IsReported(p)
    ensures Null !in ws && NoneAccounts(ws, path + ".", level + 1, p)
    decreases shape, 3
  {
    if shape.Record? {
      p := UnaccountedInRecord(files, doc, sub, shape, ws, path, depth, level);
    } else {
      p := UnaccountedInList(files, doc, sub, shape, ws, path, depth, level);
    }
  }

  lemma {:induction false} UnaccountedInRecord(files: Files, doc: Json, sub: Json, shape: Shape, ws: set<Json>,
                                               path: string, depth: nat, level: nat) returns (p: string)
    requires Describes(files, doc, sub, depth, shape) && Fits(shape, depth, level)
    requires AllConformBelow(shape, ws) && PlainNames(shape)
    requires shape.Record? && !ShowsBelow(shape, ws)
    ensures p in FlattenTarget(files, doc, sub, path, depth) && IsReported(p)
    ensures Null !in ws && NoneAccounts(ws, path + ".", level + 1, p)
    decreases shape, 1
  {
    assert AllConform(shape, ws);
    p := Unaccounted(files, doc, sub, shape, ws, path + ".", depth + 1, level + 1);
    RecordDeclares(files, doc, sub, shape, path, depth, level, p);
  }

  lemma {:induction false} UnaccountedInList(files: Files, doc: Json, sub: Json, shape: Shape, ws: set<Json>,
                                             path: string, depth: nat, level: nat) returns (p: string)
    requires Describes(files, doc, sub, depth, shape) && Fits(shape, depth, level)
    requires AllConformBelow(shape, ws) && PlainNames(shape)
    requires shape.RecordList? && !ShowsBelow(shape, ws)
    ensures p in FlattenTarget(files, doc, sub, path, depth) && IsReported(p)
    ensures Null !in ws && NoneAccounts(ws, path + ".", level + 1, p)
    decreases shape, 2
  {
    ListFields(files, doc, sub, shape, depth, level);
    p := UnaccountedInItems(files, doc, ListItems(files, doc, sub), shape, ws, path, depth + 1, level + 2);
    ItemsDeclare(files, doc, sub, shape, path, depth, level, p);
    forall w | w in ws ensures !Accounted(w, path + ".", level + 1, p) {
      assert Conforms(shape, w);
      NotAccountedInList(ws, w, path, level + 1, p);
    }
  }

  lemma {:induction false} UnaccountedInItems(files: Files, doc: Json, items: Json, shape: Shape, ws: set<Json>,
                                              path: string, depth: nat, level: nat) returns (p: string)
    requires shape.RecordList? && DescribesFields(files, doc, items, depth, shape) && FitsFields(shape, depth, level)
    requires AllConformBelow(shape, ws) && PlainNames(shape)
    requires !ShowsBelow(shape, ws)
    ensures p in Flatten(files, doc, items, path + "[*].", depth) && IsReported(p)
    ensures NoneAccounts(Samples(ws), path + "[*].", level, p)
    decreases shape, 1
  {
    if Samples(ws) == {} {
      PrefixesOf(path);
      p := ReportedPath(files, doc, items, shape, path + "[*].", depth, level);
    } else {
      AllSamplesConform(shape, ws);
      p := Unaccounted(files, doc, items, shape, Samples(ws), path + "[*].", depth, level);
    }
  }

  // ---- clean, exactly ---------------------------------------------------------------------------

  /** An answer that conforms to a shape both walks can reach has nothing extra, and it is reported
      clean if and only if its samples show what its lists declare. */
  lemma CleanExactly(files: Files, doc: Json, schema: Json, shape: Shape, body: Json)
    requires shape.Record? && DescribesFields(files, doc, schema, 0, shape)
    requires FitsFields(shape, 0, 0) && PlainNames(shape)
    requires ConformsFields(shape, body)
    ensures Judge(files, doc, schema, body) == Verdict({}, {}) <==> Shows(shape, {body})
  {
    if Shows(shape, {body}) {
      NoFalseDrift(files, doc, schema, shape, body);
    } else {
      var p := Unaccounted(files, doc, schema, shape, {body}, "", 0, 0);
      UnaccountedIsMissing(files, doc, schema, body, p);
    }
  }

  lemma UnaccountedIsMissing(files: Files, doc: Json, schema: Json, body: Json, p: string)
    requires p in Flatten(files, doc, schema, "", 0) && IsReported(p) && !Accounted(body, "", 0, p)
    ensures p in Judge(files, doc, schema, body).missing
  {
  }

  // ---- two places that spell one path ---------------------------------------------------------------

  /** A list `a` of records with a field `x`, and beside it a field that is itself called `a[*].x`. */
  function Twice(a: string, x: string): (r: Shape) {
    Record(map[a := RecordList(map[x := Scalar]), a + "[*]." + x := Scalar])
  }

  function NullsAndText(a: string, x: string): (r: Json) {
    Obj(map[a := Arr([Null]), a + "[*]." + x := Str("")])
  }

  lemma TwoNames(a: string, x: string)
    ensures a != a + "[*]." + x
  {
    assert |a| < |a + "[*]." + x|;
  }

  lemma TwiceConforms(a: string, x: string)
    ensures ConformsFields(Twice(a, x), NullsAndText(a, x)) && FitsFields(Twice(a, x), 0, 0)
  {
    TwoNames(a, x);
    assert FitsFields(RecordList(map[x := Scalar]), 1, 2);
    assert Fits(RecordList(map[x := Scalar]), 0, 0);
  }

  lemma NullsShowNothing(a: string, x: string)
    requires IsReported(x)
    ensures !Shows(Twice(a, x), {NullsAndText(a, x)})
  {
    TwoNames(a, x);
    var list := RecordList(map[x := Scalar]);
    var ws := Values({NullsAndText(a, x)}, a);
    assert ws == {Arr([Null])};
    assert Samples(ws) == {};
    assert HasReported(list);
    assert !ShowsBelow(list, ws);
    assert Twice(a, x).fields[a] == list;
  }

  lemma FlattenedField(files: Files, doc: Json, shape: Shape, prefix: string, depth: nat, p: string)
    returns (k: string)
    requires shape.HasFields() && depth <= FLATTEN_DEPTH + 1 &&
             p in Flatten(files, doc, RenderFields(shape), prefix, depth)
    ensures k in shape.fields
    ensures p == prefix + k || p in FlattenTarget(files, doc, Render(shape.fields[k]), prefix + k, depth)
  {
    PropsOfPlain(files, doc, RenderFields(shape), depth);
    var props := Props(files, doc, RenderFields(shape), depth);
    k :| k in props && p in FlattenMember(files, doc, k, props[k], prefix, depth);
    RenderedIsResolved(files, doc, shape.fields[k]);
  }

  lemma ScalarDeclaresNothing(files: Files, doc: Json, path: string, depth: nat)
    ensures FlattenTarget(files, doc, Render(Scalar), path, depth) == {}
  {
  }

  lemma ListOfOne(files: Files, doc: Json, a: string, x: string, p: string)
    requires p in FlattenTarget(files, doc, Render(RecordList(map[x := Scalar])), a, 0)
    ensures p == a + "[*]." + x
  {
    var k := FlattenedField(files, doc, RecordList(map[x := Scalar]), a + "[*].", 1, p);
    ScalarDeclaresNothing(files, doc, a + "[*]." + k, 1);
  }

  lemma TwiceHolds(a: string, x: string, k: string)
    requires k in Twice(a, x).fields
    ensures k in {a, a + "[*]." + x}
    ensures Twice(a, x).fields[k] == if k == a then RecordList(map[x := Scalar]) else Scalar
  {
    TwoNames(a, x);
  }

  lemma MemberDeclares(files: Files, doc: Json, a: string, x: string, k: string, p: string)
    requires p in FlattenTarget(files, doc, Render(if k == a then RecordList(map[x := Scalar]) else Scalar), k, 0)
    ensures p == a + "[*]." + x
  {
    if k == a {
      ListOfOne(files, doc, a, x, p);
    } else {
      ScalarDeclaresNothing(files, doc, k, 0);
    }
  }

  lemma TwiceDeclares(files: Files, doc: Json, a: string, x: string, p: string)
    requires p in Flatten(files, doc, Render(Twice(a, x)), "", 0)
    ensures p in {a, a + "[*]." + x}
  {
    var k := FlattenedField(files, doc, Twice(a, x), "", 0, p);
    assert "" + k == k;
    TwiceHolds(a, x, k);
    if p != k {
      MemberDeclares(files, doc, a, x, k, p);
    }
  }

  /** With names that hold a bracket an answer can be clean although its list shows nothing: another member
      is spelled like the field of its items. */
  lemma SpelledAlikeIsClean(files: Files, doc: Json, a: string, x: string)
    requires IsReported(x)
    ensures var shape, body := Twice(a, x), NullsAndText(a, x);
            ConformsFields(shape, body) && FitsFields(shape, 0, 0) && !Shows(shape, {body}) &&
            Judge(files, doc, Render(shape), body) == Verdict({}, {})
  {
    var shape, body := Twice(a, x), NullsAndText(a, x);
    TwiceConforms(a, x);
    NullsShowNothing(a, x);
    RenderedDescribesFields(files, doc, shape, 0, 0);
    NothingExtra(files, doc, Render(shape), shape, body);
    forall p | p in Flatten(files, doc, Render(shape), "", 0) && IsReported(p) ensures Accounted(body, "", 0, p) {
      TwiceDeclares(files, doc, a, x, p);
      MemberIsSeen(body, p);
    }
    NothingMissing(files, doc, Render(shape), body);
  }
}
