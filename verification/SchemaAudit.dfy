/** One route of `main` in `scripts/schema_drift.py`: the walks, the platform's settings, the derived kinds
    and the two filters, and what the settings change in the report. */
module SchemaAudit {
  import opened Options
  import opened Json
  import opened Text
  import opened Observation
  import opened SchemaRefs
  import opened SchemaDrift
  import opened SchemaVerdict
  import opened SchemaDetection

  /** What a platform is granted: top-level members a success omits, members the specification calls
      conditional, and members declared for this route beyond the specification. */
  datatype Settings = Settings(optionalTop: set<string>, conditional: set<string>, beyond: set<string>)

  const NONE := Settings({}, {}, {})

  /** `derived_for_kind` : the definition a kind names, if there is one that is not empty. */
  type Kinds = Json -> Option<Json>

  /** How many items are asked for their kind. */
  const KINDS := 3

  /** Taken out of what the schema declares. */
  predicate IsWaived(settings: Settings, p: string) {
    p[..IndexOf(p, '.')] in settings.optionalTop || p in settings.conditional
  }

  function Expected(files: Files, doc: Json, schema: Json, settings: Settings): (r: set<string>) {
    set p | p in Flatten(files, doc, schema, "", 0) && !IsWaived(settings, p)
  }

  // ---- derived kinds ------------------------------------------------------------------------

  /** The items of an answer: those under `value`, or the answer itself. */
  function ItemsIn(body: Json): (r: seq<Json>) {
    if !body.Obj? then [] else if "value" in body.members then ListAt(body.members, "value") else [body]
  }

  function ItemsPrefix(body: Json): (r: string) {
    if body.Obj? && "value" in body.members then "value[*]." else ""
  }

  function KindOf(item: Json): (r: Option<Json>) {
    if item.Obj? && "kind" in item.members && Truthy(item.members["kind"]) then Some(item.members["kind"]) else None
  }

  function DerivedOf(kinds: Kinds, item: Json): (r: Option<Json>) {
    if KindOf(item).Some? then kinds(KindOf(item).value) else None
  }

  /** The definitions the first `n` items name. */
  function Derived(kinds: Kinds, items: seq<Json>, n: nat): (r: seq<Json>)
    requires n <= |items|
  {
    if n == 0 then []
    else
      var d := DerivedOf(kinds, items[n - 1]);
      Derived(kinds, items, n - 1) + if d.Some? then [d.value] else []
  }

  function DerivedIn(kinds: Kinds, body: Json): (r: seq<Json>) {
    var items := ItemsIn(body);
    Derived(kinds, items, if |items| < KINDS then |items| else KINDS)
  }

  function FlattenAll(files: Files, doc: Json, schemas: seq<Json>, prefix: string): (r: set<string>) {
    if schemas == [] then {}
    else
      var n := |schemas| - 1;
      FlattenAll(files, doc, schemas[..n], prefix) + Flatten(files, doc, schemas[n], prefix, 0)
  }

  function OpaqueAll(files: Files, doc: Json, schemas: seq<Json>, prefix: string): (r: set<string>) {
    if schemas == [] then {}
    else
      var n := |schemas| - 1;
      OpaqueAll(files, doc, schemas[..n], prefix) + DeclaredOpaque(files, doc, schemas[n], prefix, 0)
  }

  // ---- one route ---------------------------------------------------------------------------------

  /** Declared besides what the schema declares. */
  function Added(files: Files, doc: Json, settings: Settings, kinds: Kinds, body: Json): (r: set<string>) {
    settings.beyond + FlattenAll(files, doc, DerivedIn(kinds, body), ItemsPrefix(body))
  }

  /** The report of one answer; none when nothing is left to expect. */
  function JudgeRoute(files: Files, doc: Json, schema: Json, settings: Settings, kinds: Kinds, body: Json)
    : (r: Option<Verdict>)
  {
    var expected := Expected(files, doc, schema, settings);
    if expected == {} then None
    else
      Some(Filtered(expected + Added(files, doc, settings, kinds, body), body,
                    DeclaredOpaque(files, doc, schema, "", 0) +
                    OpaqueAll(files, doc, DerivedIn(kinds, body), ItemsPrefix(body))))
  }

  /** The two filters. */
  function Filtered(declared: set<string>, body: Json, freeForm: set<string>): (r: Verdict) {
    var seen := Observed(body, "", 0, SAMPLE);
    Verdict(Missing(declared, seen, ObservedOpaque(body, "", 0, SAMPLE)), Extra(declared, seen, freeForm))
  }

  method Filter(declared: set<string>, body: Json, freeForm: set<string>) returns (r: Verdict)
    ensures r == Filtered(declared, body, freeForm)
  {
    var seen := Observe(body, "", 0, SAMPLE);
    var unobservable := ObserveOpaque(body, "", 0, SAMPLE);
    r := Verdict(Missing(declared, seen, unobservable), Extra(declared, seen, freeForm));
  }

  lemma FlattenOneMore(files: Files, doc: Json, schemas: seq<Json>, d: Json, prefix: string)
    ensures FlattenAll(files, doc, schemas + [d], prefix)
            == FlattenAll(files, doc, schemas, prefix) + Flatten(files, doc, d, prefix, 0)
    ensures OpaqueAll(files, doc, schemas + [d], prefix)
            == OpaqueAll(files, doc, schemas, prefix) + DeclaredOpaque(files, doc, d, prefix, 0)
  {
    var more := schemas + [d];
    assert more[..|more| - 1] == schemas;
  }

  lemma DerivedStep(kinds: Kinds, items: seq<Json>, i: nat)
    requires i < |items|
    ensures var d := DerivedOf(kinds, items[i]);
            Derived(kinds, items, i + 1) ==
            if d.Some? then Derived(kinds, items, i) + [d.value] else Derived(kinds, items, i)
  {
    assert Derived(kinds, items, i) + [] == Derived(kinds, items, i);
  }

  /** What the definitions declare and leave free-form. */
  ghost predicate Collected(files: Files, doc: Json, schemas: seq<Json>, prefix: string, paths: set<string>,
                            free: set<string>) {
    paths == FlattenAll(files, doc, schemas, prefix) && free == OpaqueAll(files, doc, schemas, prefix)
  }

  /** One turn of the loop. */
  method DeriveOne(files: Files, doc: Json, ghost schemas: seq<Json>, d: Json, prefix: string, paths0: set<string>,
                   free0: set<string>) returns (paths: set<string>, free: set<string>)
    requires Collected(files, doc, schemas, prefix, paths0, free0)
    ensures Collected(files, doc, schemas + [d], prefix, paths, free)
  {
    var more := FlattenLoop(files, doc, d, prefix, 0);
    var open := DeclaredOpaqueLoop(files, doc, d, prefix, 0);
    FlattenOneMore(files, doc, schemas, d, prefix);
    paths, free := paths0 + more, free0 + open;
  }

  /** The loop over the first `n` items. */
  method DeriveLoop(files: Files, doc: Json, kinds: Kinds, items: seq<Json>, n: nat, prefix: string)
    returns (paths: set<string>, free: set<string>)
    requires n <= |items|
    ensures Collected(files, doc, Derived(kinds, items, n), prefix, paths, free)
  {
    paths, free := {}, {};
    ghost var schemas: seq<Json> := [];
    for i := 0 to n
      invariant schemas == Derived(kinds, items, i)
      invariant Collected(files, doc, schemas, prefix, paths, free)
    {
      var d := DerivedOf(kinds, items[i]);
      if d.Some? {
        paths, free := DeriveOne(files, doc, schemas, d.value, prefix, paths, free);
        schemas := schemas + [d.value];
      }
      assert schemas == Derived(kinds, items, i + 1) by {
        DerivedStep(kinds, items, i);
      }
    }
  }

  method Expect(files: Files, doc: Json, schema: Json, settings: Settings) returns (expected: set<string>)
    ensures expected == Expected(files, doc, schema, settings)
  {
    var flat := FlattenLoop(files, doc, schema, "", 0);
    expected := set p | p in flat && !IsWaived(settings, p);
  }

  method Add(files: Files, doc: Json, settings: Settings, kinds: Kinds, body: Json)
    returns (added: set<string>, free: set<string>)
    ensures added == Added(files, doc, settings, kinds, body)
    ensures free == OpaqueAll(files, doc, DerivedIn(kinds, body), ItemsPrefix(body))
  {
    var items := ItemsIn(body);
    var n := if |items| < KINDS then |items| else KINDS;
    var paths;
    paths, free := DeriveLoop(files, doc, kinds, items, n, ItemsPrefix(body));
    added := settings.beyond + paths;
  }

  method Audit(files: Files, doc: Json, schema: Json, settings: Settings, kinds: Kinds, body: Json)
    returns (r: Option<Verdict>)
    ensures r == JudgeRoute(files, doc, schema, settings, kinds, body)
  {
    var expected := Expect(files, doc, schema, settings);
    if expected == {} {
      return None;
    }
    var freeForm := DeclaredOpaqueLoop(files, doc, schema, "", 0);
    var added, free := Add(files, doc, settings, kinds, body);
    var verdict := Filter(expected + added, body, freeForm + free);
    r := Some(verdict);
  }

  // ---- what the settings change ------------------------------------------------------------------------

  lemma MissingOf(declared: set<string>, body: Json, p: string)
    ensures p in Missing(declared, Observed(body, "", 0, SAMPLE), ObservedOpaque(body, "", 0, SAMPLE)) <==>
            p in declared && IsReported(p) && !Accounted(body, "", 0, p)
  {
  }

  lemma ExtraOf(declared: set<string>, seen: set<string>, freeForm: set<string>, p: string)
    ensures p in Extra(declared, seen, freeForm) <==>
            p in seen && IsReportedExtra(p) && p !in declared && !Under(p, freeForm)
  {
  }

  lemma UnderEither(p: string, a: set<string>, b: set<string>)
    ensures Under(p, a + b) <==> Under(p, a) || Under(p, b)
  {
    if Under(p, a) {
      UnderMore(p, a, a + b);
    }
    if Under(p, b) {
      UnderMore(p, b, a + b);
    }
  }

  /** Against the plain verdict, the route's report misses what is not waived and what was added, and it has
      extra what neither the additions nor the derived kinds explain, together with every waived member that
      the answer does carry. */
  lemma SettingsExactly(files: Files, doc: Json, schema: Json, settings: Settings, kinds: Kinds, body: Json, p: string)
    requires JudgeRoute(files, doc, schema, settings, kinds, body).Some?
    ensures var plain := Judge(files, doc, schema, body);
            var route := JudgeRoute(files, doc, schema, settings, kinds, body).value;
            var added := Added(files, doc, settings, kinds, body);
            var derived := OpaqueAll(files, doc, DerivedIn(kinds, body), ItemsPrefix(body));
            (p in route.missing <==>
               (p in plain.missing && !IsWaived(settings, p)) ||
               (p in added && IsReported(p) && !Accounted(body, "", 0, p))) &&
            (p in route.extra <==>
               p !in added && !Under(p, derived) &&
               (p in plain.extra ||
                (p in Observed(body, "", 0, SAMPLE) && IsReportedExtra(p) && IsWaived(settings, p) &&
                                     !Under(p, DeclaredOpaque(files, doc, schema, "", 0)))))
  {
    var seen := Observed(body, "", 0, SAMPLE);
    var flat := Flatten(files, doc, schema, "", 0);
    var free := DeclaredOpaque(files, doc, schema, "", 0);
    var derived := OpaqueAll(files, doc, DerivedIn(kinds, body), ItemsPrefix(body));
    var declared := Expected(files, doc, schema, settings) + Added(files, doc, settings, kinds, body);
    MissingOf(declared, body, p);
    MissingOf(flat, body, p);
    ExtraOf(declared, seen, free + derived, p);
    ExtraOf(flat, seen, free, p);
    UnderEither(p, free, derived);
  }

  /** Without settings and kinds it is the plain verdict. */
  lemma PlainRoute(files: Files, doc: Json, schema: Json, body: Json)
    requires Flatten(files, doc, schema, "", 0) != {}
    ensures JudgeRoute(files, doc, schema, NONE, _ => None, body) == Some(Judge(files, doc, schema, body))
  {
    var flat, free := Flatten(files, doc, schema, "", 0), DeclaredOpaque(files, doc, schema, "", 0);
    NothingAdded(files, doc, body);
    assert Expected(files, doc, schema, NONE) == flat;
    assert flat + {} == flat && free + {} == free;
  }

  lemma NothingAdded(files: Files, doc: Json, body: Json)
    ensures Added(files, doc, NONE, _ => None, body) == {}
    ensures OpaqueAll(files, doc, DerivedIn(_ => None, body), ItemsPrefix(body)) == {}
  {
    NothingDerived(ItemsIn(body), if |ItemsIn(body)| < KINDS then |ItemsIn(body)| else KINDS);
  }

  lemma {:induction false} NothingDerived(items: seq<Json>, n: nat)
    requires n <= |items|
    ensures Derived(_ => None, items, n) == []
    decreases n
  {
    if n != 0 {
      NothingDerived(items, n - 1);
    }
  }
}
