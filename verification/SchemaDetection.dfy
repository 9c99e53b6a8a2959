/** What the verdict of `scripts/schema_drift.py` catches: at every depth, through objects and through lists,
    dropping a field from the objects sampled at its place changes the report by exactly the declared paths
    at and below it, and adding one the schema does not declare by exactly the paths it shows. */
module SchemaDetection {
  import opened Json
  import opened Text
  import opened Observation
  import opened SchemaRefs
  import opened SchemaDrift
  import opened SchemaVerdict

  /** A field name that cannot be mistaken for a path. */
  predicate IsPlain(name: string) {
    '.' !in name && '[' !in name
  }

  predicate ArePlain(names: set<string>) {
    forall name :: name in names ==> IsPlain(name)
  }

  /** A field on the way, whose value is an object, or a list of them. */
  datatype Step = Step(name: string, list: bool)

  /** No name on the way, and not the field, can be mistaken for a path. */
  predicate IsPath(way: seq<Step>, field: string) {
    IsPlain(field) && forall i :: 0 <= i < |way| ==> IsPlain(way[i].name)
  }

  function Mark(step: Step): (r: string) {
    if step.list then "[*]." else "."
  }

  /** The path of the field, dotted, lists as `[*]`. */
  function Spell(way: seq<Step>, field: string): (r: string) {
    if way == [] then field else way[0].name + Mark(way[0]) + Spell(way[1..], field)
  }

  function First(way: seq<Step>, field: string): (r: string) {
    if way == [] then field else way[0].name
  }

  /** Nothing on the way is null or an empty list; an object may lack it. */
  predicate Open(v: Json, way: seq<Step>)
    decreases |way|, 1
  {
    if !v.Obj? then v.IsLeaf()
    else
      ArePlain(v.members.Keys) &&
      (way != [] && way[0].name in v.members ==> OpenBelow(v.members[way[0].name], way))
  }

  predicate OpenBelow(x: Json, way: seq<Step>)
    requires way != []
    decreases |way|, 0
  {
    if way[0].list then
      x.Arr? && x.items != [] && forall i :: 0 <= i < |x.items| && i < SAMPLE ==> Open(x.items[i], way[1..])
    else x != Null && Open(x, way[1..])
  }

  /** The answer without the field, in every object that is sampled at its place. */
  function Without(v: Json, way: seq<Step>, field: string): (r: Json)
    decreases |way|, 1
  {
    if !v.Obj? then v
    else if way == [] then Obj(v.members - {field})
    else if way[0].name !in v.members then v
    else Obj(v.members[way[0].name := WithoutBelow(v.members[way[0].name], way, field)])
  }

  function WithoutBelow(x: Json, way: seq<Step>, field: string): (r: Json)
    requires way != []
    decreases |way|, 0
  {
    if !way[0].list then Without(x, way[1..], field)
    else if !x.Arr? then x
    else
      Arr(seq(|x.items|, i requires 0 <= i < |x.items| =>
                           if i < SAMPLE then Without(x.items[i], way[1..], field) else x.items[i]))
  }

  /** None of the objects sampled at its place has the field. */
  predicate Lacks(v: Json, way: seq<Step>, field: string)
    decreases |way|, 1
  {
    v.Obj? ==>
      if way == [] then field !in v.members
      else way[0].name in v.members ==> LacksBelow(v.members[way[0].name], way, field)
  }

  predicate LacksBelow(x: Json, way: seq<Step>, field: string)
    requires way != []
    decreases |way|, 0
  {
    if !way[0].list then Lacks(x, way[1..], field)
    else x.Arr? ==> forall i :: 0 <= i < |x.items| && i < SAMPLE ==> Lacks(x.items[i], way[1..], field)
  }

  /** One of them has it. */
  predicate Carries(v: Json, way: seq<Step>, field: string)
    decreases |way|, 1
  {
    v.Obj? && First(way, field) in v.members && (way != [] ==> CarriesBelow(v.members[way[0].name], way, field))
  }

  predicate CarriesBelow(x: Json, way: seq<Step>, field: string)
    requires way != []
    decreases |way|, 0
  {
    if !way[0].list then Carries(x, way[1..], field)
    else x.Arr? && exists i :: 0 <= i < |x.items| && i < SAMPLE && Carries(x.items[i], way[1..], field)
  }

  /** How many levels the value walk goes down on the way. */
  function Level(way: seq<Step>): (r: nat) {
    if way == [] then 0 else (if way[0].list then 2 else 1) + Level(way[1..])
  }

  predicate NoLists(way: seq<Step>) {
    forall i :: 0 <= i < |way| ==> !way[i].list
  }

  /** An object with members of its own. */
  predicate IsRecord(sub: Json) {
    sub.Obj? && !TypeIs(sub.members, "array") && ("properties" in sub.members || "allOf" in sub.members)
  }

  /** The schema declares the objects and lists on the way, and the field. */
  predicate Declares(files: Files, doc: Json, schema: Json, way: seq<Step>, field: string, depth: nat)
    decreases |way|, 1
  {
    var props := Props(files, doc, schema, depth);
    First(way, field) in props &&
    (way != [] ==>
       depth <= FLATTEN_DEPTH && DeclaresBelow(files, doc, Target(files, doc, props[way[0].name]), way, field, depth))
  }

  predicate DeclaresBelow(files: Files, doc: Json, sub: Json, way: seq<Step>, field: string, depth: nat)
    requires way != []
    decreases |way|, 0
  {
    if way[0].list then IsList(sub) && Declares(files, doc, ItemsOf(sub.members), way[1..], field, depth + 1)
    else IsRecord(sub) && Declares(files, doc, sub, way[1..], field, depth + 1)
  }

  /** The schema declares the objects and lists on the way, with their fields, and not the field. */
  predicate Omits(files: Files, doc: Json, schema: Json, way: seq<Step>, field: string, depth: nat)
    decreases |way|, 1
  {
    var props := Props(files, doc, schema, depth);
    ArePlain(props.Keys) &&
    if way == [] then field !in props
    else
      way[0].name in props && depth <= FLATTEN_DEPTH &&
      OmitsBelow(files, doc, Target(files, doc, props[way[0].name]), way, field, depth)
  }

  predicate OmitsBelow(files: Files, doc: Json, sub: Json, way: seq<Step>, field: string, depth: nat)
    requires way != []
    decreases |way|, 0
  {
    if way[0].list then
      IsList(sub) && Resolved(ListItems(files, doc, sub)) && !BareItems(ListItems(files, doc, sub)) &&
      Omits(files, doc, ListItems(files, doc, sub), way[1..], field, depth + 1)
    else IsRecord(sub) && Omits(files, doc, sub, way[1..], field, depth + 1)
  }

  // ---- paths as text --------------------------------------------------------------

  lemma StopsAt(p: string, prefix: string, m: string)
    requires Below(p, prefix + m)
    ensures |p| >= |prefix| + |m| && forall i :: 0 <= i < |m| ==> p[|prefix| + i] == m[i]
    ensures |p| > |prefix| + |m| ==> p[|prefix| + |m|] in {'.', '['}
  {
    assert prefix + m <= p;
    forall i | 0 <= i < |m| ensures p[|prefix| + i] == m[i] {
      assert (prefix + m)[|prefix| + i] == m[i];
    }
  }

  lemma LongerIsNotPlain(p: string, prefix: string, m: string, n: string)
    requires Below(p, prefix + m) && Below(p, prefix + n) && |m| < |n|
    ensures !IsPlain(n)
  {
    StopsAt(p, prefix, m);
    StopsAt(p, prefix, n);
    assert n[|m|] in n;
  }

  /** One text lies below one name only. */
  lemma SameName(p: string, prefix: string, m: string, n: string)
    requires IsPlain(m) && IsPlain(n) && Below(p, prefix + m) && Below(p, prefix + n)
    ensures m == n
  {
    StopsAt(p, prefix, m);
    StopsAt(p, prefix, n);
    if |m| < |n| {
      LongerIsNotPlain(p, prefix, m, n);
    } else if |n| < |m| {
      LongerIsNotPlain(p, prefix, n, m);
    }
  }

  lemma BelowThrough(p: string, o: string, at: string)
    requires Below(p, o) && Below(o, at)
    ensures Below(p, at)
  {
    assert o <= p;
  }

  /** Of two texts a path lies below, one lies below the other. */
  lemma BelowBoth(p: string, o: string, at: string)
    requires Below(p, o) && Below(p, at)
    ensures Below(o, at) || Below(at, o)
  {
    assert o <= p && at <= p;
    if |o| <= |at| {
      assert at[..|o|] == p[..|o|] == o;
      if |o| < |at| {
        NextIsMark(p, o);
        assert at[|o|] == p[|o|];
        MarkMakesBelow(at, o);
      }
    } else {
      assert o[..|at|] == p[..|at|] == at;
      NextIsMark(p, at);
      assert o[|at|] == p[|at|];
      MarkMakesBelow(o, at);
    }
  }

  lemma NextIsMark(p: string, o: string)
    requires Below(p, o) && |o| < |p|
    ensures o <= p && p[|o|] in {'.', '['}
  {
  }

  lemma MarkMakesBelow(p: string, o: string)
    requires o <= p && |o| < |p| && p[|o|] in {'.', '['}
    ensures Below(p, o)
  {
    var mark := [p[|o|]];
    assert p[..|o| + 1] == o + mark;
  }

  lemma Regroup(prefix: string, name: string, mark: string, rest: string)
    ensures prefix + (name + mark + rest) == prefix + name + mark + rest
  {
  }

  lemma MarkIsBelow(path: string, step: Step, rest: string)
    ensures Below(path + Mark(step) + rest, path) && |path + Mark(step) + rest| > |path|
  {
    var p := path + Mark(step) + rest;
    assert p[..|path|] == path;
    MarkMakesBelow(p, path);
  }

  /** The path lies below its first name. */
  lemma FirstName(prefix: string, way: seq<Step>, field: string)
    ensures Below(prefix + Spell(way, field), prefix + First(way, field))
    ensures way != [] ==>
              prefix + Spell(way, field) == prefix + way[0].name + Mark(way[0]) + Spell(way[1..], field) &&
              |prefix + Spell(way, field)| > |prefix + way[0].name|
  {
    if way != [] {
      Regroup(prefix, way[0].name, Mark(way[0]), Spell(way[1..], field));
      MarkIsBelow(prefix + way[0].name, way[0], Spell(way[1..], field));
    }
  }

  lemma ListMarkHasBracket(s: string)
    ensures EndsWith(s, "[*]") || Contains(s, "[*]") ==> '[' in s
  {
    if EndsWith(s, "[*]") {
      assert s[|s| - 3] == s[|s| - 3..][0] == '[';
    } else if i :| 0 <= i <= |s| && "[*]" <= s[i..] {
      assert s[i] == s[i..][0] == '[';
    }
  }

  /** What stands before the field. */
  lemma {:induction false} SpellEnds(way: seq<Step>, field: string) returns (q: string)
    ensures Spell(way, field) == q + field && IsPrefix(q)
    decreases |way|
  {
    if way == [] {
      q := "";
    } else {
      var rest := SpellEnds(way[1..], field);
      var start := way[0].name + Mark(way[0]);
      q := start + rest;
      assert start + (rest + field) == q + field;
      if rest == "" {
        assert q == start;
        PrefixesOf(way[0].name);
      } else {
        assert q[|q| - 1] == rest[|rest| - 1];
      }
    }
  }

  lemma PlainReads(field: string)
    requires IsPlain(field)
    ensures LastSegment(field) == field && !EndsWith(field, "[*]") && !Contains(field, "[*]")
  {
    AfterLastNone(field, '.');
    ListMarkHasBracket(field);
  }

  lemma SameLast(q: string, field: string)
    requires IsPrefix(q)
    ensures LastSegment(q + field) == LastSegment(field)
  {
    if q == "" {
      assert q + field == field;
    } else {
      var before := q[..|q| - 1];
      assert before + ['.'] + field == q + field;
      LastSegmentOver(before, field);
    }
  }

  /** Whether a path is reported is decided by the field. */
  lemma PathReads(way: seq<Step>, field: string)
    requires IsPath(way, field)
    ensures LastSegment(Spell(way, field)) == field && !Contains(field, "[*]")
    ensures IsReported(Spell(way, field)) <==> field != "nextLink"
  {
    var q := SpellEnds(way, field);
    SameLast(q, field);
    ReportedByName(q, field);
    PlainReads(field);
  }

  // ---- what one member contributes ----------------------------------------------------

  /** What is observed is observed under one member. */
  lemma SeenBelow(v: Json, prefix: string, level: nat, p: string) returns (k: string)
    requires v.Obj? && p in Observed(v, prefix, level, SAMPLE)
    ensures k in v.members && Below(p, prefix + k) && level <= OBSERVE_DEPTH
    ensures p == prefix + k || p in Observed(v.members[k], prefix + k + ".", level + 1, SAMPLE)
  {
    k :| k in v.members && p in ObservedMember(v, k, prefix, level, SAMPLE);
    if p != prefix + k {
      ObservedStaysBelow(v.members[k], prefix + k, level + 1, SAMPLE, p);
    }
  }

  lemma SeenUnder(v: Json, k: string, prefix: string, level: nat, p: string)
    requires v.Obj? && k in v.members && level <= OBSERVE_DEPTH
    requires p == prefix + k || p in Observed(v.members[k], prefix + k + ".", level + 1, SAMPLE)
    ensures p in Observed(v, prefix, level, SAMPLE)
  {
    MemberContributes(v, k, prefix, level);
    assert p in ObservedMember(v, k, prefix, level, SAMPLE);
  }

  lemma OpaqueUnderItem(v: Json, prefix: string, level: nat, o: string) returns (i: nat)
    requires v.Arr? && v.items != [] && o in ObservedOpaque(v, prefix, level, SAMPLE)
    ensures level <= OBSERVE_DEPTH && i < |v.items| && i < SAMPLE
    ensures o in ObservedOpaque(v.items[i], ListPrefix(prefix), level + 1, SAMPLE)
  {
    assert o in OpaqueItems(v, |v.items|, prefix, level, SAMPLE);
    i :| 0 <= i < |v.items| && i < SAMPLE && o in OpaqueItem(v, i, prefix, level, SAMPLE);
  }

  lemma OpaqueUnderMember(v: Json, prefix: string, level: nat, o: string) returns (k: string)
    requires v.Obj? && o in ObservedOpaque(v, prefix, level, SAMPLE)
    ensures k in v.members && level <= OBSERVE_DEPTH
    ensures (v.members[k] == Null && o == prefix + k) ||
            o in ObservedOpaque(v.members[k], prefix + k + ".", level + 1, SAMPLE)
  {
    k :| k in v.members && o in OpaqueMember(v, k, prefix, level, SAMPLE);
  }

  lemma OpaqueUnder(v: Json, k: string, prefix: string, level: nat, o: string)
    requires v.Obj? && k in v.members && level <= OBSERVE_DEPTH
    requires (v.members[k] == Null && o == prefix + k) ||
             o in ObservedOpaque(v.members[k], prefix + k + ".", level + 1, SAMPLE)
    ensures o in ObservedOpaque(v, prefix, level, SAMPLE)
  {
    MemberContributes(v, k, prefix, level);
    assert o in OpaqueMember(v, k, prefix, level, SAMPLE);
  }

  lemma {:induction false} OpaqueStaysBelow(v: Json, at: string, level: nat, o: string)
    requires o in ObservedOpaque(v, at + ".", level, SAMPLE)
    ensures Below(o, at)
    decreases v
  {
    var prefix := at + ".";
    if v.Obj? {
      var k := OpaqueUnderMember(v, prefix, level, o);
      if o != prefix + k {
        OpaqueStaysBelow(v.members[k], prefix + k, level + 1, o);
      }
    } else {
      ListPrefixOf(at);
      assert at + "[" <= at + "[*]";
      if v.items != [] {
        var i := OpaqueUnderItem(v, prefix, level, o);
        OpaqueStaysBelow(v.items[i], at + "[*]", level + 1, o);
        BelowThrough(o, at + "[*]", at);
      }
    }
  }

  lemma OpaqueBelow(v: Json, prefix: string, level: nat, o: string) returns (k: string)
    requires v.Obj? && o in ObservedOpaque(v, prefix, level, SAMPLE)
    ensures k in v.members && level <= OBSERVE_DEPTH && Below(o, prefix + k)
    ensures (v.members[k] == Null && o == prefix + k) ||
            o in ObservedOpaque(v.members[k], prefix + k + ".", level + 1, SAMPLE)
  {
    k := OpaqueUnderMember(v, prefix, level, o);
    if v.members[k] != Null {
      OpaqueStaysBelow(v.members[k], prefix + k, level + 1, o);
    }
  }

  /** What a list shows, one of its sampled items shows. */
  lemma SeenAmong(v: Json, path: string, level: nat, p: string) returns (i: nat)
    requires v.Arr? && p in Observed(v, path + ".", level, SAMPLE)
    ensures level <= OBSERVE_DEPTH && i < |v.items| && i < SAMPLE
    ensures p in Observed(v.items[i], path + "[*].", level + 1, SAMPLE)
  {
    ListPrefixOf(path);
    assert p in ObservedItems(v, |v.items|, path + ".", level, SAMPLE);
    i :| 0 <= i < |v.items| && i < SAMPLE && p in ObservedItem(v, i, path + ".", level, SAMPLE);
  }

  lemma SeenFrom(v: Json, i: nat, path: string, level: nat, p: string)
    requires v.Arr? && i < |v.items| && i < SAMPLE && level <= OBSERVE_DEPTH
    requires p in Observed(v.items[i], path + "[*].", level + 1, SAMPLE)
    ensures p in Observed(v, path + ".", level, SAMPLE)
  {
    ListPrefixOf(path);
    ItemContributes(v, i, path + ".", level);
  }

  lemma OpaqueAmong(v: Json, path: string, level: nat, o: string) returns (i: nat)
    requires v.Arr? && v.items != [] && o in ObservedOpaque(v, path + ".", level, SAMPLE)
    ensures level <= OBSERVE_DEPTH && i < |v.items| && i < SAMPLE
    ensures o in ObservedOpaque(v.items[i], path + "[*].", level + 1, SAMPLE)
  {
    ListPrefixOf(path);
    i := OpaqueUnderItem(v, path + ".", level, o);
  }

  lemma OpaqueFrom(v: Json, i: nat, path: string, level: nat, o: string)
    requires v.Arr? && i < |v.items| && i < SAMPLE && level <= OBSERVE_DEPTH
    requires o in ObservedOpaque(v.items[i], path + "[*].", level + 1, SAMPLE)
    ensures o in ObservedOpaque(v, path + ".", level, SAMPLE)
  {
    ListPrefixOf(path);
    ItemContributes(v, i, path + ".", level);
  }

  // ---- with and without one field --------------------------------------------------------

  lemma RestIsPath(way: seq<Step>, field: string)
    requires IsPath(way, field) && way != []
    ensures IsPath(way[1..], field) && IsPlain(way[0].name)
  {
  }

  lemma FirstIsPlain(way: seq<Step>, field: string)
    requires IsPath(way, field)
    ensures IsPlain(First(way, field))
  {
  }

  /** Text below a path lies below its first name. */
  lemma BelowFirst(p: string, prefix: string, way: seq<Step>, field: string)
    requires Below(p, prefix + Spell(way, field))
    ensures Below(p, prefix + First(way, field))
    ensures way != [] ==> p != prefix + way[0].name
    ensures way != [] ==> Below(p, prefix + way[0].name + Mark(way[0]) + Spell(way[1..], field))
  {
    FirstName(prefix, way, field);
    BelowThrough(p, prefix + Spell(way, field), prefix + First(way, field));
    BelowIsLonger(p, prefix + Spell(way, field));
  }

  lemma PastFirst(p: string, prefix: string, way: seq<Step>, field: string)
    requires way != [] && Below(p, prefix + way[0].name + Mark(way[0]) + Spell(way[1..], field))
    ensures Below(p, prefix + Spell(way, field))
  {
    FirstName(prefix, way, field);
  }

  lemma BelowIsLonger(p: string, o: string)
    requires Below(p, o)
    ensures |o| <= |p| && o <= p
  {
  }

  /** What is left without the field is what does not lie below it. */
  lemma {:induction false} SeenWithout(v: Json, way: seq<Step>, field: string, prefix: string, level: nat, p: string)
    requires IsPath(way, field) && Open(v, way)
    ensures p in Observed(Without(v, way, field), prefix, level, SAMPLE)
       <==> p in Observed(v, prefix, level, SAMPLE) && !Below(p, prefix + Spell(way, field))
    decreases |way|, 2
  {
    if v.Obj? {
      var w := Without(v, way, field);
      if p in Observed(w, prefix, level, SAMPLE) {
        var m := SeenBelow(w, prefix, level, p);
        StillSeen(v, way, field, prefix, level, p, m);
      }
      if p in Observed(v, prefix, level, SAMPLE) && !Below(p, prefix + Spell(way, field)) {
        var m := SeenBelow(v, prefix, level, p);
        SeenAsWell(v, way, field, prefix, level, p, m);
      }
    }
  }

  lemma {:induction false} StillSeen(v: Json, way: seq<Step>, field: string, prefix: string, level: nat, p: string,
                                     m: string)
    requires IsPath(way, field) && v.Obj? && Open(v, way) && level <= OBSERVE_DEPTH
    requires var w := Without(v, way, field);
             m in w.members && Below(p, prefix + m) &&
             (p == prefix + m || p in Observed(w.members[m], prefix + m + ".", level + 1, SAMPLE))
    ensures p in Observed(v, prefix, level, SAMPLE) && !Below(p, prefix + Spell(way, field))
    decreases |way|, 1
  {
    FirstIsPlain(way, field);
    if Below(p, prefix + Spell(way, field)) {
      BelowFirst(p, prefix, way, field);
      SameName(p, prefix, m, First(way, field));
    }
    if m == First(way, field) && way != [] && p != prefix + m {
      RestIsPath(way, field);
      if Below(p, prefix + Spell(way, field)) {
        BelowFirst(p, prefix, way, field);
      }
      SeenWithoutBelow(v.members[m], way, field, prefix + m, level + 1, p);
    }
    SeenUnder(v, m, prefix, level, p);
  }

  lemma {:induction false} SeenAsWell(v: Json, way: seq<Step>, field: string, prefix: string, level: nat, p: string,
                                      m: string)
    requires IsPath(way, field) && v.Obj? && Open(v, way) && level <= OBSERVE_DEPTH
    requires !Below(p, prefix + Spell(way, field))
    requires m in v.members && Below(p, prefix + m)
    requires (p == prefix + m || p in Observed(v.members[m], prefix + m + ".", level + 1, SAMPLE))
    ensures p in Observed(Without(v, way, field), prefix, level, SAMPLE)
    decreases |way|, 1
  {
    FirstName(prefix, way, field);
    if m == First(way, field) && way != [] && p != prefix + m {
      RestIsPath(way, field);
      if Below(p, prefix + m + Mark(way[0]) + Spell(way[1..], field)) {
        PastFirst(p, prefix, way, field);
      }
      SeenWithoutBelow(v.members[m], way, field, prefix + m, level + 1, p);
    }
    SeenUnder(Without(v, way, field), m, prefix, level, p);
  }

  lemma {:induction false} SeenWithoutBelow(x: Json, way: seq<Step>, field: string, path: string, level: nat, p: string)
    requires way != [] && IsPath(way[1..], field) && OpenBelow(x, way)
    ensures p in Observed(WithoutBelow(x, way, field), path + ".", level, SAMPLE)
       <==> p in Observed(x, path + ".", level, SAMPLE) && !Below(p, path + Mark(way[0]) + Spell(way[1..], field))
    decreases |way|, 0
  {
    if way[0].list {
      SeenWithoutList(x, way, field, path, level, p);
    } else {
      SeenWithout(x, way[1..], field, path + ".", level, p);
    }
  }

  lemma {:induction false} SeenWithoutList(x: Json, way: seq<Step>, field: string, path: string, level: nat, p: string)
    requires way != [] && IsPath(way[1..], field) && OpenBelow(x, way) && way[0].list
    ensures p in Observed(WithoutBelow(x, way, field), path + ".", level, SAMPLE)
       <==> p in Observed(x, path + ".", level, SAMPLE) && !Below(p, path + "[*]." + Spell(way[1..], field))
    decreases |way| - 1, 3
  {
    var w := WithoutBelow(x, way, field);
    if p in Observed(w, path + ".", level, SAMPLE) {
      var i := SeenAmong(w, path, level, p);
      SeenWithout(x.items[i], way[1..], field, path + "[*].", level + 1, p);
      SeenFrom(x, i, path, level, p);
    }
    if p in Observed(x, path + ".", level, SAMPLE) && !Below(p, path + "[*]." + Spell(way[1..], field)) {
      var i := SeenAmong(x, path, level, p);
      SeenWithout(x.items[i], way[1..], field, path + "[*].", level + 1, p);
      SeenFrom(w, i, path, level, p);
    }
  }

  lemma {:induction false} OpaqueWithout(v: Json, way: seq<Step>, field: string, prefix: string, level: nat, o: string)
    requires IsPath(way, field) && Open(v, way)
    ensures o in ObservedOpaque(Without(v, way, field), prefix, level, SAMPLE)
       <==> o in ObservedOpaque(v, prefix, level, SAMPLE) && !Below(o, prefix + Spell(way, field))
    decreases |way|, 2
  {
    if v.Obj? {
      var w := Without(v, way, field);
      if o in ObservedOpaque(w, prefix, level, SAMPLE) {
        var m := OpaqueBelow(w, prefix, level, o);
        StillOpaque(v, way, field, prefix, level, o, m);
      }
      if o in ObservedOpaque(v, prefix, level, SAMPLE) && !Below(o, prefix + Spell(way, field)) {
        var m := OpaqueBelow(v, prefix, level, o);
        OpaqueAsWell(v, way, field, prefix, level, o, m);
      }
    }
  }

  lemma {:induction false} StillOpaque(v: Json, way: seq<Step>, field: string, prefix: string, level: nat, o: string,
                                     m: string)
    requires IsPath(way, field) && v.Obj? && Open(v, way) && level <= OBSERVE_DEPTH
    requires var w := Without(v, way, field);
             m in w.members && Below(o, prefix + m) &&
             ((w.members[m] == Null && o == prefix + m) ||
              o in ObservedOpaque(w.members[m], prefix + m + ".", level + 1, SAMPLE))
    ensures o in ObservedOpaque(v, prefix, level, SAMPLE) && !Below(o, prefix + Spell(way, field))
    decreases |way|, 1
  {
    FirstIsPlain(way, field);
    if Below(o, prefix + Spell(way, field)) {
      BelowFirst(o, prefix, way, field);
      SameName(o, prefix, m, First(way, field));
    }
    if m == First(way, field) && way != [] {
      RestIsPath(way, field);
      if Below(o, prefix + Spell(way, field)) {
        BelowFirst(o, prefix, way, field);
      }
      OpaqueWithoutBelow(v.members[m], way, field, prefix + m, level + 1, o);
    }
    OpaqueUnder(v, m, prefix, level, o);
  }

  lemma {:induction false} OpaqueAsWell(v: Json, way: seq<Step>, field: string, prefix: string, level: nat, o: string,
                                      m: string)
    requires IsPath(way, field) && v.Obj? && Open(v, way) && level <= OBSERVE_DEPTH
    requires !Below(o, prefix + Spell(way, field))
    requires m in v.members && Below(o, prefix + m)
    requires ((v.members[m] == Null && o == prefix + m) ||
              o in ObservedOpaque(v.members[m], prefix + m + ".", level + 1, SAMPLE))
    ensures o in ObservedOpaque(Without(v, way, field), prefix, level, SAMPLE)
    decreases |way|, 1
  {
    FirstName(prefix, way, field);
    if m == First(way, field) && way != [] {
      RestIsPath(way, field);
      if Below(o, prefix + m + Mark(way[0]) + Spell(way[1..], field)) {
        PastFirst(o, prefix, way, field);
      }
      OpaqueWithoutBelow(v.members[m], way, field, prefix + m, level + 1, o);
    }
    OpaqueUnder(Without(v, way, field), m, prefix, level, o);
  }

  lemma {:induction false} OpaqueWithoutBelow(x: Json, way: seq<Step>, field: string, path: string, level: nat,
                                              o: string)
    requires way != [] && IsPath(way[1..], field) && OpenBelow(x, way)
    ensures o in ObservedOpaque(WithoutBelow(x, way, field), path + ".", level, SAMPLE)
       <==> o in ObservedOpaque(x, path + ".", level, SAMPLE) && !Below(o, path + Mark(way[0]) + Spell(way[1..], field))
    decreases |way|, 0
  {
    if way[0].list {
      OpaqueWithoutList(x, way, field, path, level, o);
    } else {
      OpaqueWithout(x, way[1..], field, path + ".", level, o);
    }
  }

  lemma {:induction false} OpaqueWithoutList(x: Json, way: seq<Step>, field: string, path: string, level: nat,
                                             o: string)
    requires way != [] && IsPath(way[1..], field) && OpenBelow(x, way) && way[0].list
    ensures o in ObservedOpaque(WithoutBelow(x, way, field), path + ".", level, SAMPLE)
       <==> o in ObservedOpaque(x, path + ".", level, SAMPLE) && !Below(o, path + "[*]." + Spell(way[1..], field))
    decreases |way| - 1, 3
  {
    var w := WithoutBelow(x, way, field);
    if o in ObservedOpaque(w, path + ".", level, SAMPLE) {
      var i := OpaqueAmong(w, path, level, o);
      OpaqueWithout(x.items[i], way[1..], field, path + "[*].", level + 1, o);
      OpaqueFrom(x, i, path, level, o);
    }
    if o in ObservedOpaque(x, path + ".", level, SAMPLE) && !Below(o, path + "[*]." + Spell(way[1..], field)) {
      var i := OpaqueAmong(x, path, level, o);
      OpaqueWithout(x.items[i], way[1..], field, path + "[*].", level + 1, o);
      OpaqueFrom(w, i, path, level, o);
    }
  }

  /** What is on the way to a field excuses nothing below it. */
  lemma {:induction false} WayIsOpen(v: Json, way: seq<Step>, field: string, prefix: string, level: nat, o: string)
    requires IsPath(way, field) && Open(v, way) && o in ObservedOpaque(v, prefix, level, SAMPLE)
    requires Below(prefix + Spell(way, field), o)
    ensures o == prefix + Spell(way, field)
    decreases |way|, 1
  {
    var at := prefix + Spell(way, field);
    FirstName(prefix, way, field);
    FirstIsPlain(way, field);
    var m := OpaqueBelow(v, prefix, level, o);
    BelowThrough(at, o, prefix + m);
    SameName(at, prefix, m, First(way, field));
    if way == [] {
      BelowIsLonger(at, o);
      BelowIsLonger(o, at);
    } else {
      RestIsPath(way, field);
      WayIsOpenBelow(v.members[m], way, field, prefix + m, level + 1, o);
    }
  }

  lemma {:induction false} WayIsOpenBelow(x: Json, way: seq<Step>, field: string, path: string, level: nat, o: string)
    requires way != [] && IsPath(way[1..], field) && OpenBelow(x, way)
    requires o in ObservedOpaque(x, path + ".", level, SAMPLE)
    requires Below(path + Mark(way[0]) + Spell(way[1..], field), o)
    ensures o == path + Mark(way[0]) + Spell(way[1..], field)
    decreases |way|, 0
  {
    if way[0].list {
      var i := OpaqueAmong(x, path, level, o);
      WayIsOpen(x.items[i], way[1..], field, path + "[*].", level + 1, o);
    } else {
      WayIsOpen(x, way[1..], field, path + ".", level, o);
    }
  }

  /** A path is accounted for without the field exactly when it was with it and does not lie below it. */
  lemma AccountedWithout(v: Json, way: seq<Step>, field: string, p: string)
    requires IsPath(way, field) && Open(v, way)
    ensures Accounted(Without(v, way, field), "", 0, p) <==> Accounted(v, "", 0, p) && !Below(p, Spell(way, field))
  {
    var at := Spell(way, field);
    assert "" + at == at;
    SeenWithout(v, way, field, "", 0, p);
    if Under(p, ObservedOpaque(Without(v, way, field), "", 0, SAMPLE)) {
      ExcusedBefore(v, way, field, p);
    }
    if !Below(p, at) && Under(p, ObservedOpaque(v, "", 0, SAMPLE)) {
      ExcusedAfter(v, way, field, p);
    }
  }

  lemma ExcusedBefore(v: Json, way: seq<Step>, field: string, p: string)
    requires IsPath(way, field) && Open(v, way) && Under(p, ObservedOpaque(Without(v, way, field), "", 0, SAMPLE))
    ensures Under(p, ObservedOpaque(v, "", 0, SAMPLE)) && !Below(p, Spell(way, field))
  {
    var at := Spell(way, field);
    assert "" + at == at;
    var o :| o in ObservedOpaque(Without(v, way, field), "", 0, SAMPLE) && Below(p, o);
    OpaqueWithout(v, way, field, "", 0, o);
    UnderSome(p, o, ObservedOpaque(v, "", 0, SAMPLE));
    if Below(p, at) {
      BelowBoth(p, o, at);
      WayIsOpen(v, way, field, "", 0, o);
    }
  }

  lemma ExcusedAfter(v: Json, way: seq<Step>, field: string, p: string)
    requires IsPath(way, field) && Open(v, way)
    requires Under(p, ObservedOpaque(v, "", 0, SAMPLE)) && !Below(p, Spell(way, field))
    ensures Under(p, ObservedOpaque(Without(v, way, field), "", 0, SAMPLE))
  {
    var at := Spell(way, field);
    assert "" + at == at;
    var o :| o in ObservedOpaque(v, "", 0, SAMPLE) && Below(p, o);
    if Below(o, at) {
      BelowThrough(p, o, at);
    }
    OpaqueWithout(v, way, field, "", 0, o);
    UnderSome(p, o, ObservedOpaque(Without(v, way, field), "", 0, SAMPLE));
  }

  /** Without a field, in the objects sampled at its place, the report misses in addition exactly the declared
      paths at and below it, and what was extra there is gone. */
  lemma DroppedFieldExactly(files: Files, doc: Json, schema: Json, body: Json, way: seq<Step>, field: string)
    requires IsPath(way, field) && Open(body, way)
    ensures var before := Judge(files, doc, schema, body);
            var at := Spell(way, field);
            Judge(files, doc, schema, Without(body, way, field)) ==
            Verdict(before.missing + set p | p in Flatten(files, doc, schema, "", 0) && IsReported(p) && Below(p, at),
                    set p | p in before.extra && !Below(p, at))
  {
    var before, after := Judge(files, doc, schema, body), Judge(files, doc, schema, Without(body, way, field));
    var at := Spell(way, field);
    var added := set p | p in Flatten(files, doc, schema, "", 0) && IsReported(p) && Below(p, at);
    forall p ensures p in after.missing <==> p in before.missing + added {
      DroppedMisses(files, doc, schema, body, way, field, p);
    }
    forall p ensures p in after.extra <==> p in before.extra && !Below(p, at) {
      DroppedShows(files, doc, schema, body, way, field, p);
    }
    assert after.missing == before.missing + added;
  }

  lemma DroppedMisses(files: Files, doc: Json, schema: Json, body: Json, way: seq<Step>, field: string, p: string)
    requires IsPath(way, field) && Open(body, way)
    ensures p in Judge(files, doc, schema, Without(body, way, field)).missing <==>
            p in Judge(files, doc, schema, body).missing ||
            (p in Flatten(files, doc, schema, "", 0) && IsReported(p) && Below(p, Spell(way, field)))
  {
    MissingMeans(files, doc, schema, body, p);
    MissingMeans(files, doc, schema, Without(body, way, field), p);
    AccountedWithout(body, way, field, p);
  }

  lemma DroppedShows(files: Files, doc: Json, schema: Json, body: Json, way: seq<Step>, field: string, p: string)
    requires IsPath(way, field) && Open(body, way)
    ensures p in Judge(files, doc, schema, Without(body, way, field)).extra <==>
            p in Judge(files, doc, schema, body).extra && !Below(p, Spell(way, field))
  {
    assert "" + Spell(way, field) == Spell(way, field);
    ExtraMeans(files, doc, schema, body, p);
    ExtraMeans(files, doc, schema, Without(body, way, field), p);
    SeenWithout(body, way, field, "", 0, p);
  }

  lemma {:induction false} IsDeclared(files: Files, doc: Json, schema: Json, way: seq<Step>, field: string,
                                      prefix: string, depth: nat)
    requires Declares(files, doc, schema, way, field, depth)
    ensures prefix + Spell(way, field) in Flatten(files, doc, schema, prefix, depth)
    decreases |way|
  {
    var k := First(way, field);
    var props := Props(files, doc, schema, depth);
    FirstName(prefix, way, field);
    if way != [] {
      var sub := Target(files, doc, props[k]);
      if way[0].list {
        IsDeclared(files, doc, ItemsOf(sub.members), way[1..], field, prefix + k + "[*].", depth + 1);
      } else {
        IsDeclared(files, doc, sub, way[1..], field, prefix + k + ".", depth + 1);
      }
    }
    MemberDeclared(files, doc, schema, k, prefix, depth, prefix + Spell(way, field));
  }

  /** An answer that lacks the field is an answer without it. */
  lemma {:induction false} LacksIsWithout(v: Json, way: seq<Step>, field: string)
    requires Lacks(v, way, field)
    ensures Without(v, way, field) == v
    decreases |way|, 1
  {
    if v.Obj? {
      if way == [] {
        assert v.members - {field} == v.members;
      } else if way[0].name in v.members {
        var x := v.members[way[0].name];
        LacksBelowIsWithout(x, way, field);
        assert v.members[way[0].name := x] == v.members;
      }
    }
  }

  lemma {:induction false} LacksBelowIsWithout(x: Json, way: seq<Step>, field: string)
    requires way != [] && LacksBelow(x, way, field)
    ensures WithoutBelow(x, way, field) == x
    decreases |way|, 0
  {
    if !way[0].list {
      LacksIsWithout(x, way[1..], field);
    } else if x.Arr? {
      forall i | 0 <= i < |x.items| && i < SAMPLE ensures Without(x.items[i], way[1..], field) == x.items[i] {
        LacksIsWithout(x.items[i], way[1..], field);
      }
    }
  }

  /** A declared field that none of the objects sampled at its place has is reported missing. */
  lemma DroppedFieldIsMissing(files: Files, doc: Json, schema: Json, body: Json, way: seq<Step>, field: string)
    requires IsPath(way, field) && field != "nextLink"
    requires Declares(files, doc, schema, way, field, 0) && Open(body, way) && Lacks(body, way, field)
    ensures Spell(way, field) in Judge(files, doc, schema, body).missing
  {
    var p := Spell(way, field);
    assert "" + p == p;
    IsDeclared(files, doc, schema, way, field, "", 0);
    PathReads(way, field);
    LacksIsWithout(body, way, field);
    DroppedMisses(files, doc, schema, body, way, field, p);
  }

  // ---- a field that should not be there -----------------------------------------------

  lemma MemberIsSeen(body: Json, k: string)
    requires body.Obj? && k in body.members
    ensures k in Observed(body, "", 0, SAMPLE)
  {
    assert "" + k == k;
    assert k in ObservedMember(body, k, "", 0, SAMPLE);
    assert k in ObservedMembers(body, body.members.Keys, "", 0, SAMPLE);
  }

  lemma {:induction false} IsSeen(v: Json, way: seq<Step>, field: string, prefix: string, level: nat)
    requires Carries(v, way, field) && level + Level(way) <= OBSERVE_DEPTH
    ensures prefix + Spell(way, field) in Observed(v, prefix, level, SAMPLE)
    decreases |way|
  {
    FirstName(prefix, way, field);
    if way != [] {
      var path, x := prefix + way[0].name, v.members[way[0].name];
      if way[0].list {
        var i :| 0 <= i < |x.items| && i < SAMPLE && Carries(x.items[i], way[1..], field);
        IsSeen(x.items[i], way[1..], field, path + "[*].", level + 2);
        SeenFrom(x, i, path, level + 1, path + "[*]." + Spell(way[1..], field));
      } else {
        IsSeen(x, way[1..], field, path + ".", level + 1);
      }
    }
    SeenUnder(v, First(way, field), prefix, level, prefix + Spell(way, field));
  }

  /** What is declared is declared under one property. */
  lemma DeclaredBelow(files: Files, doc: Json, schema: Json, prefix: string, depth: nat, p: string) returns (k: string)
    requires p in Flatten(files, doc, schema, prefix, depth)
    ensures k in Props(files, doc, schema, depth) && Below(p, prefix + k)
    ensures p == prefix + k ||
            p in FlattenTarget(files, doc, Target(files, doc, Props(files, doc, schema, depth)[k]), prefix + k, depth)
  {
    var props := Props(files, doc, schema, depth);
    k :| k in props && p in FlattenMember(files, doc, k, props[k], prefix, depth);
    if p != prefix + k {
      TargetStaysBelow(files, doc, Target(files, doc, props[k]), prefix + k, depth, p);
    }
  }

  lemma FlattenOfItems(files: Files, doc: Json, node: Json, prefix: string, depth: nat)
    requires Resolved(Target(files, doc, node))
    ensures Flatten(files, doc, node, prefix, depth) == Flatten(files, doc, Target(files, doc, node), prefix, depth)
  {
    PropsOfItems(files, doc, node, depth);
  }

  /** Nothing is declared at or below a field that is not. */
  lemma {:induction false} NotDeclared(files: Files, doc: Json, schema: Json, way: seq<Step>, field: string,
                                       prefix: string, depth: nat, p: string)
    requires IsPath(way, field) && Omits(files, doc, schema, way, field, depth)
    requires p in Flatten(files, doc, schema, prefix, depth)
    ensures !Below(p, prefix + Spell(way, field))
    decreases |way|, 1
  {
    if Below(p, prefix + Spell(way, field)) {
      BelowFirst(p, prefix, way, field);
      FirstIsPlain(way, field);
      var k := DeclaredBelow(files, doc, schema, prefix, depth, p);
      SameName(p, prefix, k, First(way, field));
      RestIsPath(way, field);
      NotDeclaredBelow(files, doc, Target(files, doc, Props(files, doc, schema, depth)[k]), way, field, prefix + k,
                       depth, p);
    }
  }

  lemma {:induction false} NotDeclaredBelow(files: Files, doc: Json, sub: Json, way: seq<Step>, field: string,
                                            path: string, depth: nat, p: string)
    requires way != [] && IsPath(way[1..], field) && OmitsBelow(files, doc, sub, way, field, depth)
    requires p in FlattenTarget(files, doc, sub, path, depth)
    ensures !Below(p, path + Mark(way[0]) + Spell(way[1..], field))
    decreases |way|, 0
  {
    if way[0].list {
      FlattenOfItems(files, doc, ItemsOf(sub.members), path + "[*].", depth + 1);
      NotDeclared(files, doc, ListItems(files, doc, sub), way[1..], field, path + "[*].", depth + 1, p);
    } else {
      NotDeclared(files, doc, sub, way[1..], field, path + ".", depth + 1, p);
    }
  }

  lemma {:induction false} FreeFormKeepsPrefix(files: Files, doc: Json, schema: Json, prefix: string, depth: nat,
                                               o: string)
    requires o in DeclaredOpaque(files, doc, schema, prefix, depth)
    ensures prefix <= o
    decreases FLATTEN_DEPTH + 1 - depth, 1
  {
    var props := Props(files, doc, schema, depth);
    var k :| k in props && o in DeclaredOpaqueMember(files, doc, k, props[k], prefix, depth);
    FreeFormBelow(files, doc, Target(files, doc, props[k]), prefix + k, depth, o);
  }

  lemma {:induction false} FreeFormBelow(files: Files, doc: Json, sub: Json, path: string, depth: nat, o: string)
    requires o in DeclaredOpaqueTarget(files, doc, sub, path, depth)
    ensures Below(o, path)
    decreases FLATTEN_DEPTH + 1 - depth, 0
  {
    if TypeIs(sub.members, "array") {
      assert path + "[" <= path + "[*]" <= path + "[*].";
      var items := Target(files, doc, ItemsOf(sub.members));
      if !BareItems(items) {
        FreeFormKeepsPrefix(files, doc, items, path + "[*].", depth + 1, o);
      }
    } else if "properties" in sub.members || "allOf" in sub.members {
      FreeFormKeepsPrefix(files, doc, sub, path + ".", depth + 1, o);
    }
  }

  lemma FreeFormUnder(files: Files, doc: Json, schema: Json, prefix: string, depth: nat, o: string) returns (k: string)
    requires o in DeclaredOpaque(files, doc, schema, prefix, depth)
    ensures k in Props(files, doc, schema, depth) && Below(o, prefix + k)
    ensures o in DeclaredOpaqueTarget(files, doc, Target(files, doc, Props(files, doc, schema, depth)[k]), prefix + k,
                                      depth)
  {
    var props := Props(files, doc, schema, depth);
    k :| k in props && o in DeclaredOpaqueMember(files, doc, k, props[k], prefix, depth);
    FreeFormBelow(files, doc, Target(files, doc, props[k]), prefix + k, depth, o);
  }

  /** No free-form path lies at, above or below it. */
  lemma {:induction false} NotFreeForm(files: Files, doc: Json, schema: Json, way: seq<Step>, field: string,
                                       prefix: string, depth: nat, o: string)
    requires IsPath(way, field) && Omits(files, doc, schema, way, field, depth)
    requires o in DeclaredOpaque(files, doc, schema, prefix, depth)
    ensures !Below(o, prefix + Spell(way, field)) && !Below(prefix + Spell(way, field), o)
    decreases |way|, 1
  {
    var at := prefix + Spell(way, field);
    if Below(o, at) || Below(at, o) {
      var k := FreeFormUnder(files, doc, schema, prefix, depth, o);
      FreeFormAtFirst(prefix, way, field, k, o);
      RestIsPath(way, field);
      FirstName(prefix, way, field);
      NotFreeFormBelow(files, doc, Target(files, doc, Props(files, doc, schema, depth)[k]), way, field, prefix + k,
                       depth, o);
    }
  }

  lemma FreeFormAtFirst(prefix: string, way: seq<Step>, field: string, k: string, o: string)
    requires IsPath(way, field) && IsPlain(k) && Below(o, prefix + k)
    requires Below(o, prefix + Spell(way, field)) || Below(prefix + Spell(way, field), o)
    ensures k == First(way, field)
  {
    var at := prefix + Spell(way, field);
    FirstName(prefix, way, field);
    FirstIsPlain(way, field);
    if Below(o, at) {
      BelowThrough(o, at, prefix + First(way, field));
      SameName(o, prefix, k, First(way, field));
    } else {
      BelowThrough(at, o, prefix + k);
      SameName(at, prefix, k, First(way, field));
    }
  }

  lemma {:induction false} NotFreeFormBelow(files: Files, doc: Json, sub: Json, way: seq<Step>, field: string,
                                            path: string, depth: nat, o: string)
    requires way != [] && IsPath(way[1..], field) && OmitsBelow(files, doc, sub, way, field, depth)
    requires o in DeclaredOpaqueTarget(files, doc, sub, path, depth)
    ensures var at := path + Mark(way[0]) + Spell(way[1..], field);
            !Below(o, at) && !Below(at, o)
    decreases |way|, 0
  {
    if way[0].list {
      NotFreeForm(files, doc, ListItems(files, doc, sub), way[1..], field, path + "[*].", depth + 1, o);
    } else {
      NotFreeForm(files, doc, sub, way[1..], field, path + ".", depth + 1, o);
    }
  }

  lemma NotAllowed(files: Files, doc: Json, schema: Json, way: seq<Step>, field: string, p: string)
    requires IsPath(way, field) && Omits(files, doc, schema, way, field, 0) && Below(p, Spell(way, field))
    ensures !Allowed(files, doc, schema, "", 0, p)
  {
    var at := Spell(way, field);
    assert "" + at == at;
    if p in Flatten(files, doc, schema, "", 0) {
      NotDeclared(files, doc, schema, way, field, "", 0, p);
    }
    if o :| o in DeclaredOpaque(files, doc, schema, "", 0) && Below(p, o) {
      BelowBoth(p, o, at);
      NotFreeForm(files, doc, schema, way, field, "", 0, o);
    }
  }

  /** Through objects alone the value walk gets as far as the schema walk. */
  lemma {:induction false} OmitsIsShallow(files: Files, doc: Json, schema: Json, way: seq<Step>, field: string,
                                          depth: nat)
    requires Omits(files, doc, schema, way, field, depth) && depth <= FLATTEN_DEPTH + 1 && NoLists(way)
    ensures depth + Level(way) <= FLATTEN_DEPTH + 1
    decreases |way|
  {
    if way != [] {
      var sub := Target(files, doc, Props(files, doc, schema, depth)[way[0].name]);
      OmitsIsShallow(files, doc, sub, way[1..], field, depth + 1);
    }
  }

  /** What is reported extra is what is observed, reported and not allowed. */
  lemma ExtraMeans(files: Files, doc: Json, schema: Json, body: Json, p: string)
    ensures p in Judge(files, doc, schema, body).extra <==>
            p in Observed(body, "", 0, SAMPLE) && IsReportedExtra(p) && !Allowed(files, doc, schema, "", 0, p)
  {
  }

  predicate IsReportedExtra(p: string) {
    LastSegment(p) != "nextLink" && !Contains(LastSegment(p), "[*]")
  }

  /** With a field the schema does not declare, in the objects sampled at its place, the report has in
      addition exactly the paths that are observed at and below it, and misses nothing more or less. */
  lemma AddedFieldExactly(files: Files, doc: Json, schema: Json, body: Json, way: seq<Step>, field: string)
    requires IsPath(way, field) && Open(body, way) && Omits(files, doc, schema, way, field, 0)
    ensures var before := Judge(files, doc, schema, Without(body, way, field));
            var at := Spell(way, field);
            Judge(files, doc, schema, body) ==
            Verdict(before.missing,
                    before.extra + set p | p in Observed(body, "", 0, SAMPLE) && IsReportedExtra(p) && Below(p, at))
  {
    var before, after := Judge(files, doc, schema, Without(body, way, field)), Judge(files, doc, schema, body);
    var at := Spell(way, field);
    var added := set p | p in Observed(body, "", 0, SAMPLE) && IsReportedExtra(p) && Below(p, at);
    forall p ensures p in after.missing <==> p in before.missing {
      AddedMisses(files, doc, schema, body, way, field, p);
    }
    forall p ensures p in after.extra <==> p in before.extra + added {
      AddedShows(files, doc, schema, body, way, field, p);
    }
    assert after.extra == before.extra + added;
  }

  lemma AddedMisses(files: Files, doc: Json, schema: Json, body: Json, way: seq<Step>, field: string, p: string)
    requires IsPath(way, field) && Open(body, way) && Omits(files, doc, schema, way, field, 0)
    ensures p in Judge(files, doc, schema, body).missing <==>
            p in Judge(files, doc, schema, Without(body, way, field)).missing
  {
    assert "" + Spell(way, field) == Spell(way, field);
    DroppedMisses(files, doc, schema, body, way, field, p);
    if p in Flatten(files, doc, schema, "", 0) {
      NotDeclared(files, doc, schema, way, field, "", 0, p);
    }
  }

  lemma AddedShows(files: Files, doc: Json, schema: Json, body: Json, way: seq<Step>, field: string, p: string)
    requires IsPath(way, field) && Open(body, way) && Omits(files, doc, schema, way, field, 0)
    ensures p in Judge(files, doc, schema, body).extra <==>
            p in Judge(files, doc, schema, Without(body, way, field)).extra ||
            (p in Observed(body, "", 0, SAMPLE) && IsReportedExtra(p) && Below(p, Spell(way, field)))
  {
    DroppedShows(files, doc, schema, body, way, field, p);
    ExtraMeans(files, doc, schema, body, p);
    if Below(p, Spell(way, field)) {
      NotAllowed(files, doc, schema, way, field, p);
    }
  }

  /** A field that an object sampled at its place has and the schema does not declare is reported extra,
      wherever the value walk gets to. */
  lemma AddedFieldIsExtra(files: Files, doc: Json, schema: Json, body: Json, way: seq<Step>, field: string)
    requires IsPath(way, field) && field != "nextLink"
    requires Omits(files, doc, schema, way, field, 0) && Carries(body, way, field)
    requires NoLists(way) || Level(way) <= OBSERVE_DEPTH
    ensures Spell(way, field) in Judge(files, doc, schema, body).extra
  {
    var p := Spell(way, field);
    assert "" + p == p;
    if NoLists(way) {
      OmitsIsShallow(files, doc, schema, way, field, 0);
    }
    IsSeen(body, way, field, "", 0);
    NotAllowed(files, doc, schema, way, field, p);
    PathReads(way, field);
    ExtraMeans(files, doc, schema, body, p);
  }
}
