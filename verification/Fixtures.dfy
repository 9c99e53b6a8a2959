/** Building a fixture tree from dotted paths (`_insert` in `scripts/gen_mde_fixtures.py`), and the round
    trip with `observed` of `scripts/mde_docs_spec.py`. */
module Fixtures {
  import opened Json
  import opened Text
  import opened Observation

  /** The dictionaries `_insert` makes: a text default, a nested dictionary, or a list with one
      template item. */
  datatype Tree = Dict(entries: map<string, Entry>)
  datatype Entry = Blank | Sub(tree: Tree) | Listed(tree: Tree)

  const NOTHING := Dict(map[])

  // ---- _insert ----------------------------------------------------------------------

  predicate IsList(token: string) {
    |token| >= 3 && token[|token| - 3..] == "[*]"
  }

  function NameOf(token: string): (r: string) {
    if IsList(token) then token[..|token| - 3] else token
  }

  /** What a token finds under its name, or the empty dictionary it puts there. */
  function Below(t: Tree, token: string): (r: Tree) {
    var name := NameOf(token);
    if name !in t.entries then NOTHING
    else if IsList(token) then (if t.entries[name].Listed? then t.entries[name].tree else NOTHING)
    else (if t.entries[name].Sub? then t.entries[name].tree else NOTHING)
  }

  function WithBelow(t: Tree, token: string, below: Tree): (r: Tree) {
    Dict(t.entries[NameOf(token) := if IsList(token) then Listed(below) else Sub(below)])
  }

  /** The tree after inserting a path, given as its tokens. */
  function Insert(t: Tree, tokens: seq<string>): (r: Tree)
    decreases |tokens|
  {
    if tokens == [] then t
    else
      var name := NameOf(tokens[0]);
      if name == "" then Insert(t, tokens[1..])
      else if |tokens| == 1 && !IsList(tokens[0]) then
        if name in t.entries then t else Dict(t.entries[name := Blank])
      else WithBelow(t, tokens[0], Insert(Below(t, tokens[0]), tokens[1..]))
  }

  /** A cursor into a nested dictionary: the tokens that lead to it from the root. */
  predicate Leads(t: Tree, cursor: seq<string>)
    decreases |cursor|
  {
    cursor == [] ||
    (NameOf(cursor[0]) in t.entries &&
     (if IsList(cursor[0]) then t.entries[NameOf(cursor[0])].Listed? else t.entries[NameOf(cursor[0])].Sub?) &&
     Leads(Below(t, cursor[0]), cursor[1..]))
  }

  function NodeAt(t: Tree, cursor: seq<string>): (r: Tree)
    decreases |cursor|
  {
    if cursor == [] then t else NodeAt(Below(t, cursor[0]), cursor[1..])
  }

  /** The root after the dictionary under the cursor became `node`. */
  function Assign(t: Tree, cursor: seq<string>, node: Tree): (r: Tree)
    decreases |cursor|
  {
    if cursor == [] then node else WithBelow(t, cursor[0], Assign(Below(t, cursor[0]), cursor[1..], node))
  }

  lemma {:induction false} AssignAndMove(t: Tree, cursor: seq<string>, token: string, below: Tree, node: Tree)
    requires Leads(t, cursor) && node == WithBelow(NodeAt(t, cursor), token, below)
    ensures Leads(Assign(t, cursor, node), cursor + [token])
    ensures NodeAt(Assign(t, cursor, node), cursor + [token]) == below
    ensures forall deeper :: Assign(Assign(t, cursor, node), cursor + [token], deeper)
                          == Assign(t, cursor, WithBelow(NodeAt(t, cursor), token, deeper))
    decreases |cursor|
  {
    if cursor == [] {
      assert (cursor + [token])[1..] == [];
      assert forall deeper :: WithBelow(node, token, deeper) == WithBelow(t, token, deeper);
    } else {
      var c := cursor[0];
      assert (cursor + [token])[1..] == cursor[1..] + [token];
      AssignAndMove(Below(t, c), cursor[1..], token, below, node);
      var moved := Assign(t, cursor, node);
      assert Below(moved, c) == Assign(Below(t, c), cursor[1..], node);
      forall deeper
        ensures Assign(moved, cursor + [token], deeper)
                == Assign(t, cursor, WithBelow(NodeAt(t, cursor), token, deeper))
      {
        var inner := Assign(Below(moved, c), cursor[1..] + [token], deeper);
        assert WithBelow(moved, c, inner) == WithBelow(t, c, inner);
      }
    }
  }

  /** The loop as the script runs it: a cursor walks down and the dictionary under it is changed. */
  method InsertPath(tree: Tree, path: string) returns (t: Tree)
    ensures t == Insert(tree, Split(path, '.'))
  {
    t := tree;
    var tokens := Split(path, '.');
    var cursor: seq<string> := [];
    for i := 0 to |tokens|
      invariant Leads(t, cursor)
      invariant Assign(t, cursor, Insert(NodeAt(t, cursor), tokens[i..])) == Insert(tree, tokens)
    {
      var token := tokens[i];
      var node := NodeAt(t, cursor);
      var name := NameOf(token);
      assert tokens[i..][1..] == tokens[i + 1..];
      if name != "" {
        var last := i == |tokens| - 1;
        if last && !IsList(token) {
          var after := if name in node.entries then node else Dict(node.entries[name := Blank]);
          AssignReplaces(t, cursor, after);
          t := Assign(t, cursor, after);
        } else {
          var below := Below(node, token);
          var after := WithBelow(node, token, below);
          AssignAndMove(t, cursor, token, below, after);
          t := Assign(t, cursor, after);
          cursor := cursor + [token];
        }
      }
    }
    AssignSame(t, cursor);
  }

  lemma {:induction false} AssignReplaces(t: Tree, cursor: seq<string>, node: Tree)
    requires Leads(t, cursor)
    ensures Leads(Assign(t, cursor, node), cursor) && NodeAt(Assign(t, cursor, node), cursor) == node
    ensures forall other :: Assign(Assign(t, cursor, node), cursor, other) == Assign(t, cursor, other)
    decreases |cursor|
  {
    if cursor != [] {
      var c := cursor[0];
      AssignReplaces(Below(t, c), cursor[1..], node);
      var moved := Assign(t, cursor, node);
      assert Below(moved, c) == Assign(Below(t, c), cursor[1..], node);
      forall other ensures Assign(moved, cursor, other) == Assign(t, cursor, other) {
        var inner := Assign(Below(moved, c), cursor[1..], other);
        assert WithBelow(moved, c, inner) == WithBelow(t, c, inner);
      }
    }
  }

  lemma {:induction false} AssignSame(t: Tree, cursor: seq<string>)
    requires Leads(t, cursor)
    ensures Assign(t, cursor, NodeAt(t, cursor)) == t
    decreases |cursor|
  {
    if cursor != [] {
      AssignSame(Below(t, cursor[0]), cursor[1..]);
      assert WithBelow(t, cursor[0], Below(t, cursor[0])).entries == t.entries;
    }
  }

  /** The trees a list of paths builds, inserted one after the other. */
  function Build(paths: seq<string>): (r: Tree)
    decreases |paths|
  {
    if paths == [] then NOTHING else Insert(Build(paths[..|paths| - 1]), Split(paths[|paths| - 1], '.'))
  }

  method BuildTree(paths: seq<string>) returns (t: Tree)
    ensures t == Build(paths)
  {
    t := NOTHING;
    for i := 0 to |paths|
      invariant t == Build(paths[..i])
    {
      t := InsertPath(t, paths[i]);
      assert paths[..i + 1][..i] == paths[..i];
    }
    assert paths[..|paths|] == paths;
  }

  // ---- marks: what a tree holds, one fact at a time ------------------------------------

  /** `Name(k)`: there is an entry `k`; then `Inside`: it is a dictionary, or `Items`: it is a list. */
  datatype Mark = Name(key: string) | Inside | Items

  predicate InTree(t: Tree, p: seq<Mark>)
    decreases |p|
  {
    p != [] && p[0].Name? && p[0].key in t.entries &&
    (|p| == 1 ||
     match t.entries[p[0].key]
     case Blank => false
     case Sub(s) => p[1] == Inside && (|p| == 2 || InTree(s, p[2..]))
     case Listed(s) => p[1] == Items && (|p| == 2 || InTree(s, p[2..])))
  }

  /** The facts a path asks for. */
  predicate OnPath(tokens: seq<string>, p: seq<Mark>)
    decreases |tokens|
  {
    tokens != [] &&
    var name := NameOf(tokens[0]);
    if name == "" then OnPath(tokens[1..], p)
    else
      p != [] && p[0] == Name(name) &&
      (|p| == 1 ||
       ((IsList(tokens[0]) || |tokens| > 1) &&
        p[1] == (if IsList(tokens[0]) then Items else Inside) && (|p| == 2 || OnPath(tokens[1..], p[2..]))))
  }

  /** A tree is determined by its facts. */
  lemma {:induction false} SameMarksSameTree(a: Tree, b: Tree)
    requires forall p :: InTree(a, p) <==> InTree(b, p)
    ensures a == b
    decreases a
  {
    forall k | k in a.entries || k in b.entries
      ensures k in a.entries && k in b.entries && a.entries[k] == b.entries[k]
    {
      assert InTree(a, [Name(k)]) <==> InTree(b, [Name(k)]);
      SameEntry(a, b, k);
    }
    assert a.entries == b.entries;
  }

  lemma {:induction false} SameEntry(a: Tree, b: Tree, k: string)
    requires forall p :: InTree(a, p) <==> InTree(b, p)
    requires k in a.entries && k in b.entries
    ensures a.entries[k] == b.entries[k]
    decreases a, 0
  {
    assert InTree(a, [Name(k), Inside]) <==> InTree(b, [Name(k), Inside]);
    assert InTree(a, [Name(k), Items]) <==> InTree(b, [Name(k), Items]);
    if !a.entries[k].Blank? {
      var kind := if a.entries[k].Sub? then Inside else Items;
      var s, t := a.entries[k].tree, b.entries[k].tree;
      forall p ensures InTree(s, p) <==> InTree(t, p) {
        if p != [] {
          var q := [Name(k), kind] + p;
          assert q[2..] == p;
          assert InTree(a, q) <==> InTree(b, q);
        }
      }
      SameMarksSameTree(s, t);
    }
  }

  /** The tree and the path do not use one name both as a dictionary and as a list. */
  ghost predicate Agree(t: Tree, tokens: seq<string>) {
    forall q: seq<Mark> ::
      !(InTree(t, q + [Inside]) && OnPath(tokens, q + [Items])) &&
      !(InTree(t, q + [Items]) && OnPath(tokens, q + [Inside]))
  }

  lemma AgreeBelow(t: Tree, tokens: seq<string>)
    requires Agree(t, tokens) && tokens != [] && NameOf(tokens[0]) != "" && (|tokens| > 1 || IsList(tokens[0]))
    ensures NameOf(tokens[0]) in t.entries ==>
              t.entries[NameOf(tokens[0])].Blank? || (t.entries[NameOf(tokens[0])].Listed? == IsList(tokens[0]))
    ensures Agree(Below(t, tokens[0]), tokens[1..])
  {
    var name := NameOf(tokens[0]);
    var kind := if IsList(tokens[0]) then Items else Inside;
    var start := [Name(name)];
    assert start + [Inside] == [Name(name), Inside] && start + [Items] == [Name(name), Items];
    forall q: seq<Mark>
      ensures !(InTree(Below(t, tokens[0]), q + [Inside]) && OnPath(tokens[1..], q + [Items]))
      ensures !(InTree(Below(t, tokens[0]), q + [Items]) && OnPath(tokens[1..], q + [Inside]))
    {
      var r := [Name(name), kind] + q;
      StepDown(t, tokens, kind, q + [Inside]);
      StepDown(t, tokens, kind, q + [Items]);
      assert r + [Inside] == [Name(name), kind] + (q + [Inside]);
      assert r + [Items] == [Name(name), kind] + (q + [Items]);
    }
  }

  lemma StepDown(t: Tree, tokens: seq<string>, kind: Mark, q: seq<Mark>)
    requires tokens != [] && NameOf(tokens[0]) != "" && kind == (if IsList(tokens[0]) then Items else Inside)
    requires q != []
    ensures InTree(Below(t, tokens[0]), q) ==> InTree(t, [Name(NameOf(tokens[0])), kind] + q)
    ensures OnPath(tokens[1..], q) ==> OnPath(tokens, [Name(NameOf(tokens[0])), kind] + q)
  {
    var p := [Name(NameOf(tokens[0])), kind] + q;
    assert p[2..] == q;
  }

  /** Inserting an agreeing path adds its facts and keeps the others. */
  lemma {:induction false} InsertAddsPath(t: Tree, tokens: seq<string>, p: seq<Mark>)
    requires Agree(t, tokens)
    ensures InTree(Insert(t, tokens), p) <==> InTree(t, p) || OnPath(tokens, p)
    decreases |tokens|
  {
    if tokens != [] {
      var name := NameOf(tokens[0]);
      if name == "" {
        AgreeSkip(t, tokens);
        InsertAddsPath(t, tokens[1..], p);
      } else if |tokens| > 1 || IsList(tokens[0]) {
        AgreeBelow(t, tokens);
        if |p| > 2 {
          InsertAddsPath(Below(t, tokens[0]), tokens[1..], p[2..]);
        }
      }
    }
  }

  lemma AgreeSkip(t: Tree, tokens: seq<string>)
    requires Agree(t, tokens) && tokens != [] && NameOf(tokens[0]) == ""
    ensures Agree(t, tokens[1..])
  {
    forall q: seq<Mark>
      ensures !(InTree(t, q + [Inside]) && OnPath(tokens[1..], q + [Items]))
      ensures !(InTree(t, q + [Items]) && OnPath(tokens[1..], q + [Inside]))
    {
      assert OnPath(tokens, q + [Items]) == OnPath(tokens[1..], q + [Items]);
      assert OnPath(tokens, q + [Inside]) == OnPath(tokens[1..], q + [Inside]);
    }
  }

  // ---- any order builds the same tree ----------------------------------------------------

  /** No path set uses one name both as a dictionary and as a list. */
  ghost predicate Compatible(paths: set<string>) {
    forall s, t, q: seq<Mark> :: s in paths && t in paths ==> !Clash(s, t, q)
  }

  ghost predicate Clash(s: string, t: string, q: seq<Mark>) {
    OnPath(Split(s, '.'), q + [Inside]) && OnPath(Split(t, '.'), q + [Items])
  }

  ghost predicate Asked(paths: set<string>, p: seq<Mark>) {
    exists s :: s in paths && OnPath(Split(s, '.'), p)
  }

  /** The tree holds exactly what its paths ask for. */
  lemma {:induction false} BuildHoldsPaths(paths: seq<string>, p: seq<Mark>)
    requires Compatible(ToSet(paths))
    ensures InTree(Build(paths), p) <==> Asked(ToSet(paths), p)
    decreases |paths|
  {
    if paths != [] {
      var n := |paths| - 1;
      var before, last := paths[..n], paths[n];
      assert ToSet(paths) == ToSet(before) + {last};
      forall q ensures InTree(Build(before), q) <==> Asked(ToSet(before), q) {
        BuildHoldsPaths(before, q);
      }
      AgreeWithCompatible(before, last);
      InsertAddsPath(Build(before), Split(last, '.'), p);
    }
  }

  lemma AgreeWithCompatible(before: seq<string>, last: string)
    requires Compatible(ToSet(before) + {last})
    requires forall q :: InTree(Build(before), q) <==> Asked(ToSet(before), q)
    ensures Agree(Build(before), Split(last, '.'))
  {
    var t := Build(before);
    var all := ToSet(before) + {last};
    forall q: seq<Mark>
      ensures !(InTree(t, q + [Inside]) && OnPath(Split(last, '.'), q + [Items]))
      ensures !(InTree(t, q + [Items]) && OnPath(Split(last, '.'), q + [Inside]))
    {
      NoClashAt(ToSet(before), all, last, q);
      assert InTree(t, q + [Inside]) <==> Asked(ToSet(before), q + [Inside]);
      assert InTree(t, q + [Items]) <==> Asked(ToSet(before), q + [Items]);
    }
  }

  lemma NoClashAt(before: set<string>, all: set<string>, last: string, q: seq<Mark>)
    requires Compatible(all) && before <= all && last in all
    ensures !(Asked(before, q + [Inside]) && OnPath(Split(last, '.'), q + [Items]))
    ensures !(Asked(before, q + [Items]) && OnPath(Split(last, '.'), q + [Inside]))
  {
    if Asked(before, q + [Inside]) {
      var s :| s in before && OnPath(Split(s, '.'), q + [Inside]);
      assert !Clash(s, last, q);
    }
    if Asked(before, q + [Items]) {
      var s :| s in before && OnPath(Split(s, '.'), q + [Items]);
      assert !Clash(last, s, q);
    }
  }

  lemma OrderIsIrrelevant(a: seq<string>, b: seq<string>)
    requires ToSet(a) == ToSet(b) && Compatible(ToSet(a))
    ensures Build(a) == Build(b)
  {
    forall p ensures InTree(Build(a), p) <==> InTree(Build(b), p) {
      BuildHoldsPaths(a, p);
      BuildHoldsPaths(b, p);
    }
    SameMarksSameTree(Build(a), Build(b));
  }

  /** What was inserted last is in the tree, whatever it displaced. */
  lemma {:induction false} InsertedIsHeld(t: Tree, tokens: seq<string>, p: seq<Mark>)
    requires OnPath(tokens, p)
    ensures InTree(Insert(t, tokens), p)
    decreases |tokens|
  {
    if NameOf(tokens[0]) == "" {
      InsertedIsHeld(t, tokens[1..], p);
    } else if |p| > 2 {
      InsertedIsHeld(Below(t, tokens[0]), tokens[1..], p[2..]);
    }
  }

  lemma {:induction false} TreeHasOneKind(t: Tree, q: seq<Mark>)
    ensures !(InTree(t, q + [Inside]) && InTree(t, q + [Items]))
    decreases |q|
  {
    if |q| > 1 && q[0].Name? && q[0].key in t.entries && !t.entries[q[0].key].Blank? {
      assert (q + [Inside])[2..] == q[2..] + [Inside];
      assert (q + [Items])[2..] == q[2..] + [Items];
      TreeHasOneKind(t.entries[q[0].key].tree, q[2..]);
    }
  }

  lemma ToSetCons(s: string, rest: seq<string>)
    ensures ToSet([s] + rest) == {s} + ToSet(rest)
  {
  }

  /** Some order of `paths` that ends with `last`. */
  lemma {:induction false} OrderEndingWith(paths: set<string>, last: string) returns (order: seq<string>)
    requires last in paths
    ensures ToSet(order) == paths && order != [] && order[|order| - 1] == last
    decreases |paths|
  {
    if paths - {last} == {} {
      order := [last];
      assert paths == {last} == ToSet(order);
    } else {
      var s :| s in paths - {last};
      var rest := OrderEndingWith(paths - {s}, last);
      order := [s] + rest;
      ToSetCons(s, rest);
      assert {s} + (paths - {s}) == paths;
    }
  }

  ghost predicate OrderFree(paths: set<string>) {
    forall a: seq<string>, b: seq<string> :: ToSet(a) == paths && ToSet(b) == paths ==> Build(a) == Build(b)
  }

  /** The insertion order never matters exactly when no name is both a dictionary and a list. */
  lemma OrderFreeExactly(paths: set<string>)
    ensures OrderFree(paths) <==> Compatible(paths)
  {
    if Compatible(paths) {
      forall a: seq<string>, b: seq<string> | ToSet(a) == paths && ToSet(b) == paths ensures Build(a) == Build(b) {
        OrderIsIrrelevant(a, b);
      }
    } else {
      var s, t, q: seq<Mark> :| s in paths && t in paths && Clash(s, t, q);
      var a := OrderEndingWith(paths, s);
      var b := OrderEndingWith(paths, t);
      InsertedIsHeld(Build(a[..|a| - 1]), Split(s, '.'), q + [Inside]);
      InsertedIsHeld(Build(b[..|b| - 1]), Split(t, '.'), q + [Items]);
      TreeHasOneKind(Build(a), q);
      assert Build(a) != Build(b);
    }
  }

  // ---- observing what was built -------------------------------------------------------------

  function TreeJson(t: Tree): (r: Json)
    decreases t, 1
  {
    Obj(map k | k in t.entries :: EntryJson(t, k))
  }

  function EntryJson(t: Tree, k: string): (r: Json)
    requires k in t.entries
    decreases t, 0
  {
    match t.entries[k]
    case Blank => Str("")
    case Sub(s) => TreeJson(s)
    case Listed(s) => Arr([TreeJson(s)])
  }

  /** `p` names a member that `observed` reaches in `v`. */
  ghost predicate Carries(v: Json, depth: nat, p: seq<Mark>)
    decreases |p|
  {
    depth <= OBSERVE_DEPTH && v.Obj? && p != [] && p[0].Name? && p[0].key in v.members &&
    (|p| == 1 ||
     (|p| > 2 &&
      var x := v.members[p[0].key];
      if p[1] == Inside then Carries(x, depth + 1, p[2..])
      else p[1] == Items && x.Arr? && CarriedByItem(x, depth, p)))
  }

  ghost predicate CarriedByItem(x: Json, depth: nat, p: seq<Mark>)
    requires x.Arr? && |p| > 2
    decreases |p|, 0
  {
    exists i :: 0 <= i < |x.items| && i < DOC_SAMPLE && Carries(x.items[i], depth + 2, p[2..])
  }

  /** The dotted spelling. */
  function Render(p: seq<Mark>): (r: string) {
    if p == [] then ""
    else
      (match p[0]
       case Name(k) => k
       case Inside => "."
       case Items => "[*].") + Render(p[1..])
  }

  lemma RenderStep(k: string, kind: Mark, p: seq<Mark>)
    requires kind.Inside? || kind.Items?
    ensures Render([Name(k), kind] + p) == k + (if kind.Inside? then "." else "[*].") + Render(p)
  {
    var q := [Name(k), kind] + p;
    assert q[1..] == [kind] + p;
    assert q[1..][1..] == p;
  }

  lemma RenderName(k: string)
    ensures Render([Name(k)]) == k
  {
    assert [Name(k)][1..] == [];
  }

  /** No list directly inside a list. */
  ghost predicate NoNestedLists(v: Json)
    decreases v
  {
    match v
    case Obj(m) => forall k :: k in m ==> NoNestedLists(m[k])
    case Arr(xs) => forall i :: 0 <= i < |xs| ==> !xs[i].Arr? && NoNestedLists(xs[i])
    case _ => true
  }

  lemma {:induction false} ObservedIsCarried(v: Json, prefix: string, depth: nat, s: string) returns (p: seq<Mark>)
    requires NoNestedLists(v) && !v.Arr? && s in Observed(v, prefix, depth, DOC_SAMPLE)
    ensures Carries(v, depth, p) && s == prefix + Render(p)
    decreases v
  {
    var k :| k in v.members && s in ObservedMember(v, k, prefix, depth, DOC_SAMPLE);
    var x := v.members[k];
    if s == prefix + k {
      p := [Name(k)];
      RenderName(k);
    } else if x.Obj? {
      var q := ObservedIsCarried(x, prefix + k + ".", depth + 1, s);
      p := [Name(k), Inside] + q;
      CarriedThrough(v, k, prefix, depth, q);
    } else {
      var i, q := ObservedItemIsCarried(x, prefix + k, depth + 1, s);
      p := [Name(k), Items] + q;
      CarriedThroughItem(v, k, i, prefix, depth, q);
    }
  }

  lemma CarriedThrough(v: Json, k: string, prefix: string, depth: nat, q: seq<Mark>)
    requires v.Obj? && depth <= OBSERVE_DEPTH && k in v.members && v.members[k].Obj?
    requires Carries(v.members[k], depth + 1, q)
    ensures Carries(v, depth, [Name(k), Inside] + q)
    ensures prefix + Render([Name(k), Inside] + q) == prefix + k + "." + Render(q)
  {
    RenderStep(k, Inside, q);
    assert ([Name(k), Inside] + q)[2..] == q;
  }

  lemma CarriedThroughItem(v: Json, k: string, i: nat, prefix: string, depth: nat, q: seq<Mark>)
    requires v.Obj? && depth <= OBSERVE_DEPTH && k in v.members && v.members[k].Arr?
    requires i < |v.members[k].items| && i < DOC_SAMPLE && Carries(v.members[k].items[i], depth + 2, q)
    ensures Carries(v, depth, [Name(k), Items] + q)
    ensures prefix + Render([Name(k), Items] + q) == prefix + k + "[*]." + Render(q)
  {
    var p := [Name(k), Items] + q;
    RenderStep(k, Items, q);
    assert p[2..] == q;
    assert CarriedByItem(v.members[k], depth, p);
  }

  lemma {:induction false} ObservedItemIsCarried(x: Json, path: string, depth: nat, s: string)
    returns (i: nat, q: seq<Mark>)
    requires NoNestedLists(x) && !x.Obj? && s in Observed(x, path + ".", depth, DOC_SAMPLE)
    ensures x.Arr? && i < |x.items| && i < DOC_SAMPLE && Carries(x.items[i], depth + 1, q) &&
            s == path + "[*]." + Render(q)
    decreases x
  {
    assert s in ObservedItems(x, |x.items|, path + ".", depth, DOC_SAMPLE);
    i :| 0 <= i < |x.items| && i < DOC_SAMPLE && s in ObservedItem(x, i, path + ".", depth, DOC_SAMPLE);
    ListPrefixOf(path);
    q := ObservedIsCarried(x.items[i], path + "[*].", depth + 1, s);
  }

  lemma {:induction false} CarriedIsObserved(v: Json, prefix: string, depth: nat, p: seq<Mark>)
    requires Carries(v, depth, p)
    ensures prefix + Render(p) in Observed(v, prefix, depth, DOC_SAMPLE)
    decreases |p|
  {
    var k := p[0].key;
    var s := prefix + Render(p);
    if |p| == 1 {
      RenderName(k);
      assert p == [Name(k)];
    } else {
      CarriedBelowIsObserved(v, prefix, depth, p);
    }
    assert s in ObservedMember(v, k, prefix, depth, DOC_SAMPLE);
    assert s in ObservedMembers(v, v.members.Keys, prefix, depth, DOC_SAMPLE);
  }

  lemma {:induction false} CarriedBelowIsObserved(v: Json, prefix: string, depth: nat, p: seq<Mark>)
    requires Carries(v, depth, p) && |p| > 1
    ensures prefix + Render(p) in Observed(v.members[p[0].key], prefix + p[0].key + ".", depth + 1, DOC_SAMPLE)
    decreases |p|, 0
  {
    var k := p[0].key;
    var x := v.members[k];
    var q := p[2..];
    assert p == [Name(k), p[1]] + q;
    RenderStep(k, p[1], q);
    if p[1] == Inside {
      CarriedIsObserved(x, prefix + k + ".", depth + 1, q);
      assert prefix + Render(p) == prefix + k + "." + Render(q);
    } else {
      assert CarriedByItem(x, depth, p);
      var i: nat :| i < |x.items| && i < DOC_SAMPLE && Carries(x.items[i], depth + 2, q);
      CarriedIsObserved(x.items[i], prefix + k + "[*].", depth + 2, q);
      assert prefix + Render(p) == prefix + k + "[*]." + Render(q);
      ItemIsObserved(x, i, prefix + k, depth + 1, prefix + Render(p));
    }
  }

  lemma ItemIsObserved(x: Json, i: nat, path: string, depth: nat, s: string)
    requires x.Arr? && i < |x.items| && i < DOC_SAMPLE && depth <= OBSERVE_DEPTH
    requires s in Observed(x.items[i], path + "[*].", depth + 1, DOC_SAMPLE)
    ensures s in Observed(x, path + ".", depth, DOC_SAMPLE)
  {
    ListPrefixOf(path);
    assert s in ObservedItem(x, i, path + ".", depth, DOC_SAMPLE);
    assert s in ObservedItems(x, |x.items|, path + ".", depth, DOC_SAMPLE);
  }

  // ---- the round trip -------------------------------------------------------------------------

  /** A key that a dotted path spells unambiguously. */
  predicate GoodKey(k: string) {
    k != "" && '.' !in k && !IsList(k)
  }

  ghost predicate GoodKeys(v: Json)
    decreases v
  {
    match v
    case Obj(m) => forall k :: k in m ==> GoodKey(k) && GoodKeys(m[k])
    case Arr(xs) => forall i :: 0 <= i < |xs| ==> GoodKeys(xs[i])
    case _ => true
  }

  /** Names and kinds take turns, and a name comes last. */
  predicate WellSpelled(p: seq<Mark>)
    decreases |p|
  {
    p != [] && p[0].Name? && GoodKey(p[0].key) && (|p| == 1 || (|p| > 2 && !p[1].Name? && WellSpelled(p[2..])))
  }

  lemma {:induction false} CarriedIsWellSpelled(v: Json, depth: nat, p: seq<Mark>)
    requires GoodKeys(v) && Carries(v, depth, p)
    ensures WellSpelled(p)
    decreases |p|
  {
    if |p| > 1 {
      var x := v.members[p[0].key];
      if p[1] == Inside {
        CarriedIsWellSpelled(x, depth + 1, p[2..]);
      } else {
        assert CarriedByItem(x, depth, p);
        var i :| 0 <= i < |x.items| && i < DOC_SAMPLE && Carries(x.items[i], depth + 2, p[2..]);
        CarriedIsWellSpelled(x.items[i], depth + 2, p[2..]);
      }
    }
  }

  lemma ListToken(k: string)
    requires GoodKey(k)
    ensures '.' !in (k + "[*]") && IsList(k + "[*]") && NameOf(k + "[*]") == k && NameOf(k) == k
  {
    var token := k + "[*]";
    assert token[|token| - 3..] == "[*]";
    assert token[..|token| - 3] == k;
  }

  lemma TokensOfStep(k: string, kind: Mark, q: seq<Mark>)
    requires GoodKey(k) && !kind.Name?
    ensures Split(Render([Name(k), kind] + q), '.') == [if kind == Items then k + "[*]" else k] + Split(Render(q), '.')
  {
    RenderStep(k, kind, q);
    ListToken(k);
    var head := if kind == Items then k + "[*]" else k;
    SplitHead(head, Render(q), '.');
    assert head + ['.'] + Render(q) == k + (if kind.Inside? then "." else "[*].") + Render(q);
  }

  /** A spelled path asks for its own beginnings and nothing else. */
  lemma {:induction false} PathAsksForPrefixes(p: seq<Mark>, q: seq<Mark>)
    requires WellSpelled(p)
    ensures OnPath(Split(Render(p), '.'), q) <==> q != [] && q <= p
    decreases |p|
  {
    var k := p[0].key;
    ListToken(k);
    if |p| == 1 {
      assert p == [Name(k)];
      RenderName(k);
      SplitSingle(k, '.');
    } else {
      var rest := p[2..];
      assert p == [Name(k), p[1]] + rest;
      TokensOfStep(k, p[1], rest);
      var tokens := Split(Render(p), '.');
      assert tokens[1..] == Split(Render(rest), '.');
      if |q| > 2 {
        PathAsksForPrefixes(rest, q[2..]);
        PrefixBySteps(p, q);
      }
    }
  }

  lemma PrefixBySteps(p: seq<Mark>, q: seq<Mark>)
    requires |p| > 2 && |q| > 2
    ensures q <= p <==> q[0] == p[0] && q[1] == p[1] && q[2..] <= p[2..]
  {
    if q[0] == p[0] && q[1] == p[1] && q[2..] <= p[2..] {
      assert q == [q[0], q[1]] + q[2..];
      assert p == [p[0], p[1]] + p[2..];
    }
  }

  function Level(p: seq<Mark>): (r: nat) {
    if |p| <= 1 then 0 else (if p[1] == Inside then 1 else 2) + Level(p[2..])
  }

  lemma {:induction false} CarriedIsShallow(v: Json, depth: nat, p: seq<Mark>)
    requires Carries(v, depth, p)
    ensures depth + Level(p) <= OBSERVE_DEPTH && |p| % 2 == 1
    decreases |p|
  {
    if |p| > 1 {
      var x := v.members[p[0].key];
      if p[1] == Inside {
        CarriedIsShallow(x, depth + 1, p[2..]);
      } else {
        assert CarriedByItem(x, depth, p);
        var i :| 0 <= i < |x.items| && i < DOC_SAMPLE && Carries(x.items[i], depth + 2, p[2..]);
        CarriedIsShallow(x.items[i], depth + 2, p[2..]);
      }
    }
  }

  /** What leads to a member that is carried is carried too. */
  lemma {:induction false} CarriedPrefix(v: Json, depth: nat, p: seq<Mark>, q: seq<Mark>)
    requires Carries(v, depth, p) && q <= p && |q| % 2 == 1
    ensures Carries(v, depth, q)
    decreases |p|
  {
    if |q| > 1 {
      PrefixBySteps(p, q);
      var x := v.members[p[0].key];
      if p[1] == Inside {
        CarriedPrefix(x, depth + 1, p[2..], q[2..]);
      } else {
        assert CarriedByItem(x, depth, p);
        var i :| 0 <= i < |x.items| && i < DOC_SAMPLE && Carries(x.items[i], depth + 2, p[2..]);
        CarriedPrefix(x.items[i], depth + 2, p[2..], q[2..]);
        assert CarriedByItem(x, depth, q);
      }
    }
  }

  lemma {:induction false} TreeCarriesItsNames(t: Tree, depth: nat, p: seq<Mark>)
    ensures Carries(TreeJson(t), depth, p) <==> InTree(t, p) && |p| % 2 == 1 && depth + Level(p) <= OBSERVE_DEPTH
    decreases |p|
  {
    if |p| > 2 && p[0].Name? && p[0].key in t.entries {
      var x := TreeJson(t).members[p[0].key];
      assert x == EntryJson(t, p[0].key);
      match t.entries[p[0].key]
      case Blank =>
      case Sub(s) =>
        TreeCarriesItsNames(s, depth + 1, p[2..]);
      case Listed(s) =>
        TreeCarriesItsNames(s, depth + 2, p[2..]);
        assert x.items[0] == TreeJson(s);
        if Carries(TreeJson(s), depth + 2, p[2..]) {
          assert CarriedByItem(x, depth, p);
        }
    }
  }

  lemma {:induction false} TreesHaveNoNestedLists(t: Tree)
    ensures NoNestedLists(TreeJson(t))
    decreases t
  {
    forall k | k in t.entries ensures NoNestedLists(TreeJson(t).members[k]) {
      if !t.entries[k].Blank? {
        TreesHaveNoNestedLists(t.entries[k].tree);
      }
    }
  }

  /** The tree built from the paths of a value names what the value names ... */
  lemma BuiltTreeNames(v: Json, paths: seq<string>, p: seq<Mark>)
    requires v.Obj? && NoNestedLists(v) && GoodKeys(v)
    requires ToSet(paths) == Observed(v, "", 0, DOC_SAMPLE) && Compatible(ToSet(paths))
    ensures Carries(TreeJson(Build(paths)), 0, p) <==> Carries(v, 0, p)
  {
    TreeCarriesItsNames(Build(paths), 0, p);
    BuildHoldsPaths(paths, p);
    if Carries(v, 0, p) {
      CarriedIsShallow(v, 0, p);
      CarriedIsWellSpelled(v, 0, p);
      CarriedIsObserved(v, "", 0, p);
      assert "" + Render(p) == Render(p);
      PathAsksForPrefixes(p, p);
      assert OnPath(Split(Render(p), '.'), p);
    }
    if Carries(TreeJson(Build(paths)), 0, p) {
      var s :| s in ToSet(paths) && OnPath(Split(s, '.'), p);
      var q := ObservedIsCarried(v, "", 0, s);
      assert "" + Render(q) == Render(q);
      CarriedIsWellSpelled(v, 0, q);
      PathAsksForPrefixes(q, p);
      CarriedPrefix(v, 0, q, p);
    }
  }

  /** ... so observing it gives back exactly the paths it was built from. */
  lemma BuildObserveRoundTrip(v: Json, paths: seq<string>)
    requires v.Obj? && NoNestedLists(v) && GoodKeys(v)
    requires ToSet(paths) == Observed(v, "", 0, DOC_SAMPLE) && Compatible(ToSet(paths))
    ensures Observed(TreeJson(Build(paths)), "", 0, DOC_SAMPLE) == ToSet(paths)
  {
    var tree := TreeJson(Build(paths));
    TreesHaveNoNestedLists(Build(paths));
    forall s ensures s in Observed(tree, "", 0, DOC_SAMPLE) <==> s in Observed(v, "", 0, DOC_SAMPLE) {
      if s in Observed(tree, "", 0, DOC_SAMPLE) {
        var p := ObservedIsCarried(tree, "", 0, s);
        BuiltTreeNames(v, paths, p);
        CarriedIsObserved(v, "", 0, p);
      }
      if s in Observed(v, "", 0, DOC_SAMPLE) {
        var p := ObservedIsCarried(v, "", 0, s);
        BuiltTreeNames(v, paths, p);
        CarriedIsObserved(tree, "", 0, p);
      }
    }
  }

  // ---- the round trip needs compatible paths -------------------------------------------------

  ghost predicate GoodTree(t: Tree)
    decreases t
  {
    forall k :: k in t.entries ==> GoodKey(k) && (!t.entries[k].Blank? ==> GoodTree(t.entries[k].tree))
  }

  predicate GoodTokens(tokens: seq<string>) {
    forall i :: 0 <= i < |tokens| ==> NameOf(tokens[i]) == "" || GoodKey(NameOf(tokens[i]))
  }

  lemma {:induction false} InsertKeepsGood(t: Tree, tokens: seq<string>)
    requires GoodTree(t) && GoodTokens(tokens)
    ensures GoodTree(Insert(t, tokens))
    decreases |tokens|
  {
    if tokens != [] {
      assert NameOf(tokens[0]) == "" || GoodKey(NameOf(tokens[0]));
      if NameOf(tokens[0]) == "" {
        InsertKeepsGood(t, tokens[1..]);
      } else if |tokens| > 1 || IsList(tokens[0]) {
        InsertKeepsGood(Below(t, tokens[0]), tokens[1..]);
      }
    }
  }

  lemma {:induction false} BuildIsGood(paths: seq<string>)
    requires forall s :: s in paths ==> GoodTokens(Split(s, '.'))
    ensures GoodTree(Build(paths))
    decreases |paths|
  {
    if paths != [] {
      var n := |paths| - 1;
      assert forall s :: s in paths[..n] ==> s in paths;
      BuildIsGood(paths[..n]);
      assert GoodTokens(Split(paths[n], '.'));
      InsertKeepsGood(Build(paths[..n]), Split(paths[n], '.'));
    }
  }

  lemma {:induction false} SpelledTokens(p: seq<Mark>)
    requires WellSpelled(p)
    ensures GoodTokens(Split(Render(p), '.'))
    decreases |p|
  {
    var k := p[0].key;
    ListToken(k);
    if |p| == 1 {
      assert p == [Name(k)];
      RenderName(k);
      SplitSingle(k, '.');
    } else {
      assert p == [Name(k), p[1]] + p[2..];
      TokensOfStep(k, p[1], p[2..]);
      SpelledTokens(p[2..]);
    }
  }

  lemma {:induction false} GoodTreeHasGoodKeys(t: Tree)
    requires GoodTree(t)
    ensures GoodKeys(TreeJson(t))
    decreases t
  {
    var m := TreeJson(t).members;
    forall k | k in m ensures GoodKey(k) && GoodKeys(m[k]) {
      assert m[k] == EntryJson(t, k);
      if !t.entries[k].Blank? {
        GoodTreeHasGoodKeys(t.entries[k].tree);
      }
    }
  }

  lemma {:induction false} InTreePrefix(t: Tree, p: seq<Mark>, q: seq<Mark>)
    requires InTree(t, p) && q != [] && q <= p
    ensures InTree(t, q)
    decreases |p|
  {
    if |q| > 2 {
      InTreePrefix(t.entries[p[0].key].tree, p[2..], q[2..]);
    }
  }

  /** What the paths of a value ask for, the observed tree has, if it shows them all. */
  lemma ShownIsHeld(v: Json, paths: seq<string>, s: string, q: seq<Mark>)
    requires v.Obj? && NoNestedLists(v) && GoodKeys(v) && ToSet(paths) == Observed(v, "", 0, DOC_SAMPLE)
    requires s in Observed(TreeJson(Build(paths)), "", 0, DOC_SAMPLE) && q != [] && OnPath(Split(s, '.'), q)
    ensures InTree(Build(paths), q)
  {
    var tree := TreeJson(Build(paths));
    BuiltKeysAreGood(v, paths);
    TreesHaveNoNestedLists(Build(paths));
    var p := ObservedIsCarried(tree, "", 0, s);
    assert "" + Render(p) == Render(p);
    CarriedIsWellSpelled(tree, 0, p);
    PathAsksForPrefixes(p, q);
    TreeCarriesItsNames(Build(paths), 0, p);
    InTreePrefix(Build(paths), p, q);
  }

  lemma BuiltKeysAreGood(v: Json, paths: seq<string>)
    requires v.Obj? && NoNestedLists(v) && GoodKeys(v) && ToSet(paths) == Observed(v, "", 0, DOC_SAMPLE)
    ensures GoodKeys(TreeJson(Build(paths)))
  {
    forall s | s in paths ensures GoodTokens(Split(s, '.')) {
      assert s in ToSet(paths);
      var p := ObservedIsCarried(v, "", 0, s);
      assert "" + Render(p) == Render(p);
      CarriedIsWellSpelled(v, 0, p);
      SpelledTokens(p);
    }
    BuildIsGood(paths);
    GoodTreeHasGoodKeys(Build(paths));
  }

  /** The round trip holds exactly for values that use no name both as an object and as a list. */
  lemma RoundTripExactly(v: Json, paths: seq<string>)
    requires v.Obj? && NoNestedLists(v) && GoodKeys(v) && ToSet(paths) == Observed(v, "", 0, DOC_SAMPLE)
    ensures Observed(TreeJson(Build(paths)), "", 0, DOC_SAMPLE) == ToSet(paths) <==> Compatible(ToSet(paths))
  {
    if Compatible(ToSet(paths)) {
      BuildObserveRoundTrip(v, paths);
    } else if Observed(TreeJson(Build(paths)), "", 0, DOC_SAMPLE) == ToSet(paths) {
      var s, t, q: seq<Mark> :| s in ToSet(paths) && t in ToSet(paths) && Clash(s, t, q);
      ShownIsHeld(v, paths, s, q + [Inside]);
      ShownIsHeld(v, paths, t, q + [Items]);
      TreeHasOneKind(Build(paths), q);
    }
  }

  /** Where a name is both, the order does matter: `a.b` and `a[*].b`, whatever the two are called. */
  lemma OrderCanMatter(a: string, b: string)
    requires GoodKey(a) && GoodKey(b)
    ensures !OrderFree({a + "." + b, a + "[*]." + b})
  {
    var s, t := a + "." + b, a + "[*]." + b;
    assert Clash(s, t, [Name(a)]) by {
      PathOf(a, Inside, b);
      PathOf(a, Items, b);
      assert [Name(a)] + [Inside] == [Name(a), Inside] && [Name(a)] + [Items] == [Name(a), Items];
    }
    ClashForbids({s, t}, s, t, [Name(a)]);
  }

  lemma ClashForbids(paths: set<string>, s: string, t: string, q: seq<Mark>)
    requires s in paths && t in paths && Clash(s, t, q)
    ensures !OrderFree(paths)
  {
    OrderFreeExactly(paths);
  }

  lemma PathOf(a: string, kind: Mark, b: string)
    requires GoodKey(a) && GoodKey(b) && !kind.Name?
    ensures OnPath(Split(a + (if kind.Inside? then "." else "[*].") + b, '.'), [Name(a), kind])
  {
    var p := [Name(a), kind] + [Name(b)];
    assert p[2..] == [Name(b)];
    RenderStep(a, kind, [Name(b)]);
    RenderName(b);
    PathAsksForPrefixes(p, [Name(a), kind]);
  }
}
