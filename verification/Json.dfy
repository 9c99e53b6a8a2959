/** JSON values. Objects are unordered maps: no audit here depends on the order of an object's
    members. */
module Json {
  datatype Json =
    | Null
    | Bool(b: bool)
    | Num(n: int)
    | Str(s: string)
    | Arr(items: seq<Json>)
    | Obj(members: map<string, Json>)
  {
    predicate IsLeaf() {
      !Arr? && !Obj?
    }
  }
}

/** The dotted paths a live value carries. `scripts/schema_drift.py` and `scripts/mde_docs_spec.py`
    hold one copy each of this walk; they differ only in how many list items they sample. */
module Observation {
  import opened Json

  /** Values nested deeper than this are not looked at. */
  const OBSERVE_DEPTH := 8
  /** How many items of a list the copy in `scripts/mde_docs_spec.py` looks at. */
  const DOC_SAMPLE := 5

  /** `f"{prefix[:-1]}[*]."` : the trailing dot of a prefix moves behind the list marker. */
  function ListPrefix(prefix: string): (r: string) {
    if prefix == "" then "[*]." else prefix[..|prefix| - 1] + "[*]."
  }

  function Observed(v: Json, prefix: string, depth: nat, sample: nat): (r: set<string>)
    decreases v, 2
  {
    if depth > OBSERVE_DEPTH then {} else
    if v.Obj? then ObservedMembers(v, v.members.Keys, prefix, depth, sample)
    else if v.Arr? then ObservedItems(v, |v.items|, prefix, depth, sample)
    else {}
  }

  function ObservedMembers(v: Json, keys: set<string>, prefix: string, depth: nat, sample: nat): (r: set<string>)
    requires v.Obj? && keys <= v.members.Keys
    decreases v, 1
  {
    set k, p | k in keys && p in ObservedMember(v, k, prefix, depth, sample) :: p
  }

  function ObservedMember(v: Json, k: string, prefix: string, depth: nat, sample: nat): (r: set<string>)
    requires v.Obj? && k in v.members
    decreases v, 0
  {
    {prefix + k} + Observed(v.members[k], prefix + k + ".", depth + 1, sample)
  }

  function ObservedItems(v: Json, n: nat, prefix: string, depth: nat, sample: nat): (r: set<string>)
    requires v.Arr? && n <= |v.items|
    decreases v, 1
  {
    set i, p | 0 <= i < n && i < sample && p in ObservedItem(v, i, prefix, depth, sample) :: p
  }

  function ObservedItem(v: Json, i: nat, prefix: string, depth: nat, sample: nat): (r: set<string>)
    requires v.Arr? && i < |v.items|
    decreases v, 0
  {
    Observed(v.items[i], ListPrefix(prefix), depth + 1, sample)
  }

  /** The recursion as the scripts run it: a local set grown member by member. */
  method Observe(v: Json, prefix: string, depth: nat, sample: nat) returns (out: set<string>)
    ensures out == Observed(v, prefix, depth, sample)
    decreases v
  {
    out := {};
    if depth > OBSERVE_DEPTH {
      return;
    }
    if v.Obj? {
      var m := v.members;
      var todo := m.Keys;
      while todo != {}
        invariant todo <= m.Keys
        invariant out == ObservedMembers(v, m.Keys - todo, prefix, depth, sample)
        decreases todo
      {
        var k :| k in todo;
        var below := Observe(m[k], prefix + k + ".", depth + 1, sample);
        ghost var before := out;
        out := out + {prefix + k} + below;
        assert out == before + ObservedMember(v, k, prefix, depth, sample);
        todo := todo - {k};
      }
      assert m.Keys - todo == m.Keys;
    } else if v.Arr? {
      var xs := v.items;
      for i := 0 to |xs|
        invariant out == ObservedItems(v, i, prefix, depth, sample)
      {
        if i < sample {
          var below := Observe(xs[i], ListPrefix(prefix), depth + 1, sample);
          assert below == ObservedItem(v, i, prefix, depth, sample);
          out := out + below;
        }
      }
    }
  }

  /** Paths below which nothing can be observed: null members and empty lists. */
  function ObservedOpaque(v: Json, prefix: string, depth: nat, sample: nat): (r: set<string>)
    decreases v, 2
  {
    if depth > OBSERVE_DEPTH then {} else
    if v.Obj? then OpaqueMembers(v, v.members.Keys, prefix, depth, sample)
    else if v.Arr? then
      if v.items == [] then {EmptyListMark(prefix)} else OpaqueItems(v, |v.items|, prefix, depth, sample)
    else {}
  }

  function OpaqueMembers(v: Json, keys: set<string>, prefix: string, depth: nat, sample: nat): (r: set<string>)
    requires v.Obj? && keys <= v.members.Keys
    decreases v, 1
  {
    set k, p | k in keys && p in OpaqueMember(v, k, prefix, depth, sample) :: p
  }

  function EmptyListMark(prefix: string): (r: string) {
    if prefix == "" then "[*]" else prefix[..|prefix| - 1] + "[*]"
  }

  function OpaqueMember(v: Json, k: string, prefix: string, depth: nat, sample: nat): (r: set<string>)
    requires v.Obj? && k in v.members
    decreases v, 0
  {
    (if v.members[k] == Null then {prefix + k} else {}) +
    ObservedOpaque(v.members[k], prefix + k + ".", depth + 1, sample)
  }

  function OpaqueItems(v: Json, n: nat, prefix: string, depth: nat, sample: nat): (r: set<string>)
    requires v.Arr? && n <= |v.items|
    decreases v, 1
  {
    set i, p | 0 <= i < n && i < sample && p in OpaqueItem(v, i, prefix, depth, sample) :: p
  }

  function OpaqueItem(v: Json, i: nat, prefix: string, depth: nat, sample: nat): (r: set<string>)
    requires v.Arr? && i < |v.items|
    decreases v, 0
  {
    ObservedOpaque(v.items[i], ListPrefix(prefix), depth + 1, sample)
  }

  method ObserveOpaque(v: Json, prefix: string, depth: nat, sample: nat) returns (out: set<string>)
    ensures out == ObservedOpaque(v, prefix, depth, sample)
    decreases v
  {
    out := {};
    if depth > OBSERVE_DEPTH {
      return;
    }
    if v.Obj? {
      var m := v.members;
      var todo := m.Keys;
      while todo != {}
        invariant todo <= m.Keys
        invariant out == OpaqueMembers(v, m.Keys - todo, prefix, depth, sample)
        decreases todo
      {
        var k :| k in todo;
        ghost var before := out;
        if m[k] == Null {
          out := out + {prefix + k};
        }
        var below := ObserveOpaque(m[k], prefix + k + ".", depth + 1, sample);
        out := out + below;
        assert out == before + OpaqueMember(v, k, prefix, depth, sample);
        todo := todo - {k};
      }
      assert m.Keys - todo == m.Keys;
    } else if v.Arr? {
      var xs := v.items;
      if xs == [] {
        out := {EmptyListMark(prefix)};
        return;
      }
      for i := 0 to |xs|
        invariant out == OpaqueItems(v, i, prefix, depth, sample)
      {
        if i < sample {
          var below := ObserveOpaque(xs[i], ListPrefix(prefix), depth + 1, sample);
          assert below == OpaqueItem(v, i, prefix, depth, sample);
          out := out + below;
        }
      }
    }
  }

  lemma ListPrefixOf(path: string)
    ensures ListPrefix(path + ".") == path + "[*]." == path + "[*]" + "."
    ensures EmptyListMark(path + ".") == path + "[*]"
  {
    var prefix := path + ".";
    assert prefix[..|prefix| - 1] == path;
  }

  /** What a name is put after: nothing, or a path and a dot. */
  predicate IsPrefix(prefix: string) {
    prefix != "" ==> prefix[|prefix| - 1] == '.'
  }

  lemma PrefixesOf(path: string)
    ensures IsPrefix(path + ".") && IsPrefix(path + "[*].") && IsPrefix(ListPrefix(path + "."))
  {
    ListPrefixOf(path);
  }

  /** `p` is `o` or continues it with a dot or a bracket. */
  predicate Below(p: string, o: string) {
    p == o || o + "." <= p || o + "[" <= p
  }

  /** Nothing observed below a position leaves it: every path under prefix `at + "."` is
      below `at`. */
  lemma {:induction false} ObservedStaysBelow(v: Json, at: string, depth: nat, sample: nat, p: string)
    requires p in Observed(v, at + ".", depth, sample)
    ensures Below(p, at)
    decreases v
  {
    var prefix := at + ".";
    match v
    case Obj(m) =>
      var k :| k in m && p in ObservedMember(v, k, prefix, depth, sample);
      if p != prefix + k {
        ObservedStaysBelow(m[k], prefix + k, depth + 1, sample, p);
      }
    case Arr(xs) =>
      assert p in ObservedItems(v, |xs|, prefix, depth, sample);
      var i :| 0 <= i < |xs| && i < sample && p in ObservedItem(v, i, prefix, depth, sample);
      assert prefix[..|prefix| - 1] == at;
      assert ListPrefix(prefix) == (at + "[*]") + ".";
      ObservedStaysBelow(xs[i], at + "[*]", depth + 1, sample, p);
      assert at + "[" <= at + "[*]" <= p;
  }
}
