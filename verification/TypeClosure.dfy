/** The closure of a type map over its roots (`scripts/graph_csdl_spec.py`). */
module TypeClosure {
  import opened Text

  /** A reduced type: the namespace it is declared in, the types of its properties as written, and its
      base spelled in full, empty when it has none. */
  datatype Entry = Entry(namespace: string, properties: seq<string>, base: string)

  type Types = map<string, Entry>

  const MAIN := "microsoft.graph"

  // ---- references ---------------------------------------------------------------------------

  /** A type reference in full, from the schema it was written in. */
  function Qualify(name: string, namespace: string): (r: string) {
    var i := AfterLast(name, '.');
    var head, last := if i == 0 then "" else name[..i - 1], name[i..];
    if head == "" || head == "self" then namespace + "." + last
    else if head == "graph" then MAIN + "." + last
    else name
  }

  /** What is left of `Collection(t)`. */
  function Unwrap(t: string): (r: string) {
    var open := "Collection(";
    var s := if open <= t then t[|open|..] else t;
    if s != "" && s[|s| - 1] == ')' then s[..|s| - 1] else s
  }

  /** A name spelled in full means the same wherever it is read. */
  lemma QualifiedIsFinal(name: string, namespace: string, elsewhere: string)
    requires namespace !in {"", "self", "graph"}
    ensures Qualify(Qualify(name, namespace), elsewhere) == Qualify(name, namespace)
  {
    var last := name[AfterLast(name, '.')..];
    QualifyLast(namespace, last, elsewhere);
    QualifyLast(MAIN, last, elsewhere);
  }

  lemma QualifyLast(head: string, last: string, elsewhere: string)
    requires '.' !in last && head !in {"", "self", "graph"}
    ensures Qualify(head + "." + last, elsewhere) == head + "." + last
  {
    LastPart(head, last);
  }

  lemma LastPart(head: string, last: string)
    requires '.' !in last
    ensures AfterLast(head + "." + last, '.') == |head| + 1
    ensures (head + "." + last)[..|head|] == head && (head + "." + last)[|head| + 1..] == last
  {
    assert head + "." + last == head + ['.'] + last;
    assert AfterLast(head + ['.'] + last, '.') == |head| + 1 by {
      AfterLastOver(head, '.', last);
      AfterLastNone(last, '.');
    }
  }

  function Root(root: string): (r: string) {
    if '.' in root then root else Qualify(root, MAIN)
  }

  function Starts(roots: seq<string>): (r: seq<string>) {
    seq(|roots|, i requires 0 <= i < |roots| => Root(roots[i]))
  }

  /** The types an entry refers to, through its properties and its base. */
  function Successors(e: Entry): (r: seq<string>) {
    var namespace := if e.namespace == "" then MAIN else e.namespace;
    seq(|e.properties|, i requires 0 <= i < |e.properties| => Qualify(Unwrap(e.properties[i]), namespace)) +
    if e.base == "" then [] else [e.base]
  }

  /** Which declared types each declared type refers to. */
  type Graph = map<string, set<string>>

  function GraphOf(types: Types): (g: Graph)
    ensures g.Keys == types.Keys
  {
    map k | k in types :: Declared(types, Successors(types[k]))
  }

  function Declared(types: Types, names: seq<string>): (r: set<string>) {
    set m | m in names && m in types
  }

  // ---- reachability --------------------------------------------------------------------------

  /** A chain of declared types, each referring to the next, that begins at a start. */
  ghost predicate IsChain(g: Graph, starts: set<string>, chain: seq<string>) {
    chain != [] && chain[0] in starts && (forall i :: 0 <= i < |chain| ==> chain[i] in g) &&
    forall i :: 0 < i < |chain| ==> chain[i] in g[chain[i - 1]]
  }

  ghost predicate Reaches(g: Graph, starts: set<string>, name: string) {
    exists chain :: IsChain(g, starts, chain) && chain[|chain| - 1] == name
  }

  ghost function Reachable(g: Graph, starts: set<string>): (r: set<string>) {
    set name | name in g && Reaches(g, starts, name)
  }

  /** A set of types that holds the starts and what its members refer to. */
  ghost predicate IsClosed(g: Graph, starts: set<string>, names: set<string>) {
    starts * g.Keys <= names && forall n :: n in names && n in g ==> g[n] * g.Keys <= names
  }

  lemma {:induction false} ChainStaysInClosed(g: Graph, starts: set<string>, names: set<string>, chain: seq<string>,
                                              i: nat)
    requires IsClosed(g, starts, names) && IsChain(g, starts, chain) && i < |chain|
    ensures chain[i] in names
    decreases i
  {
    if i != 0 {
      ChainStaysInClosed(g, starts, names, chain, i - 1);
      assert chain[i] in g[chain[i - 1]] * g.Keys;
    } else {
      assert chain[0] in starts * g.Keys;
    }
  }

  lemma LongerChain(g: Graph, starts: set<string>, n: string, m: string)
    requires n in Reachable(g, starts) && m in g[n] && m in g
    ensures m in Reachable(g, starts)
  {
    var chain :| IsChain(g, starts, chain) && chain[|chain| - 1] == n;
    var longer := chain + [m];
    assert IsChain(g, starts, longer) && longer[|longer| - 1] == m;
  }

  lemma ReachableIsClosed(g: Graph, starts: set<string>)
    ensures IsClosed(g, starts, Reachable(g, starts))
  {
    var names := Reachable(g, starts);
    forall s | s in starts * g.Keys ensures s in names {
      var chain := [s];
      assert IsChain(g, starts, chain) && chain[|chain| - 1] == s;
    }
    forall n | n in names ensures g[n] * g.Keys <= names {
      forall m | m in g[n] * g.Keys ensures m in names {
        LongerChain(g, starts, n, m);
      }
    }
  }

  /** The reachable types are the least closed set. */
  lemma ReachableIsLeast(g: Graph, starts: set<string>, names: set<string>)
    requires IsClosed(g, starts, names)
    ensures Reachable(g, starts) <= names
  {
    forall n | n in Reachable(g, starts) ensures n in names {
      var chain :| IsChain(g, starts, chain) && chain[|chain| - 1] == n;
      ChainStaysInClosed(g, starts, names, chain, |chain| - 1);
    }
  }

  // ---- closure ---------------------------------------------------------------------------------

  function Restrict(types: Types, names: set<string>): (r: Types)
    ensures r.Keys == types.Keys * names
  {
    map k | k in types && k in names :: types[k]
  }

  /** Whatever still has to be kept is reached through the queue ... */
  ghost predicate Covers(g: Graph, starts: set<string>, wanted: set<string>, queue: set<string>) {
    wanted <= g.Keys && starts * g.Keys <= wanted + queue &&
    forall n :: n in wanted && n in g ==> g[n] * g.Keys <= wanted + queue
  }

  /** ... and nothing else is in it. */
  ghost predicate Within(g: Graph, names: set<string>, wanted: set<string>, queue: set<string>) {
    wanted <= names && queue * g.Keys <= names
  }

  lemma SkipKeeps(g: Graph, starts: set<string>, wanted: set<string>, queue: set<string>, name: string,
                  rest: set<string>)
    requires Covers(g, starts, wanted, queue) && queue <= rest + {name} && (name in g ==> name in wanted)
    ensures Covers(g, starts, wanted, rest)
  {
    forall n | n in wanted && n in g ensures g[n] * g.Keys <= wanted + rest {
      assert g[n] * g.Keys <= wanted + queue;
    }
  }

  lemma TakeKeeps(g: Graph, starts: set<string>, wanted: set<string>, queue: set<string>, name: string,
                  rest: set<string>)
    requires Covers(g, starts, wanted, queue) && queue <= rest + {name} && name in g && g[name] <= rest
    ensures Covers(g, starts, wanted + {name}, rest)
  {
    forall n | n in wanted + {name} && n in g ensures g[n] * g.Keys <= wanted + {name} + rest {
      if n != name {
        assert g[n] * g.Keys <= wanted + queue;
      }
    }
  }

  lemma NothingLeft(g: Graph, starts: set<string>, wanted: set<string>)
    requires Covers(g, starts, wanted, {}) && Within(g, Reachable(g, starts), wanted, {})
    ensures wanted == Reachable(g, starts)
  {
    forall n | n in wanted && n in g ensures g[n] * g.Keys <= wanted {
      assert g[n] * g.Keys <= wanted + {};
    }
    ReachableIsLeast(g, starts, wanted);
  }

  lemma QueueSplits(queue: seq<string>, more: seq<string>)
    requires queue != []
    ensures ToSet(queue) == ToSet(queue[..|queue| - 1]) + {queue[|queue| - 1]}
    ensures ToSet(queue[..|queue| - 1] + more) == ToSet(queue[..|queue| - 1]) + ToSet(more)
  {
    assert queue == queue[..|queue| - 1] + [queue[|queue| - 1]];
  }

  /** What the closure of `types` over `roots` keeps. */
  ghost function Kept(types: Types, roots: seq<string>): (r: Types) {
    Restrict(types, Reachable(GraphOf(types), ToSet(Starts(roots))))
  }

  /** The worklist: on every type map, cyclic ones included, it ends and keeps exactly the declared
      types that the roots reach. */
  method Closure(types: Types, roots: seq<string>) returns (kept: Types)
    ensures kept == Kept(types, roots)
  {
    var queue := Starts(roots);
    var wanted: set<string> := {};
    ghost var g, starts := GraphOf(types), ToSet(queue);
    ghost var names := Reachable(g, starts);
    ReachableIsClosed(g, starts);
    while queue != []
      invariant Covers(g, starts, wanted, ToSet(queue)) && Within(g, names, wanted, ToSet(queue))
      decreases types.Keys - wanted, |queue|
    {
      var name := queue[|queue| - 1];
      var rest := queue[..|queue| - 1];
      if name !in types || name in wanted {
        QueueSplits(queue, []);
        SkipKeeps(g, starts, wanted, ToSet(queue), name, ToSet(rest));
        queue := rest;
      } else {
        var more := Successors(types[name]);
        QueueSplits(queue, more);
        DeclaredOnly(types, name);
        TakeKeeps(g, starts, wanted, ToSet(queue), name, ToSet(rest + more));
        assert name in names;
        wanted := wanted + {name};
        queue := rest + more;
      }
    }
    assert ToSet(queue) == {};
    NothingLeft(g, starts, wanted);
    kept := Restrict(types, wanted);
  }

  lemma DeclaredOnly(types: Types, name: string)
    requires name in types
    ensures GraphOf(types)[name] == ToSet(Successors(types[name])) * types.Keys
  {
  }

  /** More roots keep more types. */
  lemma ClosureIsMonotone(types: Types, fewer: seq<string>, more: seq<string>)
    requires ToSet(fewer) <= ToSet(more)
    ensures Kept(types, fewer).Keys <= Kept(types, more).Keys
  {
    var g := GraphOf(types);
    forall s | s in ToSet(Starts(fewer)) ensures s in ToSet(Starts(more)) {
      var i :| 0 <= i < |fewer| && Starts(fewer)[i] == s;
      assert fewer[i] in ToSet(more);
      var j :| 0 <= j < |more| && more[j] == fewer[i];
      assert Starts(more)[j] == s;
    }
    ReachableIsClosed(g, ToSet(Starts(more)));
    assert IsClosed(g, ToSet(Starts(fewer)), Reachable(g, ToSet(Starts(more))));
    ReachableIsLeast(g, ToSet(Starts(fewer)), Reachable(g, ToSet(Starts(more))));
  }

  /** Closing what was kept keeps it all. */
  lemma ClosureIsIdempotent(types: Types, roots: seq<string>)
    ensures Kept(Kept(types, roots), roots) == Kept(types, roots)
  {
    var starts := ToSet(Starts(roots));
    var g := GraphOf(types);
    var kept := Kept(types, roots);
    var h := GraphOf(kept);
    forall n | n in kept ensures n in Reachable(h, starts) {
      var chain :| IsChain(g, starts, chain) && chain[|chain| - 1] == n;
      ReachableIsClosed(g, starts);
      forall i | 0 <= i < |chain| ensures chain[i] in kept {
        ChainStaysInClosed(g, starts, Reachable(g, starts), chain, i);
      }
      forall i | 0 < i < |chain| ensures chain[i] in h[chain[i - 1]] {
        DeclaredOnly(types, chain[i - 1]);
        DeclaredOnly(kept, chain[i - 1]);
      }
      assert IsChain(h, starts, chain);
    }
  }
}
