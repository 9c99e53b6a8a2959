/** Which verbs a path takes (`_path_is_registered` and `_allowed_methods_for` in `backend/main.py`). */
module VerbProbe {
  import opened Text

  /** A route of the table: which paths it owns, the verbs it takes, whether asking it about a path
      raises, and whether it is the fallback that claims everything. A mount takes every verb. */
  datatype Route = Route(owns: string -> bool, verbs: set<string>, mount: bool, raises: string -> bool, fallback: bool)

  datatype Match = NoMatch | Partial | Full

  /** `route.matches(scope)` ; a route that raises is not a match. */
  function MatchOf(route: Route, verb: string, path: string): (r: Match) {
    if route.raises(path) || !route.owns(path) then NoMatch
    else if route.mount || verb in route.verbs then Full
    else Partial
  }

  /** The verbs that are offered in turn. */
  const PROBED := ["GET", "POST", "PUT", "PATCH", "DELETE", "HEAD", "OPTIONS"]

  predicate Owned(routes: seq<Route>, path: string) {
    exists i :: 0 <= i < |routes| && !routes[i].fallback && MatchOf(routes[i], "GET", path) != NoMatch
  }

  predicate Accepted(routes: seq<Route>, verb: string, path: string) {
    exists i :: 0 <= i < |routes| && !routes[i].fallback && MatchOf(routes[i], verb, path) == Full
  }

  method PathIsRegistered(routes: seq<Route>, path: string) returns (r: bool)
    ensures r == Owned(routes, path)
  {
    for i := 0 to |routes|
      invariant forall j :: 0 <= j < i && !routes[j].fallback ==> MatchOf(routes[j], "GET", path) == NoMatch
    {
      if !routes[i].fallback && MatchOf(routes[i], "GET", path) != NoMatch {
        return true;
      }
    }
    r := false;
  }

  /** The verbs of `PROBED[..n]` that some route accepts, in that order. */
  function Probed(routes: seq<Route>, path: string, n: nat): (r: seq<string>)
    requires n <= |PROBED|
  {
    if n == 0 then []
    else Probed(routes, path, n - 1) + if Accepted(routes, PROBED[n - 1], path) then [PROBED[n - 1]] else []
  }

  function WithHead(allowed: seq<string>, servesHead: bool): (r: seq<string>) {
    if "GET" in allowed && "HEAD" !in allowed && servesHead then allowed + ["HEAD"] else allowed
  }

  /** The seven-verb probe without the early exit. */
  function Unguarded(routes: seq<Route>, path: string, servesHead: bool): (r: seq<string>) {
    WithHead(Probed(routes, path, |PROBED|), servesHead)
  }

  method VerbIsAccepted(routes: seq<Route>, verb: string, path: string) returns (r: bool)
    ensures r == Accepted(routes, verb, path)
  {
    for i := 0 to |routes|
      invariant forall j :: 0 <= j < i && !routes[j].fallback ==> MatchOf(routes[j], verb, path) != Full
    {
      if !routes[i].fallback && MatchOf(routes[i], verb, path) == Full {
        return true;
      }
    }
    r := false;
  }

  lemma {:induction false} UnownedAcceptsNothing(routes: seq<Route>, path: string, n: nat)
    requires !Owned(routes, path) && n <= |PROBED|
    ensures Probed(routes, path, n) == []
    decreases n
  {
    if n != 0 {
      UnownedAcceptsNothing(routes, path, n - 1);
      assert !Accepted(routes, PROBED[n - 1], path);
    }
  }

  lemma NextVerb(n: nat)
    requires 0 < n <= |PROBED|
    ensures PROBED[..n] == PROBED[..n - 1] + [PROBED[n - 1]] && PROBED[n - 1] !in PROBED[..n - 1]
  {
  }

  lemma {:induction false} ProbedExactly(routes: seq<Route>, path: string, n: nat)
    requires n <= |PROBED|
    ensures forall verb :: verb in Probed(routes, path, n) <==> verb in PROBED[..n] && Accepted(routes, verb, path)
    decreases n
  {
    if n != 0 {
      NextVerb(n);
      ProbedExactly(routes, path, n - 1);
    }
  }

  lemma {:induction false} ProbedOnce(routes: seq<Route>, path: string, n: nat)
    requires n <= |PROBED|
    ensures NoRepeats(Probed(routes, path, n))
    decreases n
  {
    if n != 0 {
      NextVerb(n);
      ProbedOnce(routes, path, n - 1);
      ProbedExactly(routes, path, n - 1);
      if Accepted(routes, PROBED[n - 1], path) {
        AppendNew(Probed(routes, path, n - 1), PROBED[n - 1]);
      } else {
        assert Probed(routes, path, n) == Probed(routes, path, n - 1) + [] == Probed(routes, path, n - 1);
      }
    }
  }

  /** The early exit never changes the answer; the answer has no repeats, and lists exactly the probed
      verbs that a route accepts, and HEAD wherever GET is accepted and HEAD is served. */
  method AllowedMethods(routes: seq<Route>, path: string, servesHead: bool) returns (allowed: seq<string>)
    ensures allowed == Unguarded(routes, path, servesHead)
    ensures NoRepeats(allowed)
    ensures forall verb :: verb in allowed <==>
              (verb in PROBED && Accepted(routes, verb, path)) ||
              (verb == "HEAD" && servesHead && Accepted(routes, "GET", path))
    ensures allowed != [] <==> exists verb :: verb in PROBED && Accepted(routes, verb, path)
  {
    ProbedExactly(routes, path, |PROBED|);
    ProbedOnce(routes, path, |PROBED|);
    assert PROBED[..|PROBED|] == PROBED;
    assert PROBED[0] == "GET" && PROBED[5] == "HEAD";
    ghost var probed := Probed(routes, path, |PROBED|);
    assert probed != [] ==> probed[0] in probed;
    var registered := PathIsRegistered(routes, path);
    if !registered {
      UnownedAcceptsNothing(routes, path, |PROBED|);
      return [];
    }
    allowed := [];
    for n := 0 to |PROBED|
      invariant allowed == Probed(routes, path, n)
    {
      var accepted := VerbIsAccepted(routes, PROBED[n], path);
      if accepted {
        allowed := allowed + [PROBED[n]];
      }
    }
    if "GET" in allowed && "HEAD" !in allowed && servesHead {
      AppendNew(allowed, "HEAD");
      allowed := allowed + ["HEAD"];
    }
  }
}
