/** Finding routes that an earlier registration already answers (`scripts/shadowed_routes.py`), against
    first-match dispatch. Paths are sequences of segments, each a whole literal or a whole parameter. */
module ShadowedRoutes {
  import opened Options
  import opened Routes

  type Pattern = seq<Segment>

  datatype Route = Route(path: Pattern, methods: set<string>)

  const PLACEHOLDER := "sample"

  // ---- matching and dispatch --------------------------------------------------------------

  /** `[^/]+` for a parameter, equality for a literal. */
  predicate SegmentMatches(segment: Segment, text: string) {
    match segment
    case Literal(t) => text == t
    case Param(_) => text != ""
  }

  predicate Matches(path: Pattern, url: seq<string>) {
    |path| == |url| && forall i :: 0 <= i < |path| ==> SegmentMatches(path[i], url[i])
  }

  predicate Answers(route: Route, verb: string, url: seq<string>) {
    verb in route.methods && Matches(route.path, url)
  }

  /** The router tries routes in the order they were registered and stops at the first hit. */
  function Dispatch(routes: seq<Route>, verb: string, url: seq<string>): (r: Option<nat>)
    ensures r.Some? ==> r.value < |routes| && Answers(routes[r.value], verb, url)
    ensures r.Some? ==> forall i :: 0 <= i < r.value ==> !Answers(routes[i], verb, url)
    ensures r.None? ==> forall i :: 0 <= i < |routes| ==> !Answers(routes[i], verb, url)
  {
    if routes == [] then None
    else
      var before := Dispatch(routes[..|routes| - 1], verb, url);
      if before.Some? then before
      else if Answers(routes[|routes| - 1], verb, url) then Some(|routes| - 1)
      else None
  }

  /** Every request for `later` is also one for `earlier`. */
  ghost predicate Covers(earlier: Pattern, later: Pattern) {
    forall url :: Matches(later, url) ==> Matches(earlier, url)
  }

  /** No request with this verb reaches the route. */
  ghost predicate Dead(routes: seq<Route>, i: nat, verb: string) {
    forall url :: Dispatch(routes, verb, url) != Some(i)
  }

  // ---- shadowed -----------------------------------------------------------------------------

  /** A request for the route's own shape: a placeholder for each parameter. */
  function Sample(path: Pattern): (r: seq<string>) {
    seq(|path|, i requires 0 <= i < |path| => if path[i].Param? then PLACEHOLDER else path[i].text)
  }

  predicate Hits(earlier: Route, later: Route) {
    earlier.path != later.path && later.methods * earlier.methods != {} && Matches(earlier.path, Sample(later.path))
  }

  /** `j` is the first earlier route found to answer route `i`. */
  predicate FirstHit(routes: seq<Route>, i: nat, j: nat) {
    j < i < |routes| && Hits(routes[j], routes[i]) && forall k :: 0 <= k < j ==> !Hits(routes[k], routes[i])
  }

  /** The inner loop: the first earlier route that answers the sample, or `i`. */
  method FindHit(routes: seq<Route>, i: nat) returns (first: nat)
    requires i < |routes|
    ensures first <= i && forall j: nat :: FirstHit(routes, i, j) <==> j == first < i
  {
    first := 0;
    while first < i && !Hits(routes[first], routes[i])
      invariant first <= i && forall k :: 0 <= k < first ==> !Hits(routes[k], routes[i])
    {
      first := first + 1;
    }
  }

  method Shadowed(routes: seq<Route>) returns (flags: seq<(nat, nat)>)
    ensures forall i: nat, j: nat :: (i, j) in flags <==> FirstHit(routes, i, j)
    ensures forall a, b :: 0 <= a < b < |flags| ==> flags[a].0 < flags[b].0
  {
    flags := [];
    for i := 0 to |routes|
      invariant forall k: nat, j: nat :: (k, j) in flags <==> k < i && FirstHit(routes, k, j)
      invariant forall a, b :: 0 <= a < b < |flags| ==> flags[a].0 < flags[b].0
      invariant forall a :: 0 <= a < |flags| ==> flags[a].0 < i
    {
      var j := FindHit(routes, i);
      if j < i {
        flags := flags + [(i, j)];
      }
    }
  }

  // ---- one sample decides ------------------------------------------------------------------------

  /** A literal spelled like the placeholder, where the other route takes a parameter. */
  predicate Misleads(earlier: Pattern, later: Pattern, k: nat) {
    k < |earlier| && k < |later| && earlier[k] == Literal(PLACEHOLDER) && later[k].Param?
  }

  lemma SampleIsOwn(path: Pattern)
    ensures Matches(path, Sample(path))
  {
  }

  /** Matching the one sample means covering every request, unless a literal is spelled `sample`
      where a parameter stands; and then it does not. */
  lemma SampleDecides(earlier: Pattern, later: Pattern)
    ensures Covers(earlier, later) <==> Matches(earlier, Sample(later)) && forall k: nat :: !Misleads(earlier, later, k)
  {
    SampleIsOwn(later);
    if Matches(earlier, Sample(later)) && forall k: nat :: !Misleads(earlier, later, k) {
      forall url | Matches(later, url) ensures Matches(earlier, url) {
        forall i | 0 <= i < |earlier| ensures SegmentMatches(earlier[i], url[i]) {
          assert !Misleads(earlier, later, i);
          assert SegmentMatches(earlier[i], Sample(later)[i]) && SegmentMatches(later[i], url[i]);
        }
      }
    }
    if k: nat :| Misleads(earlier, later, k) {
      var url := Sample(later)[k := "other"];
      assert Matches(later, url);
      assert !SegmentMatches(earlier[k], url[k]);
    }
  }

  ghost predicate NoPlaceholderLiteral(routes: seq<Route>) {
    forall i :: 0 <= i < |routes| ==> Literal(PLACEHOLDER) !in routes[i].path
  }

  lemma HitMeansCovers(routes: seq<Route>, i: nat, j: nat)
    requires NoPlaceholderLiteral(routes) && j < i < |routes|
    ensures Hits(routes[j], routes[i]) <==>
            routes[j].path != routes[i].path && routes[i].methods * routes[j].methods != {} &&
            Covers(routes[j].path, routes[i].path)
  {
    SampleDecides(routes[j].path, routes[i].path);
  }

  /** A route is flagged exactly when some single earlier route, with another path and a shared method,
      matches every request it matches. */
  lemma FlaggedExactly(routes: seq<Route>, i: nat)
    requires NoPlaceholderLiteral(routes) && i < |routes|
    ensures (exists j: nat :: FirstHit(routes, i, j)) <==>
            exists j :: 0 <= j < i && routes[j].path != routes[i].path && routes[i].methods * routes[j].methods != {} &&
                        Covers(routes[j].path, routes[i].path)
  {
    forall j | 0 <= j < i
      ensures Hits(routes[j], routes[i]) <==>
              routes[j].path != routes[i].path && routes[i].methods * routes[j].methods != {} &&
              Covers(routes[j].path, routes[i].path)
    {
      HitMeansCovers(routes, i, j);
    }
    if j :| 0 <= j < i && Hits(routes[j], routes[i]) {
      var first := FindFirst(routes, i, j);
      assert FirstHit(routes, i, first);
    }
  }

  lemma FindFirst(routes: seq<Route>, i: nat, j: nat) returns (first: nat)
    requires j < i < |routes| && Hits(routes[j], routes[i])
    ensures FirstHit(routes, i, first)
  {
    first := 0;
    while !Hits(routes[first], routes[i])
      invariant first <= j && forall k :: 0 <= k < first ==> !Hits(routes[k], routes[i])
      decreases j - first
    {
      first := first + 1;
    }
  }

  lemma CoveredIsDead(routes: seq<Route>, i: nat, j: nat, verb: string)
    requires j < i < |routes| && verb in routes[j].methods && Covers(routes[j].path, routes[i].path)
    ensures Dead(routes, i, verb)
  {
    forall url ensures Dispatch(routes, verb, url) != Some(i) {
      if Matches(routes[i].path, url) {
        assert Answers(routes[j], verb, url);
      }
    }
  }

  /** What the flag promises: on the shared methods nothing reaches the route. */
  lemma FlaggedIsDead(routes: seq<Route>, i: nat, j: nat, verb: string)
    requires NoPlaceholderLiteral(routes) && FirstHit(routes, i, j) && verb in routes[i].methods * routes[j].methods
    ensures Dead(routes, i, verb)
  {
    HitMeansCovers(routes, i, j);
    CoveredIsDead(routes, i, j, verb);
  }

  /** And conversely: a route that several earlier routes together would leave without requests is
      already covered by one of them. A verb of route `i` is dead exactly when one earlier route that
      takes it covers the path: the sample itself is what would have got through. */
  lemma DeadExactly(routes: seq<Route>, i: nat, verb: string)
    requires NoPlaceholderLiteral(routes) && i < |routes| && verb in routes[i].methods
    ensures Dead(routes, i, verb) <==>
            exists j :: 0 <= j < i && verb in routes[j].methods && Covers(routes[j].path, routes[i].path)
  {
    var sample := Sample(routes[i].path);
    SampleIsOwn(routes[i].path);
    if Dead(routes, i, verb) {
      assert Dispatch(routes, verb, sample) != Some(i);
      assert Answers(routes[i], verb, sample);
      var d := Dispatch(routes, verb, sample);
      assert d.Some? && d.value < i;
      SampleDecides(routes[d.value].path, routes[i].path);
    }
    if j :| 0 <= j < i && verb in routes[j].methods && Covers(routes[j].path, routes[i].path) {
      CoveredIsDead(routes, i, j, verb);
    }
  }

  /** So a route that is not flagged, and whose path no earlier route repeats, is reached with each of
      its methods. */
  lemma UnflaggedIsAlive(routes: seq<Route>, i: nat, verb: string)
    requires NoPlaceholderLiteral(routes) && i < |routes| && verb in routes[i].methods
    requires forall j: nat :: !FirstHit(routes, i, j)
    requires forall j :: 0 <= j < i ==> routes[j].path != routes[i].path
    ensures Dispatch(routes, verb, Sample(routes[i].path)) == Some(i)
  {
    var sample := Sample(routes[i].path);
    SampleIsOwn(routes[i].path);
    assert Answers(routes[i], verb, sample);
    var d := Dispatch(routes, verb, sample);
    if d.value < i {
      assert verb in routes[i].methods * routes[d.value].methods;
      var first := FindFirst(routes, i, d.value);
    }
  }
}
