/** What splunkd answers to a verb a path does not take, decided twice: by the router in
    `backend/main.py` from the path of a request, and by the audit in `scripts/http_contract_audit.py`
    from the template of a route. Paths are the segments between slashes; a trailing slash is a last
    empty segment. */
module WrongVerb {
  import opened Options
  import opened Routes

  type Template = seq<Segment>

  /** A status, and whether the answer carries `Allow`. */
  datatype Answer = Answer(status: int, allow: bool)

  /** What the audit fills parameters with. */
  const MISSING := "zzz-no-such-id-00000000"

  function Fill(t: Template): (r: seq<string>) {
    seq(|t|, i requires 0 <= i < |t| => if t[i].Param? then MISSING else t[i].text)
  }

  /** The template as it is written, a parameter in braces. */
  function Written(t: Template): (r: seq<string>) {
    seq(|t|, i requires 0 <= i < |t| => if t[i].Param? then "{" + t[i].name + "}" else t[i].text)
  }

  // ---- patterns ---------------------------------------------------------------------------------

  /** The segments `words` stand at `k`. */
  predicate Run(path: seq<string>, k: nat, words: seq<string>) {
    k + |words| <= |path| && forall i :: 0 <= i < |words| ==> path[k + i] == words[i]
  }

  /** Nothing but one trailing slash is left from `k` on. */
  predicate Ends(path: seq<string>, k: nat) {
    |path| == k || (|path| == k + 1 && path[k] == "")
  }

  const SEARCH := ["splunk", "services", "search"]
  const SAVED := ["splunk", "services", "saved", "searches"]
  const INDEXES := ["splunk", "services", "data", "indexes"]
  const DATA := ["storage", "collections", "data"]

  /** `/splunk/services/search/` */
  ghost predicate IsSearch(path: seq<string>) {
    exists k: nat :: SearchAt(path, k)
  }

  predicate SearchAt(path: seq<string>, k: nat) {
    Run(path, k, SEARCH) && k + 3 < |path|
  }

  /** `/splunk/services/search/typeahead` */
  ghost predicate IsTypeahead(path: seq<string>) {
    exists k: nat :: SearchAt(path, k) && "typeahead" <= path[k + 3]
  }

  /** `/storage/collections/data/[^/]+/batch_` */
  ghost predicate IsBatch(path: seq<string>) {
    exists k: nat :: BatchAt(path, k)
  }

  predicate BatchAt(path: seq<string>, k: nat) {
    Run(path, k, DATA) && k + 4 < |path| && path[k + 3] != "" && "batch_" <= path[k + 4]
  }

  /** Where the segment after `jobs`, behind an optional `v2`, stands; 0 when there are no jobs at `k`. */
  function AfterJobs(path: seq<string>, k: nat): (s: nat) {
    if !Run(path, k, SEARCH) then 0
    else if Run(path, k + 3, ["jobs"]) then k + 4
    else if Run(path, k + 3, ["v2", "jobs"]) then k + 5
    else 0
  }

  /** A job at `s`, or its `control`, and nothing after it. */
  predicate EndsJob(path: seq<string>, s: nat) {
    s < |path| && (Ends(path, s + 1) || (Run(path, s + 1, ["control"]) && Ends(path, s + 2)))
  }

  // ---- the router ---------------------------------------------------------------------------------

  /** The pattern of a job endpoint that resolves its sid before it judges the verb. */
  predicate JobAt(path: seq<string>, k: nat) {
    var s := AfterJobs(path, k);
    s != 0 && EndsJob(path, s) && path[s] != "" && path[s] != "export"
  }

  /** The sid of the first such match at or after `k`. */
  function SidFrom(path: seq<string>, k: nat): (r: Option<string>)
    decreases |path| - k
  {
    if k >= |path| then None
    else if JobAt(path, k) then Some(path[AfterJobs(path, k)])
    else SidFrom(path, k + 1)
  }

  /** `_splunk_search_wrong_method` ; `known` is the job store. */
  ghost function SearchAnswer(verb: string, path: seq<string>, known: string -> bool): (r: Answer) {
    if IsTypeahead(path) || verb == "PUT" || verb == "PATCH" then Answer(405, false)
    else
      var sid := SidFrom(path, 0);
      if sid.Some? && !known(sid.value) then Answer(404, false) else Answer(405, true)
  }

  function TrimEmpty(segments: seq<string>): (r: seq<string>) {
    if segments != [] && segments[0] == "" then TrimEmpty(segments[1..])
    else if segments != [] && segments[|segments| - 1] == "" then TrimEmpty(segments[..|segments| - 1])
    else segments
  }

  /** `_splunk_invalid_custom_action` */
  predicate IsInvalidAction(verb: string, path: seq<string>) {
    verb == "DELETE" && |path| > 4 && (Run(path, 0, SAVED) || Run(path, 0, INDEXES)) && |TrimEmpty(path[4..])| == 2
  }

  /** `_splunk_wrong_method` */
  ghost function RouterAnswer(verb: string, path: seq<string>, known: string -> bool): (r: Answer) {
    if IsSearch(path) then SearchAnswer(verb, path, known)
    else if verb == "PATCH" then Answer(405, false)
    else if verb == "PUT" then Answer(404, false)
    else if IsInvalidAction(verb, path) then Answer(404, false)
    else if IsBatch(path) then Answer(405, true)
    else Answer(400, false)
  }

  // ---- the audit ------------------------------------------------------------------------------------

  /** `/splunk/services/search/(v2/)?jobs/{sid}(/control)?/?$` */
  ghost predicate SidFirst(t: Template) {
    exists k: nat :: SidFirstAt(t, k)
  }

  predicate SidFirstAt(t: Template, k: nat) {
    var s := AfterJobs(Written(t), k);
    s != 0 && EndsJob(Written(t), s) && t[s].Param?
  }

  /** `/splunk/services/(saved/searches|data/indexes)/{name}/[^/]+/?$` */
  ghost predicate CustomAction(t: Template) {
    exists k: nat :: CustomActionAt(t, k)
  }

  predicate CustomActionAt(t: Template, k: nat) {
    (Run(Written(t), k, SAVED) || Run(Written(t), k, INDEXES)) && k + 5 < |t| && t[k + 4].Param? &&
    Written(t)[k + 5] != "" && Ends(Written(t), k + 6)
  }

  /** `_splunk_expectation` */
  ghost function Expectation(verb: string, t: Template): (r: Answer) {
    var path := Written(t);
    if verb == "PATCH" then Answer(405, false)
    else if verb == "PUT" then (if IsSearch(path) then Answer(405, false) else Answer(404, false))
    else if IsTypeahead(path) then Answer(405, false)
    else if SidFirst(t) then Answer(404, false)
    else if verb == "DELETE" && CustomAction(t) then Answer(404, false)
    else if IsSearch(path) || IsBatch(path) then Answer(405, true)
    else Answer(400, false)
  }

  // ---- the two agree ----------------------------------------------------------------------------------

  /** What follows `jobs` is a parameter or `export`. */
  ghost predicate JobsAreNamed(t: Template) {
    forall i :: 0 < i < |t| && t[i - 1] == Literal("jobs") ==> t[i].Param? || t[i].text in {"export", ""}
  }

  /** A route of the splunkd mount: `splunk` is its first segment and no other, only a trailing slash
      makes an empty segment, and what follows `jobs`, `searches` or `indexes` is a parameter or, for
      jobs, `export`. */
  ghost predicate IsRoute(t: Template) {
    t != [] && t[0] == Literal("splunk") && JobsAreNamed(t) &&
    (forall i :: 0 < i < |t| ==> t[i] != Literal("splunk")) &&
    (forall i :: 0 <= i < |t| - 1 ==> t[i] != Literal("")) &&
    (forall i :: 0 < i < |t| && t[i - 1] in {Literal("searches"), Literal("indexes")} ==>
                 t[i].Param? || t[i].text == "")
  }

  /** The two readings of a custom action come to the same where they are asked: on the search service the
      audit alone would look for one, elsewhere both look. */
  ghost predicate ActionsAgree(t: Template) {
    IsTypeahead(Written(t)) || SidFirst(t) ||
    if IsSearch(Written(t)) then !CustomAction(t) else IsInvalidAction("DELETE", Fill(t)) <==> CustomAction(t)
  }

  /** Neither a filled nor a written parameter is one of these words. */
  predicate IsWord(word: string) {
    word != MISSING && (word == "" || word[0] != '{')
  }

  lemma SameWord(t: Template, i: nat, word: string)
    requires i < |t| && IsWord(word)
    ensures Fill(t)[i] == word <==> Written(t)[i] == word
    ensures Fill(t)[i] == word <==> t[i] == Literal(word)
  {
  }

  lemma SameRun(t: Template, k: nat, words: seq<string>)
    requires forall i :: 0 <= i < |words| ==> IsWord(words[i])
    ensures Run(Fill(t), k, words) <==> Run(Written(t), k, words)
    ensures Run(Fill(t), k, words) <==>
            k + |words| <= |t| && forall i :: 0 <= i < |words| ==> t[k + i] == Literal(words[i])
  {
    if k + |words| <= |t| {
      forall i | 0 <= i < |words|
        ensures Fill(t)[k + i] == words[i] <==> Written(t)[k + i] == words[i]
        ensures Fill(t)[k + i] == words[i] <==> t[k + i] == Literal(words[i])
      {
        SameWord(t, k + i, words[i]);
      }
    }
  }

  lemma RunAt(t: Template, k: nat, words: seq<string>, i: nat)
    requires forall j :: 0 <= j < |words| ==> IsWord(words[j])
    requires Run(Fill(t), k, words) && i < |words|
    ensures k + i < |t| && t[k + i] == Literal(words[i])
  {
    SameRun(t, k, words);
  }

  lemma SameEnds(t: Template, k: nat)
    ensures Ends(Fill(t), k) <==> Ends(Written(t), k)
  {
    if |t| == k + 1 {
      SameWord(t, k, "");
    }
  }

  lemma SamePrefix(t: Template, i: nat, word: string)
    requires i < |t| && word != "" && word[0] != '{' && word[0] != MISSING[0]
    ensures word <= Fill(t)[i] <==> word <= Written(t)[i]
  {
    if t[i].Param? {
      assert Written(t)[i][0] == '{';
      assert Fill(t)[i][0] == MISSING[0];
    }
  }

  lemma SameSearch(t: Template)
    ensures IsSearch(Fill(t)) <==> IsSearch(Written(t))
    ensures IsTypeahead(Fill(t)) <==> IsTypeahead(Written(t))
  {
    forall k: nat ensures SearchAt(Fill(t), k) <==> SearchAt(Written(t), k) {
      SameRun(t, k, SEARCH);
    }
    forall k: nat | SearchAt(Fill(t), k) ensures "typeahead" <= Fill(t)[k + 3] <==> "typeahead" <= Written(t)[k + 3] {
      SamePrefix(t, k + 3, "typeahead");
    }
  }

  lemma SameBatch(t: Template)
    ensures IsBatch(Fill(t)) <==> IsBatch(Written(t))
  {
    forall k: nat ensures BatchAt(Fill(t), k) <==> BatchAt(Written(t), k) {
      SameRun(t, k, DATA);
      if k + 4 < |t| {
        SameWord(t, k + 3, "");
        SamePrefix(t, k + 4, "batch_");
      }
    }
  }

  lemma SameJobsRuns(t: Template, k: nat)
    ensures Run(Fill(t), k, SEARCH) == Run(Written(t), k, SEARCH)
    ensures Run(Fill(t), k + 3, ["jobs"]) == Run(Written(t), k + 3, ["jobs"])
    ensures Run(Fill(t), k + 3, ["v2", "jobs"]) == Run(Written(t), k + 3, ["v2", "jobs"])
  {
    SameRun(t, k, SEARCH);
    SameRun(t, k + 3, ["jobs"]);
    SameRun(t, k + 3, ["v2", "jobs"]);
  }

  lemma SameJobs(t: Template, k: nat)
    ensures AfterJobs(Fill(t), k) == AfterJobs(Written(t), k)
    ensures AfterJobs(Fill(t), k) != 0 ==>
            k + 4 <= AfterJobs(Fill(t), k) <= |t| && t[AfterJobs(Fill(t), k) - 1] == Literal("jobs")
  {
    SameJobsRuns(t, k);
    if Run(Fill(t), k + 3, ["jobs"]) {
      RunAt(t, k + 3, ["jobs"], 0);
    } else if Run(Fill(t), k + 3, ["v2", "jobs"]) {
      RunAt(t, k + 3, ["v2", "jobs"], 1);
    }
  }

  lemma SameJob(t: Template, k: nat)
    requires JobsAreNamed(t)
    ensures JobAt(Fill(t), k) <==> SidFirstAt(t, k)
    ensures JobAt(Fill(t), k) ==> Fill(t)[AfterJobs(Fill(t), k)] == MISSING && IsSearch(Fill(t))
  {
    SameJobs(t, k);
    var s := AfterJobs(Fill(t), k);
    if s != 0 && s < |t| {
      SameEnds(t, s + 1);
      SameEnds(t, s + 2);
      SameRun(t, s + 1, ["control"]);
      assert t[s - 1] == Literal("jobs") ==> t[s].Param? || t[s].text in {"export", ""};
      assert Run(Fill(t), k, SEARCH) && k + 3 < |Fill(t)|;
      assert SearchAt(Fill(t), k);
    }
  }

  ghost predicate SidFirstFrom(t: Template, k: nat) {
    exists j: nat :: k <= j && SidFirstAt(t, j)
  }

  lemma SidFirstSplits(t: Template, k: nat)
    ensures SidFirstFrom(t, k) <==> SidFirstAt(t, k) || SidFirstFrom(t, k + 1)
  {
  }

  lemma SidFirstIsInside(t: Template, k: nat)
    requires SidFirstAt(t, k)
    ensures k < |t|
  {
    SameJobs(t, k);
  }

  lemma SidFound(path: seq<string>, k: nat)
    requires k < |path| && JobAt(path, k)
    ensures SidFrom(path, k) == Some(path[AfterJobs(path, k)])
  {
  }

  lemma SidSkipped(path: seq<string>, k: nat)
    requires k < |path| && !JobAt(path, k)
    ensures SidFrom(path, k) == SidFrom(path, k + 1)
  {
  }

  lemma SidPastTheEnd(t: Template, k: nat)
    requires k >= |t|
    ensures SidFrom(Fill(t), k) == None && !SidFirstFrom(t, k)
  {
    if j: nat :| k <= j && SidFirstAt(t, j) {
      SidFirstIsInside(t, j);
    }
  }

  lemma {:induction false} SameSid(t: Template, k: nat)
    requires JobsAreNamed(t)
    ensures SidFrom(Fill(t), k) == if SidFirstFrom(t, k) then Some(MISSING) else None
    decreases |t| - k
  {
    if k >= |t| {
      SidPastTheEnd(t, k);
    } else {
      SameJob(t, k);
      SidFirstSplits(t, k);
      if JobAt(Fill(t), k) {
        SidFound(Fill(t), k);
      } else {
        SidSkipped(Fill(t), k);
        SameSid(t, k + 1);
      }
    }
  }

  lemma SameSidFirst(t: Template)
    requires JobsAreNamed(t)
    ensures SidFrom(Fill(t), 0) == if SidFirst(t) then Some(MISSING) else None
    ensures SidFirst(t) ==> IsSearch(Fill(t))
  {
    SameSid(t, 0);
    if k: nat :| SidFirstAt(t, k) {
      SameJob(t, k);
    }
  }

  lemma TrimmedRest(rest: seq<string>)
    requires forall i :: 0 <= i < |rest| - 1 ==> rest[i] != ""
    ensures TrimEmpty(rest) == if rest != [] && rest[|rest| - 1] == "" then rest[..|rest| - 1] else rest
  {
    if |rest| == 1 && rest[0] == "" {
      assert TrimEmpty(rest[1..]) == [] == rest[..0];
    } else if rest != [] && rest[|rest| - 1] == "" {
      var shorter := rest[..|rest| - 1];
      assert TrimEmpty(rest) == TrimEmpty(shorter) == shorter;
    }
  }

  lemma ActionOnlyAtStart(t: Template, k: nat)
    requires IsRoute(t) && CustomActionAt(t, k)
    ensures k == 0
  {
    SameRun(t, k, SAVED);
    SameRun(t, k, INDEXES);
    if Run(Fill(t), k, SAVED) {
      RunAt(t, k, SAVED, 0);
    } else {
      RunAt(t, k, INDEXES, 0);
    }
  }

  /** Two parts are left behind the prefix exactly when a name and an action follow it. */
  lemma SameTail(t: Template)
    requires IsRoute(t) && |t| > 4 && t[3] in {Literal("searches"), Literal("indexes")}
    ensures |TrimEmpty(Fill(t)[4..])| == 2 <==> 5 < |t| && t[4].Param? && Written(t)[5] != "" && Ends(Written(t), 6)
  {
    var path := Fill(t);
    var rest := path[4..];
    assert t[4].Param? || t[4].text == "";
    forall i | 0 <= i < |rest| - 1 ensures rest[i] != "" {
      assert rest[i] == path[4 + i];
    }
    TrimmedRest(rest);
    SameEnds(t, 6);
    if |t| > 5 {
      SameWord(t, 5, "");
      assert rest[1] == path[5];
      assert rest[|rest| - 1] == path[|path| - 1];
    }
  }

  lemma SameActionPrefix(t: Template)
    ensures Run(Fill(t), 0, SAVED) || Run(Fill(t), 0, INDEXES) <==>
            Run(Written(t), 0, SAVED) || Run(Written(t), 0, INDEXES)
    ensures Run(Fill(t), 0, SAVED) || Run(Fill(t), 0, INDEXES) ==>
            |t| > 3 && t[3] in {Literal("searches"), Literal("indexes")}
  {
    SameRun(t, 0, SAVED);
    SameRun(t, 0, INDEXES);
    if Run(Fill(t), 0, SAVED) {
      RunAt(t, 0, SAVED, 3);
    } else if Run(Fill(t), 0, INDEXES) {
      RunAt(t, 0, INDEXES, 3);
    }
  }

  lemma SameActionAtStart(t: Template)
    requires IsRoute(t)
    ensures IsInvalidAction("DELETE", Fill(t)) <==> CustomActionAt(t, 0)
  {
    SameActionPrefix(t);
    if (Run(Fill(t), 0, SAVED) || Run(Fill(t), 0, INDEXES)) && |t| > 4 {
      SameTail(t);
    }
  }

  lemma SameAction(t: Template)
    requires IsRoute(t)
    ensures IsInvalidAction("DELETE", Fill(t)) <==> CustomAction(t)
  {
    SameActionAtStart(t);
    if k: nat :| CustomActionAt(t, k) {
      ActionOnlyAtStart(t, k);
    }
  }

  lemma SearchOnlyAtStart(t: Template, k: nat)
    requires IsRoute(t) && SearchAt(Fill(t), k)
    ensures k == 0 && |t| > 2 && t[2] == Literal("search")
  {
    RunAt(t, k, SEARCH, 0);
    RunAt(t, k, SEARCH, 2);
  }

  lemma ActionThirdSegment(t: Template)
    requires CustomActionAt(t, 0)
    ensures |t| > 2 && t[2] != Literal("search")
  {
    SameRun(t, 0, SAVED);
    SameRun(t, 0, INDEXES);
    if Run(Fill(t), 0, SAVED) {
      RunAt(t, 0, SAVED, 2);
    } else {
      RunAt(t, 0, INDEXES, 2);
    }
  }

  /** An action path is not a search path: they differ in their third segment. */
  lemma ActionIsNotSearch(t: Template)
    requires IsRoute(t) && CustomAction(t)
    ensures !IsSearch(Fill(t))
  {
    var k: nat :| CustomActionAt(t, k);
    ActionOnlyAtStart(t, k);
    ActionThirdSegment(t);
    if j: nat :| SearchAt(Fill(t), j) {
      SearchOnlyAtStart(t, j);
    }
  }

  /** For every template and every job store that lacks the name the audit uses, the two rules agree on
      all verbs if and only if they agree on what a custom action is. */
  lemma RulesAgreeExactly(t: Template)
    requires JobsAreNamed(t)
    ensures (forall verb: string, known: string -> bool ::
               !known(MISSING) ==> RouterAnswer(verb, Fill(t), known) == Expectation(verb, t)) <==> ActionsAgree(t)
  {
    SameSearch(t);
    SameBatch(t);
    SameSidFirst(t);
    if !ActionsAgree(t) {
      var known: string -> bool := _ => false;
      assert RouterAnswer("DELETE", Fill(t), known) != Expectation("DELETE", t);
    }
  }

  /** `/splunk/x/splunk/services/saved/searches/{n}/d` */
  const SECOND_SPLUNK: Template := [Literal("splunk"), Literal("x"), Literal("splunk"), Literal("services"),
                                    Literal("saved"), Literal("searches"), Param("n"), Literal("d")]

  lemma SearchIsThird(path: seq<string>, k: nat)
    requires Run(path, k, SEARCH)
    ensures "search" in path
  {
    assert path[k + 2] == SEARCH[2];
  }

  lemma SecondSplunkIsNoSearch(k: nat)
    ensures !Run(Written(SECOND_SPLUNK), k, SEARCH)
  {
    if Run(Written(SECOND_SPLUNK), k, SEARCH) {
      SearchIsThird(Written(SECOND_SPLUNK), k);
    }
  }

  /** A template on which they do not agree: behind a second `splunk` the audit sees a custom action and the
      router does not. No route of the mount is like this. */
  lemma ActionsCanDiffer()
    ensures JobsAreNamed(SECOND_SPLUNK) && !ActionsAgree(SECOND_SPLUNK)
  {
    var t := SECOND_SPLUNK;
    forall k: nat ensures !SearchAt(Written(t), k) && !SidFirstAt(t, k) {
      SecondSplunkIsNoSearch(k);
    }
    var path := Written(t);
    assert forall i :: 0 <= i < |SAVED| ==> path[2 + i] == SAVED[i];
    assert CustomActionAt(t, 2);
    assert Fill(t)[1] != SAVED[1] && Fill(t)[1] != INDEXES[1];
  }

  /** For every verb, every route of the mount and every job store that lacks the name the audit uses,
      the router answers with the status the audit expects, and with `Allow` exactly where it does. */
  lemma RulesAgree(verb: string, t: Template, known: string -> bool)
    requires IsRoute(t) && !known(MISSING)
    ensures RouterAnswer(verb, Fill(t), known) == Expectation(verb, t)
  {
    RulesAgreeExactly(t);
    SameSearch(t);
    SameAction(t);
    if CustomAction(t) {
      ActionIsNotSearch(t);
    }
  }
}
