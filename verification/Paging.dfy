/** The paging walker of `scripts/paging_audit.py`: a client that reads a collection page by page, from a
    server that may answer anything, and the verdict `main` draws. A record is its identity. */
module Paging {
  import opened Options
  import opened Text

  /** How many pages are walked before it is called a loop. */
  const MAX_PAGES := 120

  /** What the route takes besides its page size: nothing, an offset, or a page number. */
  datatype Style = NoOffset | ByOffset | ByPage

  datatype Request = Request(limit: nat, cursor: Option<string>, position: Option<int>)

  datatype Answer =
    | Refused(code: int)
    | NotJson
    | NoCollection
    | Page(items: seq<string>, cursor: Option<string>, total: Option<int>, page: Option<int>)

  /** The answer to the last of the requests sent so far. */
  type Server = seq<Request> -> Answer

  datatype Complaint =
    | BadStatus(page: nat, code: int)
    | BadJson
    | Unpageable
    | Oversized(held: nat)
    | Repeated(n: nat)
    | Endless

  datatype Walked = Walked(order: seq<string>, total: Option<int>, complaint: Option<Complaint>)

  /** The walker's variables, with the requests it sent and the pages it was shown. */
  datatype State = State(seen: set<string>, order: seq<string>, duplicates: seq<string>, pages: nat,
                         cursor: Option<string>, offset: nat, firstPage: Option<int>, total: Option<int>,
                         sent: seq<Request>, shown: seq<seq<string>>)

  const START := State({}, [], [], 0, None, 0, None, None, [], [])

  /** `finished` says that the loop was left by its own condition or a `break`. */
  datatype Walk = Walk(result: Walked, finished: bool, sent: seq<Request>, shown: seq<seq<string>>)

  // ---- walk -----------------------------------------------------------------------------

  function PageSize(expected: nat): (r: nat)
    ensures r >= 2
  {
    var tenth := (if expected == 0 then 4 else expected) / 10;
    if tenth > 2 then tenth else 2
  }

  function NextRequest(style: Style, expected: nat, s: State): (r: Request) {
    Request(PageSize(expected), s.cursor,
            if s.cursor.Some? || style.NoOffset? || s.pages == 0 then None
            else if style.ByOffset? then Some(s.offset)
            else Some((if s.firstPage.Some? then s.firstPage.value else 0) + s.pages))
  }

  function Repeats(seen: set<string>, items: seq<string>): (r: seq<string>)
    decreases |items|
  {
    if items == [] then []
    else (if items[0] in seen then [items[0]] else []) + Repeats(seen + {items[0]}, items[1..])
  }

  /** The variables after a page was read. */
  function Read(s: State, answer: Answer, sent: seq<Request>): (r: State)
    requires answer.Page?
  {
    State(s.seen + ToSet(answer.items), s.order + answer.items,
          s.duplicates + Repeats(s.seen, answer.items), s.pages + 1,
          answer.cursor, s.offset + |answer.items|, if s.firstPage.None? then answer.page else s.firstPage,
          if s.total.None? then answer.total else s.total, sent, s.shown + [answer.items])
  }

  /** The loop's `break`s, after a page was read into `s`. */
  predicate Stops(style: Style, expected: nat, items: seq<string>, s: State) {
    items == [] ||
    (s.cursor.None? && style.NoOffset?) ||
    (s.cursor.None? && |items| < PageSize(expected)) ||
    (expected != 0 && |s.seen| >= expected)
  }

  function Finish(s: State): (r: Walk) {
    Walk(Walked(s.order, s.total,
                if s.duplicates != [] then Some(Repeated(|s.duplicates|))
                else if s.pages >= MAX_PAGES then Some(Endless)
                else None),
         true, s.sent, s.shown)
  }

  /** The rest of the walk from `s`. */
  function WalkFrom(server: Server, style: Style, expected: nat, s: State): (r: Walk)
    decreases MAX_PAGES - s.pages
  {
    if s.pages >= MAX_PAGES then Finish(s)
    else
      var sent := s.sent + [NextRequest(style, expected, s)];
      match server(sent)
      case Refused(code) => Walk(Walked(s.order, None, Some(BadStatus(s.pages, code))), false, sent, s.shown)
      case NotJson => Walk(Walked(s.order, None, Some(BadJson)), false, sent, s.shown)
      case NoCollection => Walk(Walked(s.order, None, None), false, sent, s.shown)
      case Page(items, cursor, total, page) =>
        if s.pages == 0 && cursor.None? && style.NoOffset? then
          Walk(Walked(s.order, total, Some(Unpageable)), false, sent, s.shown)
        else
          var t := Read(s, server(sent), sent);
          if |items| > PageSize(expected) then
            Walk(Walked(s.order, t.total, Some(Oversized(|items|))), false, sent, s.shown)
          else if Stops(style, expected, items, t) then Finish(t)
          else WalkFrom(server, style, expected, t)
  }

  function WalkAll(server: Server, style: Style, expected: nat): (r: Walk) {
    WalkFrom(server, style, expected, START)
  }

  /** The loop as the script runs it. */
  method WalkLoop(server: Server, style: Style, expected: nat) returns (r: Walk)
    ensures r == WalkAll(server, style, expected)
  {
    var s := START;
    while s.pages < MAX_PAGES
      invariant WalkFrom(server, style, expected, s) == WalkAll(server, style, expected)
      decreases MAX_PAGES - s.pages
    {
      var sent := s.sent + [NextRequest(style, expected, s)];
      var answer := server(sent);
      match answer {
        case Refused(code) =>
          return Walk(Walked(s.order, None, Some(BadStatus(s.pages, code))), false, sent, s.shown);
        case NotJson =>
          return Walk(Walked(s.order, None, Some(BadJson)), false, sent, s.shown);
        case NoCollection =>
          return Walk(Walked(s.order, None, None), false, sent, s.shown);
        case Page(items, cursor, total, page) =>
          if s.pages == 0 && cursor.None? && style.NoOffset? {
            return Walk(Walked(s.order, total, Some(Unpageable)), false, sent, s.shown);
          }
          if |items| > PageSize(expected) {
            return Walk(Walked(s.order, if s.total.None? then total else s.total, Some(Oversized(|items|))), false,
                        sent, s.shown);
          }
          var seen, order, duplicates := ReadItems(s.seen, s.order, s.duplicates, items);
          var t := State(seen, order, duplicates, s.pages + 1, cursor, s.offset + |items|,
                         if s.firstPage.None? then page else s.firstPage, if s.total.None? then total else s.total,
                         sent, s.shown + [items]);
          assert t == Read(s, answer, sent);
          s := t;
          if Stops(style, expected, items, s) {
            return Finish(s);
          }
      }
    }
    r := Finish(s);
  }

  method ReadItems(seen0: set<string>, order0: seq<string>, duplicates0: seq<string>, items: seq<string>)
    returns (seen: set<string>, order: seq<string>, duplicates: seq<string>)
    ensures seen == seen0 + ToSet(items) && order == order0 + items && duplicates == duplicates0 + Repeats(seen0, items)
  {
    seen, order, duplicates := seen0, order0, duplicates0;
    for i := 0 to |items|
      invariant seen == seen0 + ToSet(items[..i]) && order == order0 + items[..i]
      invariant duplicates + Repeats(seen, items[i..]) == duplicates0 + Repeats(seen0, items)
    {
      var key := items[i];
      assert items[i..][1..] == items[i + 1..];
      assert items[..i + 1] == items[..i] + [key];
      if key in seen {
        duplicates := duplicates + [key];
      }
      seen := seen + {key};
      order := order + [key];
    }
    assert items[..|items|] == items;
  }

  // ---- the verdict ---------------------------------------------------------------------------

  datatype Verdict = Clean | Skipped | Flagged

  function Judge(whole: seq<string>, w: Walked): (r: Verdict) {
    if w.complaint == Some(Unpageable) then Skipped
    else if w.complaint.Some? then Flagged
    else if exists key :: key in whole && key !in w.order then Flagged
    else if w.total.Some? && w.total.value != |whole| then Flagged
    else Clean
  }

  lemma {:induction false} GrowsBy(a: seq<string>, b: seq<string>)
    ensures |ToSet(a + b)| <= |ToSet(a)| + |b|
    decreases |b|
  {
    if b == [] {
      assert a + b == a;
    } else {
      var longer := a + [b[0]];
      ToSetAppend(a, b[0]);
      GrowsBy(longer, b[1..]);
      assert longer + b[1..] == a + b;
    }
  }

  /** Without repeats, the beginning has none ... */
  lemma NoRepeatsBefore(a: seq<string>, b: seq<string>)
    requires NoRepeats(a + b)
    ensures NoRepeats(a)
  {
    GrowsBy(a, b);
    GrowsBy([], a);
    assert [] + a == a;
    assert ToSet([]) == {};
  }

  /** ... and what follows it is new. */
  lemma NoRepeatsNext(a: seq<string>, key: string)
    requires NoRepeats(a + [key])
    ensures NoRepeats(a) && key !in a
  {
    NoRepeatsBefore(a, [key]);
    ToSetAppend(a, key);
    assert |ToSet(a) + {key}| == |ToSet(a)| + 1;
  }

  function Concat(pages: seq<seq<string>>): (r: seq<string>) {
    if pages == [] then [] else Concat(pages[..|pages| - 1]) + pages[|pages| - 1]
  }

  ghost predicate PagesFit(pages: seq<seq<string>>, size: nat) {
    forall i :: 0 <= i < |pages| ==> |pages[i]| <= size
  }

  // ---- a clean verdict means something -----------------------------------------------------------

  /** What every state of every walk satisfies. */
  ghost predicate Consistent(expected: nat, s: State) {
    s.seen == ToSet(s.order) && |s.sent| == s.pages == |s.shown| && s.pages <= MAX_PAGES &&
    s.order == Concat(s.shown) && PagesFit(s.shown, PageSize(expected)) && (s.duplicates == [] ==> NoRepeats(s.order))
  }

  lemma FirstIsNew(seen: set<string>, items: seq<string>)
    requires items != [] && Repeats(seen, items) == []
    ensures items[0] !in seen && Repeats(seen + {items[0]}, items[1..]) == []
  {
  }

  /** When no repeat was noted there is none. */
  lemma {:induction false} NoRepeatsNoted(order: seq<string>, items: seq<string>)
    requires NoRepeats(order) && Repeats(ToSet(order), items) == []
    ensures NoRepeats(order + items)
    decreases |items|
  {
    if items == [] {
      assert order + items == order;
    } else {
      FirstIsNew(ToSet(order), items);
      AppendNew(order, items[0]);
      var longer := order + [items[0]];
      NoRepeatsNoted(longer, items[1..]);
      assert longer + items[1..] == order + items;
    }
  }

  lemma ReadKeepsConsistent(expected: nat, s: State, answer: Answer, sent: seq<Request>)
    requires Consistent(expected, s) && s.pages < MAX_PAGES && answer.Page? && |answer.items| <= PageSize(expected)
    requires |sent| == |s.sent| + 1
    ensures Consistent(expected, Read(s, answer, sent))
  {
    var t := Read(s, answer, sent);
    assert t.shown[..|t.shown| - 1] == s.shown;
    assert ToSet(t.order) == ToSet(s.order) + ToSet(answer.items);
    if t.duplicates == [] {
      assert s.duplicates == [] && Repeats(s.seen, answer.items) == [];
      NoRepeatsNoted(s.order, answer.items);
    }
  }

  ghost predicate Meaningful(expected: nat, w: Walk) {
    |w.sent| <= MAX_PAGES && w.result.order == Concat(w.shown) && PagesFit(w.shown, PageSize(expected)) &&
    (w.finished && w.result.complaint.None? ==> NoRepeats(w.result.order) && |w.sent| == |w.shown| < MAX_PAGES)
  }

  lemma FinishIsMeaningful(expected: nat, s: State)
    requires Consistent(expected, s)
    ensures Meaningful(expected, Finish(s))
  {
  }

  lemma CutIsMeaningful(expected: nat, s: State, sent: seq<Request>, total: Option<int>, complaint: Option<Complaint>)
    requires Consistent(expected, s) && s.pages < MAX_PAGES && |sent| == |s.sent| + 1
    ensures Meaningful(expected, Walk(Walked(s.order, total, complaint), false, sent, s.shown))
  {
  }

  /** The next answer is a page that is read. */
  predicate IsRead(style: Style, expected: nat, s: State, answer: Answer) {
    answer.Page? && !(s.pages == 0 && answer.cursor.None? && style.NoOffset?) && |answer.items| <= PageSize(expected)
  }

  lemma WalkGoesOn(server: Server, style: Style, expected: nat, s: State, sent: seq<Request>)
    requires s.pages < MAX_PAGES && sent == s.sent + [NextRequest(style, expected, s)]
    requires IsRead(style, expected, s, server(sent))
    ensures var t := Read(s, server(sent), sent);
            WalkFrom(server, style, expected, s) ==
            if Stops(style, expected, server(sent).items, t) then Finish(t) else WalkFrom(server, style, expected, t)
  {
  }

  lemma WalkIsCut(server: Server, style: Style, expected: nat, s: State, sent: seq<Request>)
    requires s.pages < MAX_PAGES && sent == s.sent + [NextRequest(style, expected, s)]
    requires !IsRead(style, expected, s, server(sent))
    ensures var w := WalkFrom(server, style, expected, s);
            w == Walk(Walked(s.order, w.result.total, w.result.complaint), false, sent, s.shown)
  {
  }

  lemma {:induction false} WalkIsMeaningful(server: Server, style: Style, expected: nat, s: State)
    requires Consistent(expected, s)
    ensures Meaningful(expected, WalkFrom(server, style, expected, s))
    decreases MAX_PAGES - s.pages
  {
    if s.pages >= MAX_PAGES {
      FinishIsMeaningful(expected, s);
    } else {
      var sent := s.sent + [NextRequest(style, expected, s)];
      var answer := server(sent);
      if IsRead(style, expected, s, answer) {
        var t := Read(s, answer, sent);
        WalkGoesOn(server, style, expected, s, sent);
        ReadKeepsConsistent(expected, s, answer, sent);
        if Stops(style, expected, answer.items, t) {
          FinishIsMeaningful(expected, t);
        } else {
          WalkIsMeaningful(server, style, expected, t);
        }
      } else {
        var w := WalkFrom(server, style, expected, s);
        WalkIsCut(server, style, expected, s, sent);
        CutIsMeaningful(expected, s, sent, w.result.total, w.result.complaint);
      }
    }
  }

  /** A walk never sends more than 120 requests, whatever the server does. */
  lemma WalkIsBounded(server: Server, style: Style, expected: nat)
    ensures |WalkAll(server, style, expected).sent| <= MAX_PAGES
  {
    WalkIsMeaningful(server, style, expected, START);
  }

  /** Every answer that is JSON at all holds a collection. */
  ghost predicate AnswersCollections(server: Server) {
    forall sent :: server(sent) != NoCollection
  }

  /** Then a walk without a complaint has left its loop. */
  lemma {:induction false} NoComplaintMeansFinished(server: Server, style: Style, expected: nat, s: State)
    requires AnswersCollections(server) && WalkFrom(server, style, expected, s).result.complaint.None?
    ensures WalkFrom(server, style, expected, s).finished
    decreases MAX_PAGES - s.pages
  {
    if s.pages < MAX_PAGES {
      var sent := s.sent + [NextRequest(style, expected, s)];
      var answer := server(sent);
      if answer.Page? && !Stops(style, expected, answer.items, Read(s, answer, sent)) {
        NoComplaintMeansFinished(server, style, expected, Read(s, answer, sent));
      }
    }
  }

  /** A walk that is cut without a complaint has seen fewer records than it expects. */
  lemma {:induction false} CutWalkIsShort(server: Server, style: Style, expected: nat, s: State)
    requires Consistent(expected, s) && |s.seen| < expected
    requires var w := WalkFrom(server, style, expected, s); w.result.complaint.None? && !w.finished
    ensures |ToSet(WalkFrom(server, style, expected, s).result.order)| < expected
    decreases MAX_PAGES - s.pages
  {
    var sent := s.sent + [NextRequest(style, expected, s)];
    var answer := server(sent);
    if IsRead(style, expected, s, answer) {
      WalkGoesOn(server, style, expected, s, sent);
      ReadKeepsConsistent(expected, s, answer, sent);
      CutWalkIsShort(server, style, expected, Read(s, answer, sent));
    } else {
      WalkIsCut(server, style, expected, s, sent);
    }
  }

  /** The verdict is drawn from a walk that left its loop: every answer holds a collection, or the collection
      has no repeats, so that a walk cut short would miss some of it. */
  lemma CleanMeansFinished(server: Server, style: Style, whole: seq<string>)
    requires AnswersCollections(server) || (whole != [] && NoRepeats(whole))
    requires Judge(whole, WalkAll(server, style, |whole|).result) == Clean
    ensures WalkAll(server, style, |whole|).finished
  {
    var w := WalkAll(server, style, |whole|);
    if AnswersCollections(server) {
      NoComplaintMeansFinished(server, style, |whole|, START);
    } else if !w.finished {
      CutWalkIsShort(server, style, |whole|, START);
      assert ToSet(whole) <= ToSet(w.result.order);
      SmallerSet(ToSet(whole), ToSet(w.result.order));
    }
  }

  lemma {:induction false} SmallerSet(a: set<string>, b: set<string>)
    requires a <= b
    ensures |a| <= |b|
  {
    assert b == a + (b - a);
  }

  /** What a clean verdict says of any server: nothing came twice, nothing is missing, no page was too
      long, and the walk ended by itself; from pages that hold only records of a collection without
      repeats, the order seen is a permutation of the collection. */
  lemma CleanMeansComplete(server: Server, style: Style, whole: seq<string>)
    requires AnswersCollections(server) || (whole != [] && NoRepeats(whole))
    requires Judge(whole, WalkAll(server, style, |whole|).result) == Clean
    ensures var w := WalkAll(server, style, |whole|);
            NoRepeats(w.result.order) && w.result.order == Concat(w.shown) && PagesFit(w.shown, PageSize(|whole|)) &&
            |w.sent| < MAX_PAGES && ToSet(whole) <= ToSet(w.result.order) &&
            (ToSet(w.result.order) <= ToSet(whole) && NoRepeats(whole) ==> multiset(w.result.order) == multiset(whole))
  {
    CleanMeansFinished(server, style, whole);
    WalkIsMeaningful(server, style, |whole|, START);
    var order := WalkAll(server, style, |whole|).result.order;
    assert forall key :: key in whole ==> key in order;
    if ToSet(order) <= ToSet(whole) && NoRepeats(whole) {
      assert ToSet(order) == ToSet(whole);
      OnceEach(order);
      OnceEach(whole);
      assert multiset(order) == multiset(ToSet(order));
    }
  }

  function CuttingServer(): (r: Server) {
    sent => if |sent| == 1 then Page(["a", "a"], None, None, None) else NoCollection
  }

  /** With repeats and an answer that is no collection it need not be: a walk over three records of one
      identity is cut after its first page, in which the identity came twice, and is clean. */
  lemma CutWalkCanBeClean()
    ensures var w := WalkAll(CuttingServer(), ByOffset, 3);
            Judge(["a", "a", "a"], w.result) == Clean && w.result.order == ["a", "a"] && !NoRepeats(w.result.order)
  {
    var server, first := CuttingServer(), [NextRequest(ByOffset, 3, START)];
    assert START.sent + first == first;
    WalkGoesOn(server, ByOffset, 3, START, first);
    var t := Read(START, server(first), first);
    assert ToSet(["a", "a"]) == {"a"};
    assert t.seen == {"a"} && t.order == ["a", "a"];
    var second := t.sent + [NextRequest(ByOffset, 3, t)];
    assert |second| == 2 && server(second) == NoCollection;
  }

  /** Without repeats, a sequence is its set with every element once. */
  lemma {:induction false} OnceEach(items: seq<string>)
    requires NoRepeats(items)
    ensures multiset(items) == multiset(ToSet(items))
    decreases |items|
  {
    if items != [] {
      var n := |items| - 1;
      var before, last := items[..n], items[n];
      assert items == before + [last];
      NoRepeatsNext(before, last);
      OnceEach(before);
      ToSetAppend(before, last);
      assert multiset(items) == multiset(before) + multiset{last};
    }
  }

  // ---- honest servers pass ---------------------------------------------------------------------------

  /** How an honest server is told which page to send: by an offset; by a page number counted from
      `base`, which the answer echoes unless it is zero; or by a cursor that spells the next position. */
  datatype Protocol = Offsets | Numbers(base: int, echo: bool) | Cursors(spell: nat -> string)

  ghost predicate Fits(protocol: Protocol, style: Style) {
    match protocol
    case Offsets => style.ByOffset?
    case Numbers(base, echo) => style.ByPage? && (echo || base == 0)
    case Cursors(spell) => forall m, n :: spell(m) == spell(n) ==> m == n
  }

  /** The request asks for the records from `o` on. */
  ghost predicate AsksFrom(protocol: Protocol, r: Request, o: nat) {
    match protocol
    case Offsets => o == if r.position.None? then 0 else r.position.value
    case Numbers(base, _) => o == if r.position.None? then 0 else (r.position.value - base) * r.limit
    case Cursors(spell) => if r.cursor.None? then o == 0 else r.cursor.value == spell(o)
  }

  function Slice(whole: seq<string>, o: nat, limit: nat): (r: seq<string>) {
    if o >= |whole| then [] else if o + limit >= |whole| then whole[o..] else whole[o..o + limit]
  }

  ghost predicate AnswersFrom(protocol: Protocol, whole: seq<string>, answer: Answer, o: nat, limit: nat) {
    answer.Page? && answer.items == Slice(whole, o, limit) &&
    (answer.total.Some? ==> answer.total.value == |whole|) &&
    match protocol
    case Offsets => answer.cursor.None?
    case Numbers(base, echo) =>
      answer.cursor.None? && (if echo then o == 0 ==> answer.page == Some(base) else answer.page.None?)
    case Cursors(spell) => answer.cursor == if o + limit < |whole| then Some(spell(o + limit)) else None
  }

  ghost predicate Honest(server: Server, protocol: Protocol, whole: seq<string>) {
    forall sent: seq<Request>, o: nat :: HonestAt(server, protocol, whole, sent, o)
  }

  ghost predicate HonestAt(server: Server, protocol: Protocol, whole: seq<string>, sent: seq<Request>, o: nat) {
    sent != [] && AsksFrom(protocol, sent[|sent| - 1], o) ==>
    AnswersFrom(protocol, whole, server(sent), o, sent[|sent| - 1].limit)
  }

  function Times(n: nat, size: nat): (r: nat) {
    if n == 0 then 0 else Times(n - 1, size) + size
  }

  lemma {:induction false} TimesIsProduct(n: nat, size: nat)
    ensures Times(n, size) == n * size
    decreases n
  {
    if n != 0 {
      TimesIsProduct(n - 1, size);
      assert (n - 1) * size + size == n * size;
    }
  }

  /** The walk stands before its page number `s.pages`, and has read all records before it. */
  ghost predicate OnTrack(protocol: Protocol, whole: seq<string>, s: State) {
    s.offset == Times(s.pages, PageSize(|whole|)) < |whole| && HasRead(whole, s, s.offset) && Expects(protocol, s)
  }

  ghost predicate HasRead(whole: seq<string>, s: State, o: nat) {
    s.order <= whole && |s.order| == o && s.seen == ToSet(s.order) && s.duplicates == [] && |s.sent| == s.pages &&
    (s.total.Some? ==> s.total.value == |whole|)
  }

  /** What the walk remembers is what the protocol needs for the next request. */
  ghost predicate Expects(protocol: Protocol, s: State) {
    match protocol
    case Offsets => s.cursor.None?
    case Numbers(base, echo) => s.cursor.None? && s.firstPage == if echo && s.pages > 0 then Some(base) else None
    case Cursors(spell) => s.cursor == if s.pages == 0 then None else Some(spell(s.offset))
  }

  lemma AsksForNextPage(protocol: Protocol, style: Style, whole: seq<string>, s: State)
    requires Fits(protocol, style) && OnTrack(protocol, whole, s)
    ensures AsksFrom(protocol, NextRequest(style, |whole|, s), s.offset)
  {
    TimesIsProduct(s.pages, PageSize(|whole|));
  }

  lemma MulMonotone(a: nat, b: nat, c: nat)
    requires a <= b
    ensures a * c <= b * c
  {
  }

  /** The page size, a tenth of the collection or two, keeps every collection within fifteen pages. */
  lemma BudgetOf(n: nat, pages: nat)
    requires n >= 3 && Times(pages, PageSize(n)) < n
    ensures pages < 15
  {
    var size := PageSize(n);
    TimesIsProduct(pages, size);
    assert n <= 15 * size by {
      if n >= 30 {
        assert size == n / 10;
        assert n <= 10 * size + 9;
      }
    }
    if pages >= 15 {
      MulMonotone(15, pages, size);
    }
  }

  /** What goes on without repeats is not noted as one. */
  lemma {:induction false} NothingToNote(order: seq<string>, items: seq<string>)
    requires NoRepeats(order + items)
    ensures Repeats(ToSet(order), items) == []
    decreases |items|
  {
    if items != [] {
      var longer := order + [items[0]];
      assert order + items == longer + items[1..];
      NoRepeatsBefore(longer, items[1..]);
      NoRepeatsNext(order, items[0]);
      ToSetAppend(order, items[0]);
      NothingToNote(longer, items[1..]);
    }
  }

  function PageLength(whole: seq<string>, o: nat, size: nat): (n: nat)
    requires o < |whole| && size > 0
    ensures 1 <= n <= size && o + n <= |whole| && (n < size ==> o + n == |whole|) && |Slice(whole, o, size)| == n
  {
    if o + size >= |whole| then |whole| - o else size
  }

  /** The next page continues what was read. */
  lemma SliceContinues(whole: seq<string>, order: seq<string>, size: nat)
    requires order <= whole && |order| < |whole|
    ensures order + Slice(whole, |order|, size) <= whole
  {
  }

  lemma {:induction false} ToSetJoins(a: seq<string>, b: seq<string>)
    ensures ToSet(a + b) == ToSet(a) + ToSet(b)
  {
  }

  lemma PrefixHasNoRepeats(order: seq<string>, whole: seq<string>)
    requires order <= whole && NoRepeats(whole)
    ensures NoRepeats(order)
  {
    assert whole == order + whole[|order|..];
    NoRepeatsBefore(order, whole[|order|..]);
  }

  lemma HonestPageIsRead(whole: seq<string>, s: State, o: nat, answer: Answer, n: nat, sent: seq<Request>)
    requires NoRepeats(whole) && o < |whole| && HasRead(whole, s, o) && |sent| == |s.sent| + 1
    requires n == PageLength(whole, o, PageSize(|whole|))
    requires answer.Page? && answer.items == Slice(whole, o, PageSize(|whole|))
    requires answer.total.Some? ==> answer.total.value == |whole|
    ensures HasRead(whole, Read(s, answer, sent), o + n) && |Read(s, answer, sent).seen| == o + n
  {
    SliceContinues(whole, s.order, PageSize(|whole|));
    PrefixHasNoRepeats(s.order + answer.items, whole);
    NothingToNote(s.order, answer.items);
    ToSetJoins(s.order, answer.items);
  }

  lemma ExpectsNext(protocol: Protocol, whole: seq<string>, s: State, answer: Answer, size: nat, sent: seq<Request>)
    requires Expects(protocol, s) && (s.pages == 0 ==> s.offset == 0)
    requires AnswersFrom(protocol, whole, answer, s.offset, size) && s.offset + size < |whole|
    ensures Expects(protocol, Read(s, answer, sent))
  {
  }

  lemma StopsAtEnd(protocol: Protocol, style: Style, whole: seq<string>, o: nat, n: nat, answer: Answer, t: State)
    requires Fits(protocol, style) && o < |whole| && n == PageLength(whole, o, PageSize(|whole|))
    requires AnswersFrom(protocol, whole, answer, o, PageSize(|whole|)) && t.cursor == answer.cursor &&
             |t.seen| == o + n
    ensures Stops(style, |whole|, answer.items, t) <==> o + n == |whole|
  {
  }

  lemma NextOnTrack(protocol: Protocol, whole: seq<string>, s: State, t: State)
    requires s.offset == Times(s.pages, PageSize(|whole|)) && t.pages == s.pages + 1
    requires t.offset == s.offset + PageSize(|whole|) < |whole| && HasRead(whole, t, t.offset) && Expects(protocol, t)
    ensures OnTrack(protocol, whole, t)
  {
  }

  ghost predicate PassedIn(whole: seq<string>, w: Walk) {
    w.finished && w.result.order == whole && w.result.complaint.None? &&
    (w.result.total.Some? ==> w.result.total.value == |whole|) &&
    1 <= |w.sent| <= 15 && Times(|w.sent| - 1, PageSize(|whole|)) < |whole| <= Times(|w.sent|, PageSize(|whole|))
  }

  lemma LastPagePasses(whole: seq<string>, s: State, t: State)
    requires s.offset == Times(s.pages, PageSize(|whole|)) < |whole| <= s.offset + PageSize(|whole|)
    requires s.pages < 15 && t.pages == s.pages + 1 && HasRead(whole, t, |whole|)
    ensures PassedIn(whole, Finish(t))
  {
    assert Times(t.pages, PageSize(|whole|)) == Times(s.pages, PageSize(|whole|)) + PageSize(|whole|);
  }

  lemma {:induction false} HonestWalk(server: Server, protocol: Protocol, style: Style, whole: seq<string>, s: State)
    requires |whole| >= 3 && NoRepeats(whole) && Fits(protocol, style) && Honest(server, protocol, whole)
    requires OnTrack(protocol, whole, s)
    ensures PassedIn(whole, WalkFrom(server, style, |whole|, s))
    decreases |whole| - s.offset
  {
    var sent := s.sent + [NextRequest(style, |whole|, s)];
    BudgetOf(|whole|, s.pages);
    HonestNextPage(server, protocol, style, whole, s, sent);
    var t := Read(s, server(sent), sent);
    WalkGoesOn(server, style, |whole|, s, sent);
    if Stops(style, |whole|, server(sent).items, t) {
      LastPagePasses(whole, s, t);
    } else {
      HonestWalk(server, protocol, style, whole, t);
    }
  }

  lemma HonestNextPage(server: Server, protocol: Protocol, style: Style, whole: seq<string>, s: State,
                       sent: seq<Request>)
    requires |whole| >= 3 && NoRepeats(whole) && Fits(protocol, style) && Honest(server, protocol, whole)
    requires OnTrack(protocol, whole, s) && sent == s.sent + [NextRequest(style, |whole|, s)]
    ensures var answer := server(sent);
            answer.Page? && |answer.items| <= PageSize(|whole|) &&
            (s.pages == 0 && answer.cursor.None? ==> !style.NoOffset?) &&
            var t := Read(s, answer, sent);
            var n := PageLength(whole, s.offset, PageSize(|whole|));
            HasRead(whole, t, s.offset + n) && t.offset == s.offset + n &&
            (Stops(style, |whole|, answer.items, t) <==> s.offset + n == |whole|) &&
            (s.offset + n < |whole| ==> OnTrack(protocol, whole, t))
  {
    AsksForNextPage(protocol, style, whole, s);
    assert sent[|sent| - 1] == NextRequest(style, |whole|, s);
    assert HonestAt(server, protocol, whole, sent, s.offset);
    var answer := server(sent);
    var n := PageLength(whole, s.offset, PageSize(|whole|));
    var t := Read(s, answer, sent);
    HonestPageIsRead(whole, s, s.offset, answer, n, sent);
    HonestPage(protocol, style, whole, s, answer, n, sent);
  }

  /** After an honest page the walk has everything and stops, or is on track for the next page. */
  lemma HonestPage(protocol: Protocol, style: Style, whole: seq<string>, s: State, answer: Answer, n: nat,
                   sent: seq<Request>)
    requires Fits(protocol, style) && OnTrack(protocol, whole, s) && n == PageLength(whole, s.offset, PageSize(|whole|))
    requires AnswersFrom(protocol, whole, answer, s.offset, PageSize(|whole|))
    requires HasRead(whole, Read(s, answer, sent), s.offset + n) && |Read(s, answer, sent).seen| == s.offset + n
    ensures Stops(style, |whole|, answer.items, Read(s, answer, sent)) <==> s.offset + n == |whole|
    ensures s.offset + n < |whole| ==> OnTrack(protocol, whole, Read(s, answer, sent))
  {
    var t := Read(s, answer, sent);
    StopsAtEnd(protocol, style, whole, s.offset, n, answer, t);
    if s.offset + n < |whole| {
      ExpectsNext(protocol, whole, s, answer, PageSize(|whole|), sent);
      NextOnTrack(protocol, whole, s, t);
    }
  }

  /** Against an honest server over a collection without repeats, of any size from three records on,
      the whole collection comes back in order, without a complaint, in as many requests as it has
      pages and never more than fifteen, and the verdict is clean. */
  lemma HonestServersPass(server: Server, protocol: Protocol, style: Style, whole: seq<string>)
    requires |whole| >= 3 && NoRepeats(whole) && Fits(protocol, style) && Honest(server, protocol, whole)
    ensures var w := WalkAll(server, style, |whole|);
            w.result.order == whole && Judge(whole, w.result) == Clean && |w.sent| <= 15 &&
            (|w.sent| - 1) * PageSize(|whole|) < |whole| <= |w.sent| * PageSize(|whole|)
  {
    assert ToSet([]) == {};
    HonestWalk(server, protocol, style, whole, START);
    var n := |WalkAll(server, style, |whole|).sent|;
    TimesIsProduct(n, PageSize(|whole|));
    TimesIsProduct(n - 1, PageSize(|whole|));
  }
}
