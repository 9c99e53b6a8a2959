/** Where Elasticsearch would report a clause (`_body_position` and `_key_position` in `backend/main.py`):
    a greedy search for the names of a dotted path, and the line and column of the place found. */
module BodyPosition {
  import opened Options
  import opened Text

  // ---- searching -----------------------------------------------------------------------------

  /** `text.find(part, from)` */
  function Find(text: string, part: string, from: nat): (r: Option<nat>)
    ensures r.Some? ==> from <= r.value && At(text, r.value, part)
    ensures r.Some? ==> forall k: nat :: from <= k < r.value ==> !At(text, k, part)
    ensures r.None? ==> forall k: nat :: from <= k ==> !At(text, k, part)
    decreases |text| - from
  {
    if from + |part| > |text| then None
    else if At(text, from, part) then Some(from)
    else Find(text, part, from + 1)
  }

  function Quoted(name: string): (r: string) {
    "\"" + name + "\""
  }

  /** The offset after the last name, each found after the one before it. */
  function Locate(text: string, names: seq<string>, from: nat): (r: Option<nat>)
    decreases |names|
  {
    if names == [] then Some(from)
    else
      var key := Find(text, Quoted(names[0]), from);
      if key.None? then None else Locate(text, names[1..], key.value + |names[0]| + 2)
  }

  /** The names stand in this order, without overlapping, at `places`. */
  ghost predicate StandAt(text: string, names: seq<string>, from: nat, places: seq<nat>)
    decreases |names|
  {
    |places| == |names| &&
    (names != [] ==>
       from <= places[0] && At(text, places[0], Quoted(names[0])) &&
       StandAt(text, names[1..], places[0] + |names[0]| + 2, places[1..]))
  }

  ghost predicate StandInOrder(text: string, names: seq<string>, from: nat) {
    exists places :: StandAt(text, names, from, places)
  }

  /** A search can start earlier without losing anything. */
  lemma StandEarlier(text: string, names: seq<string>, from: nat, earlier: nat, places: seq<nat>)
    requires StandAt(text, names, from, places) && earlier <= from
    ensures StandAt(text, names, earlier, places)
  {
  }

  /** The offset after the last name. */
  function EndOf(names: seq<string>, from: nat, places: seq<nat>): (r: nat)
    requires |places| == |names|
  {
    if names == [] then from else places[|places| - 1] + |names[|names| - 1]| + 2
  }

  lemma EndOfRest(names: seq<string>, from: nat, places: seq<nat>)
    requires |places| == |names| > 0
    ensures EndOf(names, from, places) == EndOf(names[1..], places[0] + |names[0]| + 2, places[1..])
  {
  }

  /** The greedy search is complete: whenever the names stand in order it finds them, and no later than
      anywhere they stand. */
  lemma {:induction false} GreedyIsComplete(text: string, names: seq<string>, from: nat, places: seq<nat>)
    requires StandAt(text, names, from, places)
    ensures Locate(text, names, from).Some? && Locate(text, names, from).value <= EndOf(names, from, places)
    decreases |names|
  {
    if names != [] {
      var key := Find(text, Quoted(names[0]), from);
      assert key.Some? && key.value <= places[0];
      var next := places[0] + |names[0]| + 2;
      var found := key.value + |names[0]| + 2;
      StandEarlier(text, names[1..], next, found, places[1..]);
      GreedyIsComplete(text, names[1..], found, places[1..]);
      EndOfRest(names, from, places);
      if names[1..] == [] {
        assert EndOf(names[1..], found, places[1..]) == found;
      }
    }
  }

  /** ... and what it finds is there. */
  lemma {:induction false} GreedyIsSound(text: string, names: seq<string>, from: nat) returns (places: seq<nat>)
    requires Locate(text, names, from).Some?
    ensures StandAt(text, names, from, places) && EndOf(names, from, places) == Locate(text, names, from).value
    decreases |names|
  {
    if names == [] {
      places := [];
    } else {
      var key := Find(text, Quoted(names[0]), from).value;
      var rest := GreedyIsSound(text, names[1..], key + |names[0]| + 2);
      places := [key] + rest;
      assert places[1..] == rest;
      EndOfRest(names, from, places);
    }
  }

  lemma {:induction false} FoundInside(text: string, names: seq<string>, from: nat)
    requires Locate(text, names, from).Some? && from <= |text|
    ensures from <= Locate(text, names, from).value <= |text|
    ensures names != [] ==> Locate(text, names, from).value >= from + 2
    decreases |names|
  {
    if names != [] {
      var key := Find(text, Quoted(names[0]), from).value;
      FoundInside(text, names[1..], key + |names[0]| + 2);
    }
  }

  // ---- lines and columns --------------------------------------------------------------------------

  /** How many newlines stand before `offset`. */
  function NewlinesBefore(text: string, offset: nat): (n: nat)
    requires offset <= |text|
  {
    if offset == 0 then 0 else NewlinesBefore(text, offset - 1) + if text[offset - 1] == '\n' then 1 else 0
  }

  /** `text.rfind("\n", 0, offset)` */
  function LastNewline(text: string, offset: nat): (r: int)
    requires offset <= |text|
    ensures -1 <= r < offset && (r >= 0 ==> text[r] == '\n')
    ensures forall k :: r < k < offset ==> text[k] != '\n'
  {
    if offset == 0 then -1 else if text[offset - 1] == '\n' then offset - 1 else LastNewline(text, offset - 1)
  }

  /** Line and column of an offset, both counted from one. */
  function LineCol(text: string, offset: nat): (r: (nat, nat))
    requires offset <= |text|
    ensures r.0 >= 1 && r.1 >= 1
  {
    (NewlinesBefore(text, offset) + 1, offset - LastNewline(text, offset))
  }

  /** Where line `line`, counted from one, begins when reading on from `i`. */
  function LineStart(text: string, i: nat, line: int): (r: nat)
    requires i <= |text|
    decreases |text| - i
  {
    if line <= 1 || i == |text| then i
    else LineStart(text, i + 1, if text[i] == '\n' then line - 1 else line)
  }

  /** The offset a line and column stand for. */
  function OffsetOf(text: string, position: (nat, nat)): (r: int) {
    LineStart(text, 0, position.0) + position.1 - 1
  }

  lemma {:induction false} NewlinesGrow(text: string, i: nat, j: nat)
    requires i <= j <= |text|
    ensures NewlinesBefore(text, i) <= NewlinesBefore(text, j)
    ensures (forall k :: i <= k < j ==> text[k] != '\n') ==> NewlinesBefore(text, i) == NewlinesBefore(text, j)
    decreases j - i
  {
    if i < j {
      NewlinesGrow(text, i, j - 1);
    }
  }

  /** Reading on from `i` to the line that begins at `start`. */
  lemma {:induction false} LineStartIs(text: string, i: nat, start: nat)
    requires i <= start <= |text| && (start == 0 || text[start - 1] == '\n')
    ensures LineStart(text, i, NewlinesBefore(text, start) - NewlinesBefore(text, i) + 1) == start
    decreases start - i
  {
    if i < start {
      NewlinesGrow(text, i + 1, start);
      NewlinesGrow(text, i, start - 1);
      LineStartIs(text, i + 1, start);
    }
  }

  /** A line and column lead back to the one offset they were made from. */
  lemma PositionDecodes(text: string, offset: nat)
    requires offset <= |text|
    ensures OffsetOf(text, LineCol(text, offset)) == offset
  {
    var start := LastNewline(text, offset) + 1;
    NewlinesGrow(text, start, offset);
    LineStartIs(text, 0, start);
  }

  // ---- _body_position -------------------------------------------------------------------------------

  predicate IsSeparator(c: char) {
    c == ':' || c == ' ' || c == '\t' || c == '\r' || c == '\n'
  }

  /** The first character at or after `offset` that is not a separator. */
  function SkipSeparators(text: string, offset: nat): (r: nat)
    requires offset <= |text|
    ensures offset <= r <= |text| && (r < |text| ==> !IsSeparator(text[r]))
    ensures forall k :: offset <= k < r ==> IsSeparator(text[k])
    decreases |text| - offset
  {
    if offset < |text| && IsSeparator(text[offset]) then SkipSeparators(text, offset + 1) else offset
  }

  /** Where the parser stood: the offset that is reported, if the clause is there. */
  function Stood(text: string, names: seq<string>, atEnd: bool): (r: Option<nat>)
    ensures r.Some? ==> r.value <= |text|
    ensures r.Some? && names != [] ==> r.value >= 2
  {
    var end := Locate(text, names, 0);
    if end.None? then None
    else
      FoundInside(text, names, 0);
      var offset := SkipSeparators(text, end.value);
      var closing := Find(text, "}", offset);
      if atEnd && closing.Some? then assert closing.value + 1 <= |text|; closing else Some(offset)
  }

  function Position(text: string, clause: string, atEnd: bool): (r: (nat, nat)) {
    var at := Stood(text, Split(clause, '.'), atEnd);
    if at.None? then (1, 1) else LineCol(text, at.value)
  }

  /** The loops as the handler runs them. */
  method ReportPosition(text: string, clause: string, atEnd: bool) returns (r: (nat, nat))
    ensures r == Position(text, clause, atEnd)
  {
    var names := Split(clause, '.');
    var offset: nat := 0;
    for i := 0 to |names|
      invariant offset <= |text|
      invariant Locate(text, names[i..], offset) == Locate(text, names, 0)
    {
      assert names[i..][1..] == names[i + 1..];
      var key := Find(text, Quoted(names[i]), offset);
      if key.None? {
        return (1, 1);
      }
      offset := key.value + |names[i]| + 2;
    }
    ghost var end := offset;
    while offset < |text| && IsSeparator(text[offset])
      invariant end <= offset <= |text|
      invariant SkipSeparators(text, offset) == SkipSeparators(text, end)
    {
      offset := offset + 1;
    }
    if atEnd {
      var closing := Find(text, "}", offset);
      if closing.Some? {
        assert closing.value + |"}"| <= |text|;
        offset := closing.value;
      }
    }
    r := LineCol(text, offset);
  }

  /** The report is (1, 1) exactly when the quoted names do not stand in order without overlap. */
  lemma UnfoundExactly(text: string, clause: string, atEnd: bool)
    ensures Position(text, clause, atEnd) == (1, 1) <==> !StandInOrder(text, Split(clause, '.'), 0)
  {
    var names := Split(clause, '.');
    if places :| StandAt(text, names, 0, places) {
      GreedyIsComplete(text, names, 0, places);
      var at := Stood(text, names, atEnd).value;
      PositionDecodes(text, at);
      assert LineStart(text, 0, 1) == 0;
    } else if Locate(text, names, 0).Some? {
      var places := GreedyIsSound(text, names, 0);
    }
  }

  /** Otherwise it leads back to the first character after the earliest such names that is not a
      separator, or with `atEnd` to the first closing brace from there. */
  lemma FoundExactly(text: string, clause: string, atEnd: bool)
    requires StandInOrder(text, Split(clause, '.'), 0)
    ensures exists places, offset: nat ::
              Earliest(text, Split(clause, '.'), places) &&
              FirstAfter(text, EndOf(Split(clause, '.'), 0, places), offset) &&
              ReportedFrom(text, offset, atEnd, OffsetOf(text, Position(text, clause, atEnd)))
  {
    var names := Split(clause, '.');
    var some :| StandAt(text, names, 0, some);
    GreedyIsComplete(text, names, 0, some);
    var places := GreedyIsSound(text, names, 0);
    forall other | StandAt(text, names, 0, other) ensures EndOf(names, 0, places) <= EndOf(names, 0, other) {
      GreedyIsComplete(text, names, 0, other);
    }
    assert Earliest(text, names, places);
    FoundInside(text, names, 0);
    var offset := SkipSeparators(text, EndOf(names, 0, places));
    PositionDecodes(text, Stood(text, names, atEnd).value);
    assert FirstAfter(text, EndOf(names, 0, places), offset);
    var closing := Find(text, "}", offset);
    ClosingBrace(text, offset, closing);
    assert ReportedFrom(text, offset, atEnd, OffsetOf(text, Position(text, clause, atEnd)));
  }

  /** The names stand at `places`, and end nowhere earlier. */
  ghost predicate Earliest(text: string, names: seq<string>, places: seq<nat>) {
    StandAt(text, names, 0, places) &&
    forall other :: StandAt(text, names, 0, other) ==> EndOf(names, 0, places) <= EndOf(names, 0, other)
  }

  ghost predicate FirstAfter(text: string, end: nat, offset: nat) {
    end <= offset <= |text| && (offset < |text| ==> !IsSeparator(text[offset])) &&
    forall k :: end <= k < offset ==> IsSeparator(text[k])
  }

  /** `at` is `offset`, or the first `}` from there when it is asked for and there is one. */
  ghost predicate ReportedFrom(text: string, offset: nat, atEnd: bool, at: int) {
    if atEnd && (exists k :: offset <= k < |text| && text[k] == '}')
    then offset <= at < |text| && text[at] == '}' && forall k :: offset <= k < at ==> text[k] != '}'
    else at == offset
  }

  lemma ClosingBrace(text: string, offset: nat, closing: Option<nat>)
    requires closing == Find(text, "}", offset)
    ensures closing.Some? ==> offset <= closing.value < |text| && text[closing.value] == '}'
    ensures closing.Some? ==> forall k :: offset <= k < closing.value ==> text[k] != '}'
    ensures closing.None? ==> forall k :: offset <= k < |text| ==> text[k] != '}'
  {
    forall k: nat | k < |text| ensures At(text, k, "}") <==> text[k] == '}' {
      AtChar(text, k, '}');
    }
    if closing.Some? {
      AtChar(text, closing.value, '}');
    }
  }

  // ---- _key_position --------------------------------------------------------------------------------

  /** Line and column of the field name itself. */
  function KeyPosition(text: string, clause: string): (r: (nat, nat)) {
    var key := Find(text, Quoted(clause), 0);
    if key.None? then (1, 1)
    else (NewlinesBefore(text, key.value) + 1, key.value - (LastNewline(text, key.value) + 1) + 1)
  }

  /** When the name is there, the position leads back to where it first stands. */
  lemma KeyPositionDecodes(text: string, clause: string, k: nat)
    requires At(text, k, Quoted(clause))
    ensures var at := OffsetOf(text, KeyPosition(text, clause));
            0 <= at <= k && At(text, at, Quoted(clause)) && forall j: nat :: j < at ==> !At(text, j, Quoted(clause))
  {
    PositionDecodes(text, Find(text, Quoted(clause), 0).value);
  }
}
