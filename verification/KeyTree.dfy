/** The line-wise recovery parser of `scripts/mde_docs_spec.py`: a tree of keys from an example that need
    not be valid JSON.

    The parser fills dictionaries and lists in place and keeps the open ones on a stack. Here the
    containers live in `cells`, and the stack and the dictionaries refer to them by index, as the
    script's variables refer to objects. */
module KeyTree {
  import opened Options
  import opened Json
  import opened Text

  // ---- containers -------------------------------------------------------------------

  datatype Slot = Blank | At(cell: nat)
  datatype Cell = DictCell(slots: map<string, Slot>) | ListCell(items: seq<nat>)

  /** Containers are created after the container that holds them. */
  predicate Ordered(cells: seq<Cell>) {
    forall i :: 0 <= i < |cells| ==> CellOrdered(cells, i)
  }

  predicate CellOrdered(cells: seq<Cell>, i: nat)
    requires i < |cells|
  {
    match cells[i]
    case DictCell(slots) => forall k :: k in slots && slots[k].At? ==> i < slots[k].cell < |cells|
    case ListCell(items) => forall j :: 0 <= j < |items| ==> i < items[j] < |cells|
  }

  /** The value a container stands for. */
  function Tree(cells: seq<Cell>, i: nat): (r: Json)
    requires Ordered(cells) && i < |cells|
    decreases |cells| - i
  {
    assert CellOrdered(cells, i);
    match cells[i]
    case DictCell(slots) => Obj(map k | k in slots :: if slots[k].At? then Tree(cells, slots[k].cell) else Str(""))
    case ListCell(items) => Arr(seq(|items|, j requires 0 <= j < |items| => Tree(cells, items[j])))
  }

  /** A container reads the same as long as the containers made after it are unchanged. */
  lemma {:induction false} TreeIsStable(before: seq<Cell>, after: seq<Cell>, i: nat)
    requires Ordered(before) && Ordered(after) && i < |before| <= |after|
    requires forall j :: i <= j < |before| ==> after[j] == before[j]
    ensures Tree(after, i) == Tree(before, i)
    decreases |before| - i
  {
    assert CellOrdered(before, i);
    match before[i]
    case DictCell(slots) =>
      forall k | k in slots && slots[k].At? ensures Tree(after, slots[k].cell) == Tree(before, slots[k].cell) {
        TreeIsStable(before, after, slots[k].cell);
      }
      assert Tree(after, i).members == Tree(before, i).members;
    case ListCell(items) =>
      forall j | 0 <= j < |items| ensures Tree(after, items[j]) == Tree(before, items[j]) {
        TreeIsStable(before, after, items[j]);
      }
      assert Tree(after, i).items == Tree(before, i).items;
  }

  // ---- the parser ---------------------------------------------------------------------

  datatype State = State(cells: seq<Cell>, stack: seq<nat>)
  {
    predicate Valid() {
      Ordered(cells) && stack != [] && forall i :: 0 <= i < |stack| ==> stack[i] < |cells|
    }

    function Top(): (r: nat)
      requires Valid()
      ensures r < |cells|
    {
      stack[|stack| - 1]
    }
  }

  const START := State([DictCell(map[])], [0])

  /** The pattern `"([^"]+)"\s*:\s*(.*)$`. */
  function KeyLine(line: string): (r: Option<(string, string)>) {
    if line == "" || line[0] != '"' then None
    else
      var t := line[1..];
      var j := IndexOf(t, '"');
      if j == 0 || j == |t| then None
      else
        var u := SkipBlanks(t[j + 1..]);
        if u == "" || u[0] != ':' then None else Some((t[..j], SkipBlanks(u[1..])))
  }

  /** The pattern `c\s*,?\s*$` found in `rest`. */
  predicate Closes(rest: string, c: char) {
    var r := TrimRight(rest);
    var s := if r != "" && r[|r| - 1] == ',' then TrimRight(r[..|r| - 1]) else r;
    s != "" && s[|s| - 1] == c
  }

  function Count(s: string, c: char): (n: nat) {
    if s == "" then 0 else (if s[0] == c then 1 else 0) + Count(s[1..], c)
  }

  /** The value of a key starts a container that later lines fill. */
  predicate StaysOpen(rest: string, open: char, close: char) {
    !Closes(rest, close) || Count(rest, open) > Count(rest, close)
  }

  function AddKey(st: State, key: string, slot: Slot): (r: State)
    requires st.Valid() && st.cells[st.Top()].DictCell?
    requires slot.At? ==> slot.cell == |st.cells|
  {
    var top := st.Top();
    st.(cells := st.cells[top := DictCell(st.cells[top].slots[key := slot])])
  }

  /** A new container under `key` of the open dictionary. */
  function OpenKey(st: State, key: string, made: Cell, push: bool): (r: State)
    requires st.Valid() && st.cells[st.Top()].DictCell? && made in {DictCell(map[]), ListCell([])}
    ensures r.Valid()
  {
    var n := |st.cells|;
    var s := AddKey(st, key, At(n));
    var r := State(s.cells + [made], if push then st.stack + [n] else st.stack);
    AddedKeepsOrder(st.cells, r.cells, st.Top());
    r
  }

  lemma AddedKeepsOrder(before: seq<Cell>, after: seq<Cell>, top: nat)
    requires Ordered(before) && top < |before| && |after| == |before| + 1
    requires forall i :: 0 <= i < |before| && i != top ==> after[i] == before[i]
    requires after[|before|] in {DictCell(map[]), ListCell([])}
    requires match before[top]
             case DictCell(slots) =>
               after[top].DictCell? &&
               (forall k :: k in after[top].slots ==>
                  after[top].slots[k] == At(|before|) || (k in slots && after[top].slots[k] == slots[k]))
             case ListCell(items) => after[top] == ListCell(items + [|before|])
    ensures Ordered(after)
  {
    forall i | 0 <= i < |after| ensures CellOrdered(after, i) {
      if i < |before| {
        assert CellOrdered(before, i);
      }
    }
  }

  /** One line of the text. */
  function Step(st: State, raw: string): (r: State)
    requires st.Valid()
    ensures r.Valid()
  {
    var line := Strip(raw);
    var top := st.Top();
    match KeyLine(line)
    case Some((key, rest)) =>
      if st.cells[top].ListCell? then st
      else if rest != "" && rest[0] == '{' then OpenKey(st, key, DictCell(map[]), StaysOpen(rest, '{', '}'))
      else if rest != "" && rest[0] == '[' then OpenKey(st, key, ListCell([]), StaysOpen(rest, '[', ']'))
      else BlankKey(st, key)
    case None =>
      if line != "" && line[0] == '{' then
        if st.cells[top].ListCell? then OpenItem(st) else st
      else if line != "" && (line[0] == '}' || line[0] == ']') && |st.stack| > 1 then
        st.(stack := st.stack[..|st.stack| - 1])
      else st
  }

  function BlankKey(st: State, key: string): (r: State)
    requires st.Valid() && st.cells[st.Top()].DictCell?
    ensures r.Valid()
  {
    var r := AddKey(st, key, Blank);
    BlankKeepsOrder(st.cells, r.cells, st.Top());
    r
  }

  lemma BlankKeepsOrder(before: seq<Cell>, after: seq<Cell>, top: nat)
    requires Ordered(before) && top < |before| == |after| && before[top].DictCell? && after[top].DictCell?
    requires forall i :: 0 <= i < |before| && i != top ==> after[i] == before[i]
    requires forall k :: k in after[top].slots && after[top].slots[k].At? ==>
               k in before[top].slots && after[top].slots[k] == before[top].slots[k]
    ensures Ordered(after)
  {
    forall i | 0 <= i < |after| ensures CellOrdered(after, i) {
      assert CellOrdered(before, i);
    }
  }

  /** A new dictionary at the end of the open list. */
  function OpenItem(st: State): (r: State)
    requires st.Valid() && st.cells[st.Top()].ListCell?
    ensures r.Valid()
  {
    var top := st.Top();
    var n := |st.cells|;
    var r := State(st.cells[top := ListCell(st.cells[top].items + [n])] + [DictCell(map[])], st.stack + [n]);
    AddedKeepsOrder(st.cells, r.cells, top);
    r
  }

  function Run(st: State, lines: seq<string>): (r: State)
    requires st.Valid()
    ensures r.Valid()
    decreases |lines|
  {
    if lines == [] then st else Run(Step(st, lines[0]), lines[1..])
  }

  lemma {:induction false} RunConcat(st: State, a: seq<string>, b: seq<string>)
    requires st.Valid()
    ensures Run(st, a + b) == Run(Run(st, a), b)
    decreases |a|
  {
    if a == [] {
      assert a + b == b;
    } else {
      assert (a + b)[1..] == a[1..] + b;
      RunConcat(Step(st, a[0]), a[1..], b);
    }
  }

  /** `_key_tree` on the lines of a text. */
  function Recovered(lines: seq<string>): (r: Json) {
    var st := Run(START, lines);
    RunKeepsRoot(START, lines);
    Tree(st.cells, 0)
  }

  lemma {:induction false} RunKeepsRoot(st: State, lines: seq<string>)
    requires st.Valid()
    ensures |Run(st, lines).cells| >= |st.cells|
    decreases |lines|
  {
    if lines != [] {
      RunKeepsRoot(Step(st, lines[0]), lines[1..]);
    }
  }

  method Recover(lines: seq<string>) returns (root: Json)
    ensures root == Recovered(lines)
  {
    var st := START;
    for i := 0 to |lines|
      invariant st.Valid() && |st.cells| >= 1
      invariant Run(st, lines[i..]) == Run(START, lines)
    {
      assert lines[i..][1..] == lines[i + 1..];
      RunKeepsRoot(st, [lines[i]]);
      st := Step(st, lines[i]);
    }
    root := Tree(st.cells, 0);
  }
}
