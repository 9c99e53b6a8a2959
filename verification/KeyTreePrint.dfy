/** The recovery parser undoes a pretty-printer that puts one key on a line, whichever commas the text
    keeps and whatever it shows for the scalars. */
module KeyTreePrint {
  import opened Options
  import opened Json
  import opened Text
  import opened Observation
  import opened KeyTree

  /** An example as the documentation shows it: the text of a scalar is opaque, and each value says
      whether a comma follows it. */
  datatype Doc =
    | Atom(text: string, comma: bool)
    | Dict(fields: seq<Field>, comma: bool)
    | List(items: seq<Doc>, comma: bool)

  datatype Field = Field(key: string, value: Doc)

  predicate IsKey(key: string) {
    key != "" && '"' !in key
  }

  /** A scalar's text does not start like a container, nor end one. */
  predicate IsAtomText(text: string) {
    IsTrimmed(text) && (text != "" ==> text[0] !in {'{', '[', '}', ']'})
  }

  /** Lists hold scalars only, or non-empty objects only. */
  predicate Printable(doc: Doc) {
    match doc
    case Atom(text, _) => IsAtomText(text)
    case Dict(fields, _) => forall i :: 0 <= i < |fields| ==> IsKey(fields[i].key) && Printable(fields[i].value)
    case List(items, _) =>
      (forall i :: 0 <= i < |items| ==> Printable(items[i])) &&
      ((forall i :: 0 <= i < |items| ==> items[i].Atom?) ||
       (forall i :: 0 <= i < |items| ==> items[i].Dict? && items[i].fields != []))
  }

  // ---- the printer ------------------------------------------------------------------

  function Comma(doc: Doc): (r: string) {
    if doc.comma then "," else ""
  }

  /** `rest` on a line of its own, after `"key":` when there is a key. */
  function Line(margin: string, key: string, rest: string): (r: string) {
    margin + (if key == "" then rest else "\"" + key + "\":" + (if rest == "" then "" else " " + rest))
  }

  /** `pad` is what one level of nesting indents by. */
  function Print(doc: Doc, key: string, margin: string, pad: string): (r: seq<string>)
    decreases doc, 1
  {
    match doc
    case Atom(text, _) => [Line(margin, key, text + Comma(doc))]
    case Dict(fields, _) =>
      if fields == [] then [Line(margin, key, "{}" + Comma(doc))]
      else
        [Line(margin, key, "{")] + PrintFields(doc, |fields|, margin + pad, pad) + [Line(margin, "", "}" + Comma(doc))]
    case List(items, _) =>
      if items == [] then [Line(margin, key, "[]" + Comma(doc))]
      else [Line(margin, key, "[")] + PrintItems(doc, |items|, margin + pad, pad) + [Line(margin, "", "]" + Comma(doc))]
  }

  function PrintFields(doc: Doc, n: nat, margin: string, pad: string): (r: seq<string>)
    requires doc.Dict? && n <= |doc.fields|
    decreases doc, 0, n
  {
    if n == 0 then []
    else PrintFields(doc, n - 1, margin, pad) + Print(doc.fields[n - 1].value, doc.fields[n - 1].key, margin, pad)
  }

  function PrintItems(doc: Doc, n: nat, margin: string, pad: string): (r: seq<string>)
    requires doc.List? && n <= |doc.items|
    decreases doc, 0, n
  {
    if n == 0 then [] else PrintItems(doc, n - 1, margin, pad) + Print(doc.items[n - 1], "", margin, pad)
  }

  // ---- what the text shows --------------------------------------------------------------

  /** The value the example stands for; of two fields with one key the later wins. */
  function Value(doc: Doc): (r: Json)
    decreases doc, 1
  {
    match doc
    case Atom(text, _) => Str(text)
    case Dict(fields, _) => Obj(FieldValues(doc, |fields|))
    case List(items, _) => Arr(seq(|items|, i requires 0 <= i < |items| => Value(items[i])))
  }

  function FieldValues(doc: Doc, n: nat): (r: map<string, Json>)
    requires doc.Dict? && n <= |doc.fields|
    decreases doc, 0, n
  {
    if n == 0 then map[] else FieldValues(doc, n - 1)[doc.fields[n - 1].key := Value(doc.fields[n - 1].value)]
  }

  /** The tree of its keys: scalars blank, and a list of scalars empty. */
  function Keys(doc: Doc): (r: Json)
    decreases doc, 1
  {
    match doc
    case Atom(_, _) => Str("")
    case Dict(fields, _) => Obj(FieldTrees(doc, |fields|))
    case List(_, _) => Arr(ItemTrees(doc, |doc.items|))
  }

  function FieldTrees(doc: Doc, n: nat): (r: map<string, Json>)
    requires doc.Dict? && n <= |doc.fields|
    decreases doc, 0, n
  {
    if n == 0 then map[] else FieldTrees(doc, n - 1)[doc.fields[n - 1].key := Keys(doc.fields[n - 1].value)]
  }

  function ItemTrees(doc: Doc, n: nat): (r: seq<Json>)
    requires doc.List? && n <= |doc.items|
    decreases doc, 0, n
  {
    if n == 0 then []
    else ItemTrees(doc, n - 1) + (if doc.items[n - 1].Atom? then [] else [Keys(doc.items[n - 1])])
  }

  // ---- reading one printed line ------------------------------------------------------------

  lemma {:induction false} IndexOfFirst(before: string, c: char, after: string)
    requires c !in before
    ensures IndexOf(before + [c] + after, c) == |before|
  {
    var s := before + [c] + after;
    if before != "" {
      assert s[1..] == before[1..] + [c] + after;
      IndexOfFirst(before[1..], c, after);
    }
  }

  lemma KeyLineParts(key: string, value: string)
    requires IsKey(key)
    ensures KeyLine("\"" + key + "\":" + value) == Some((key, SkipBlanks(value)))
  {
    var line := "\"" + key + "\":" + value;
    var tail := ":" + value;
    var t := key + ['"'] + tail;
    assert line[1..] == t;
    IndexOfFirst(key, '"', tail);
    assert t[..|key|] == key;
    assert t[|key| + 1..] == tail;
    assert SkipBlanks(tail) == tail;
    assert tail[1..] == value;
  }

  lemma SkipOneBlank(rest: string)
    requires IsTrimmed(rest)
    ensures SkipBlanks(rest) == rest && SkipBlanks(" " + rest) == rest
  {
    assert (" " + rest)[1..] == rest;
  }

  lemma KeyLineIsRead(key: string, rest: string)
    requires IsKey(key) && IsTrimmed(rest)
    ensures KeyLine(Line("", key, rest)) == Some((key, rest))
    ensures IsTrimmed(Line("", key, rest))
  {
    var value := if rest == "" then "" else " " + rest;
    assert Line("", key, rest) == "\"" + key + "\":" + value;
    KeyLineParts(key, value);
    SkipOneBlank(rest);
  }

  lemma ReadKeyLine(margin: string, key: string, rest: string)
    requires AllBlank(margin) && IsKey(key) && IsTrimmed(rest)
    ensures KeyLine(Strip(Line(margin, key, rest))) == Some((key, rest))
  {
    KeyLineIsRead(key, rest);
    var line := Line("", key, rest);
    StripOver(margin, line, "");
    assert margin + line + "" == Line(margin, key, rest);
  }

  lemma ReadPlainLine(margin: string, rest: string)
    requires AllBlank(margin) && IsTrimmed(rest)
    ensures Strip(Line(margin, "", rest)) == rest
  {
    StripOver(margin, rest, "");
    assert margin + rest + "" == Line(margin, "", rest);
  }

  lemma TrimRightLast(s: string)
    requires s != "" && !IsBlank(s[|s| - 1])
    ensures TrimRight(s) == s
  {
  }

  lemma EmptyContainerIsClosed(open: char, close: char, comma: string)
    requires open != close && open != ',' && close != ',' && !IsBlank(open) && !IsBlank(close) && comma in {"", ","}
    ensures !StaysOpen([open, close] + comma, open, close)
    ensures StaysOpen([open], open, close)
  {
    var rest := [open, close] + comma;
    TrimRightLast(rest);
    if comma == "," {
      assert rest[..2] == [open, close];
      TrimRightLast([open, close]);
      assert Count([close] + comma, close) == 1 + Count(comma, close);
    }
    assert rest[1..] == [close] + comma;
    assert ([close] + comma)[1..] == comma;
    assert Count(comma, open) == 0 && Count(comma, close) == 0;
    assert Count([close] + comma, open) == 0 && Count([close] + comma, close) == 1;
    TrimRightLast([open]);
  }

  // ---- what a stretch of lines does to the containers ----------------------------------------

  /** The stack is back where it was, and no older container but the open one was touched. */
  ghost predicate OnlyTop(before: State, after: State)
    requires before.Valid() && after.Valid()
  {
    after.stack == before.stack && |after.cells| >= |before.cells| &&
    (forall j :: 0 <= j < |before.cells| && j != before.Top() ==> after.cells[j] == before.cells[j]) &&
    after.cells[before.Top()].DictCell? == before.cells[before.Top()].DictCell?
  }

  ghost function DictAt(st: State): (r: map<string, Json>)
    requires st.Valid() && st.cells[st.Top()].DictCell?
  {
    Tree(st.cells, st.Top()).members
  }

  ghost function ListAt(st: State): (r: seq<Json>)
    requires st.Valid() && st.cells[st.Top()].ListCell?
  {
    Tree(st.cells, st.Top()).items
  }

  lemma BlankKeyIsAdded(st: State, key: string)
    requires st.Valid() && st.cells[st.Top()].DictCell?
    ensures OnlyTop(st, BlankKey(st, key))
    ensures DictAt(BlankKey(st, key)) == DictAt(st)[key := Str("")]
  {
    var r := BlankKey(st, key);
    var slots := st.cells[st.Top()].slots;
    assert CellOrdered(st.cells, st.Top());
    forall k | k in slots && slots[k].At? ensures Tree(r.cells, slots[k].cell) == Tree(st.cells, slots[k].cell) {
      TreeIsStable(st.cells, r.cells, slots[k].cell);
    }
  }

  /** A container entered under `key` and filled by lines that touch nothing older. */
  lemma FilledKeyIsAdded(st: State, key: string, made: Cell, filled: State, r: State)
    requires st.Valid() && st.cells[st.Top()].DictCell? && made in {DictCell(map[]), ListCell([])}
    requires filled.Valid() && OnlyTop(OpenKey(st, key, made, true), filled)
    requires r == State(filled.cells, st.stack)
    ensures r.Valid() && OnlyTop(st, r)
    ensures DictAt(r) == DictAt(st)[key := Tree(filled.cells, |st.cells|)]
  {
    var entered := OpenKey(st, key, made, true);
    assert entered.Top() == |st.cells|;
    var slots := st.cells[st.Top()].slots;
    assert CellOrdered(st.cells, st.Top());
    forall k | k in slots && slots[k].At? ensures Tree(r.cells, slots[k].cell) == Tree(st.cells, slots[k].cell) {
      TreeIsStable(st.cells, r.cells, slots[k].cell);
    }
    assert r.cells[st.Top()].slots == slots[key := At(|st.cells|)];
  }

  lemma ClosedKeyIsAdded(st: State, key: string, made: Cell)
    requires st.Valid() && st.cells[st.Top()].DictCell? && made in {DictCell(map[]), ListCell([])}
    ensures OnlyTop(st, OpenKey(st, key, made, false))
    ensures DictAt(OpenKey(st, key, made, false)) == DictAt(st)[key := if made.DictCell? then Obj(map[]) else Arr([])]
  {
    var entered := OpenKey(st, key, made, true);
    FilledKeyIsAdded(st, key, made, entered, OpenKey(st, key, made, false));
    FreshContainer(entered.cells, |st.cells|);
  }

  lemma FreshContainer(cells: seq<Cell>, i: nat)
    requires Ordered(cells) && i < |cells| && cells[i] in {DictCell(map[]), ListCell([])}
    ensures Tree(cells, i) == if cells[i].DictCell? then Obj(map[]) else Arr([])
  {
    if cells[i].DictCell? {
      assert Tree(cells, i).members == map[];
    }
  }

  lemma FilledItemIsAdded(st: State, filled: State, r: State)
    requires st.Valid() && st.cells[st.Top()].ListCell?
    requires filled.Valid() && OnlyTop(OpenItem(st), filled)
    requires r == State(filled.cells, st.stack)
    ensures r.Valid() && OnlyTop(st, r)
    ensures ListAt(r) == ListAt(st) + [Tree(filled.cells, |st.cells|)]
  {
    var items := st.cells[st.Top()].items;
    assert CellOrdered(st.cells, st.Top());
    forall j | 0 <= j < |items| ensures Tree(r.cells, items[j]) == Tree(st.cells, items[j]) {
      TreeIsStable(st.cells, r.cells, items[j]);
    }
    assert r.cells[st.Top()].items == items + [|st.cells|];
  }

  // ---- the steps -------------------------------------------------------------------------------

  predicate IsMargin(margin: string, pad: string) {
    AllBlank(margin) && AllBlank(pad)
  }

  lemma StepKey(st: State, margin: string, key: string, rest: string)
    requires st.Valid() && st.cells[st.Top()].DictCell?
    requires AllBlank(margin) && IsKey(key) && IsTrimmed(rest)
    ensures Step(st, Line(margin, key, rest)) ==
            if rest != "" && rest[0] == '{' then OpenKey(st, key, DictCell(map[]), StaysOpen(rest, '{', '}'))
            else if rest != "" && rest[0] == '[' then OpenKey(st, key, ListCell([]), StaysOpen(rest, '[', ']'))
            else BlankKey(st, key)
  {
    ReadKeyLine(margin, key, rest);
  }

  lemma NoKeyLine(rest: string)
    requires rest != "" && rest[0] != '"'
    ensures KeyLine(rest) == None
  {
  }

  lemma StepClose(st: State, margin: string, rest: string)
    requires st.Valid() && AllBlank(margin) && IsTrimmed(rest)
    requires rest != "" && rest[0] in {'}', ']'}
    ensures Step(st, Line(margin, "", rest)) ==
            if |st.stack| > 1 then st.(stack := st.stack[..|st.stack| - 1]) else st
  {
    ReadPlainLine(margin, rest);
    NoKeyLine(rest);
  }

  lemma StepBrace(st: State, margin: string)
    requires st.Valid() && AllBlank(margin)
    ensures Step(st, Line(margin, "", "{")) == if st.cells[st.Top()].ListCell? then OpenItem(st) else st
  {
    ReadPlainLine(margin, "{");
    NoKeyLine("{");
  }

  lemma StepAtomItem(st: State, margin: string, doc: Doc)
    requires st.Valid() && st.cells[st.Top()].ListCell? && AllBlank(margin) && doc.Atom? && Printable(doc)
    ensures Step(st, Line(margin, "", doc.text + Comma(doc))) == st
  {
    ReadPlainLine(margin, doc.text + Comma(doc));
  }

  lemma RunOne(st: State, line: string)
    requires st.Valid()
    ensures Run(st, [line]) == Step(st, line)
  {
    assert [line][1..] == [];
    assert Run(Step(st, line), []) == Step(st, line);
  }

  /** A bracketed stretch: the opening line, the lines between, the closing line. */
  lemma RunBracketed(st: State, open: string, between: seq<string>, close: string)
    requires st.Valid()
    ensures Run(st, [open] + between + [close]) == Step(Run(Step(st, open), between), close)
  {
    RunConcat(st, [open] + between, [close]);
    RunConcat(st, [open], between);
    RunOne(st, open);
    RunOne(Run(Step(st, open), between), close);
  }

  // ---- the parser undoes the printer --------------------------------------------------------------

  lemma OnlyTopTransitive(a: State, b: State, c: State)
    requires a.Valid() && b.Valid() && c.Valid() && OnlyTop(a, b) && OnlyTop(b, c)
    ensures OnlyTop(a, c)
  {
  }

  lemma {:induction false} ReadField(st: State, doc: Doc, key: string, margin: string, pad: string)
    requires st.Valid() && st.cells[st.Top()].DictCell?
    requires Printable(doc) && IsKey(key) && IsMargin(margin, pad)
    ensures OnlyTop(st, Run(st, Print(doc, key, margin, pad)))
    ensures DictAt(Run(st, Print(doc, key, margin, pad))) == DictAt(st)[key := Keys(doc)]
    decreases doc, 2
  {
    if doc.Atom? {
      RunOne(st, Line(margin, key, doc.text + Comma(doc)));
      StepKey(st, margin, key, doc.text + Comma(doc));
      BlankKeyIsAdded(st, key);
    } else if (doc.Dict? && doc.fields == []) || (doc.List? && doc.items == []) {
      ReadEmpty(st, doc, key, margin, pad);
    } else if doc.Dict? {
      ReadDict(st, doc, key, margin, pad);
    } else {
      ReadList(st, doc, key, margin, pad);
    }
  }

  lemma {:induction false} ReadDict(st: State, doc: Doc, key: string, margin: string, pad: string)
    requires st.Valid() && st.cells[st.Top()].DictCell?
    requires Printable(doc) && IsKey(key) && IsMargin(margin, pad)
    requires doc.Dict? && doc.fields != []
    ensures OnlyTop(st, Run(st, Print(doc, key, margin, pad)))
    ensures DictAt(Run(st, Print(doc, key, margin, pad))) == DictAt(st)[key := Keys(doc)]
    decreases doc, 1
  {
    var entered := OpenKey(st, key, DictCell(map[]), true);
    var between := PrintFields(doc, |doc.fields|, margin + pad, pad);
    assert Step(st, Line(margin, key, "{")) == entered by {
      StepKey(st, margin, key, "{");
      EmptyContainerIsClosed('{', '}', "");
    }
    RunBracketed(st, Line(margin, key, "{"), between, Line(margin, "", "}" + Comma(doc)));
    ReadFields(entered, doc, |doc.fields|, margin + pad, pad);
    CloseFilled(st, key, DictCell(map[]), Run(entered, between), margin, "}" + Comma(doc));
  }

  lemma {:induction false} ReadList(st: State, doc: Doc, key: string, margin: string, pad: string)
    requires st.Valid() && st.cells[st.Top()].DictCell?
    requires Printable(doc) && IsKey(key) && IsMargin(margin, pad)
    requires doc.List? && doc.items != []
    ensures OnlyTop(st, Run(st, Print(doc, key, margin, pad)))
    ensures DictAt(Run(st, Print(doc, key, margin, pad))) == DictAt(st)[key := Keys(doc)]
    decreases doc, 1
  {
    var entered := OpenKey(st, key, ListCell([]), true);
    var between := PrintItems(doc, |doc.items|, margin + pad, pad);
    assert Step(st, Line(margin, key, "[")) == entered by {
      StepKey(st, margin, key, "[");
      EmptyContainerIsClosed('[', ']', "");
    }
    RunBracketed(st, Line(margin, key, "["), between, Line(margin, "", "]" + Comma(doc)));
    ReadItems(entered, doc, |doc.items|, margin + pad, pad);
    CloseFilled(st, key, ListCell([]), Run(entered, between), margin, "]" + Comma(doc));
  }

  lemma CloseFilled(st: State, key: string, made: Cell, filled: State, margin: string, rest: string)
    requires st.Valid() && st.cells[st.Top()].DictCell? && made in {DictCell(map[]), ListCell([])}
    requires filled.Valid() && OnlyTop(OpenKey(st, key, made, true), filled)
    requires AllBlank(margin) && IsTrimmed(rest) && rest != "" && rest[0] in {'}', ']'}
    ensures var r := Step(filled, Line(margin, "", rest));
            OnlyTop(st, r) && DictAt(r) == DictAt(st)[key := Tree(filled.cells, |st.cells|)]
  {
    StepClose(filled, margin, rest);
    assert filled.stack[..|filled.stack| - 1] == st.stack;
    FilledKeyIsAdded(st, key, made, filled, State(filled.cells, st.stack));
  }

  lemma ReadEmpty(st: State, doc: Doc, key: string, margin: string, pad: string)
    requires st.Valid() && st.cells[st.Top()].DictCell?
    requires IsKey(key) && IsMargin(margin, pad)
    requires (doc.Dict? && doc.fields == []) || (doc.List? && doc.items == [])
    ensures OnlyTop(st, Run(st, Print(doc, key, margin, pad)))
    ensures DictAt(Run(st, Print(doc, key, margin, pad))) == DictAt(st)[key := Keys(doc)]
  {
    var rest := (if doc.Dict? then "{}" else "[]") + Comma(doc);
    RunOne(st, Line(margin, key, rest));
    StepKey(st, margin, key, rest);
    EmptyContainerIsClosed('{', '}', Comma(doc));
    EmptyContainerIsClosed('[', ']', Comma(doc));
    ClosedKeyIsAdded(st, key, if doc.Dict? then DictCell(map[]) else ListCell([]));
  }

  lemma PrintableField(doc: Doc, i: nat)
    requires doc.Dict? && Printable(doc) && i < |doc.fields|
    ensures Printable(doc.fields[i].value) && IsKey(doc.fields[i].key)
  {
  }

  lemma {:induction false} ReadFields(st: State, doc: Doc, n: nat, margin: string, pad: string)
    requires st.Valid() && st.cells[st.Top()] == DictCell(map[])
    requires doc.Dict? && Printable(doc) && n <= |doc.fields| && IsMargin(margin, pad)
    ensures OnlyTop(st, Run(st, PrintFields(doc, n, margin, pad)))
    ensures DictAt(Run(st, PrintFields(doc, n, margin, pad))) == FieldTrees(doc, n)
    decreases doc, 0, n
  {
    if n == 0 {
      FreshContainer(st.cells, st.Top());
    } else {
      var f := doc.fields[n - 1];
      PrintableField(doc, n - 1);
      ReadFields(st, doc, n - 1, margin, pad);
      ReadNextField(st, Run(st, PrintFields(doc, n - 1, margin, pad)), f.value, f.key, margin, pad);
      RunConcat(st, PrintFields(doc, n - 1, margin, pad), Print(f.value, f.key, margin, pad));
    }
  }

  lemma {:induction false} ReadNextField(st: State, mid: State, doc: Doc, key: string, margin: string, pad: string)
    requires st.Valid() && st.cells[st.Top()].DictCell? && mid.Valid() && OnlyTop(st, mid)
    requires Printable(doc) && IsKey(key) && IsMargin(margin, pad)
    ensures OnlyTop(st, Run(mid, Print(doc, key, margin, pad)))
    ensures DictAt(Run(mid, Print(doc, key, margin, pad))) == DictAt(mid)[key := Keys(doc)]
    decreases doc, 3
  {
    ReadField(mid, doc, key, margin, pad);
    OnlyTopTransitive(st, mid, Run(mid, Print(doc, key, margin, pad)));
  }

  lemma {:induction false} ReadItems(st: State, doc: Doc, n: nat, margin: string, pad: string)
    requires st.Valid() && st.cells[st.Top()] == ListCell([])
    requires doc.List? && Printable(doc) && n <= |doc.items| && IsMargin(margin, pad)
    ensures OnlyTop(st, Run(st, PrintItems(doc, n, margin, pad)))
    ensures ListAt(Run(st, PrintItems(doc, n, margin, pad))) == ItemTrees(doc, n)
    decreases doc, 0, n
  {
    if n == 0 {
      FreshContainer(st.cells, st.Top());
    } else {
      ReadItems(st, doc, n - 1, margin, pad);
      var item := doc.items[n - 1];
      ReadNextItem(st, Run(st, PrintItems(doc, n - 1, margin, pad)), item, margin, pad);
      RunConcat(st, PrintItems(doc, n - 1, margin, pad), Print(item, "", margin, pad));
    }
  }

  lemma {:induction false} ReadNextItem(st: State, mid: State, item: Doc, margin: string, pad: string)
    requires st.Valid() && st.cells[st.Top()].ListCell? && mid.Valid() && OnlyTop(st, mid)
    requires Printable(item) && (item.Atom? || (item.Dict? && item.fields != [])) && IsMargin(margin, pad)
    ensures OnlyTop(st, Run(mid, Print(item, "", margin, pad)))
    ensures ListAt(Run(mid, Print(item, "", margin, pad))) == ListAt(mid) + if item.Atom? then [] else [Keys(item)]
    decreases item, 2
  {
    ReadItem(mid, item, margin, pad);
    OnlyTopTransitive(st, mid, Run(mid, Print(item, "", margin, pad)));
  }

  lemma {:induction false} ReadItem(st: State, item: Doc, margin: string, pad: string)
    requires st.Valid() && st.cells[st.Top()].ListCell?
    requires Printable(item) && (item.Atom? || (item.Dict? && item.fields != [])) && IsMargin(margin, pad)
    ensures OnlyTop(st, Run(st, Print(item, "", margin, pad)))
    ensures ListAt(Run(st, Print(item, "", margin, pad))) == ListAt(st) + if item.Atom? then [] else [Keys(item)]
    decreases item, 1
  {
    if item.Atom? {
      RunOne(st, Line(margin, "", item.text + Comma(item)));
      StepAtomItem(st, margin, item);
    } else {
      var entered := OpenItem(st);
      var between := PrintFields(item, |item.fields|, margin + pad, pad);
      StepBrace(st, margin);
      RunBracketed(st, Line(margin, "", "{"), between, Line(margin, "", "}" + Comma(item)));
      ReadFields(entered, item, |item.fields|, margin + pad, pad);
      var filled := Run(entered, between);
      StepClose(filled, margin, "}" + Comma(item));
      FilledItemIsAdded(st, filled, State(filled.cells, st.stack));
      assert filled.stack[..|filled.stack| - 1] == st.stack;
    }
  }

  /** `_key_tree` of a printed object is the tree of its keys. */
  lemma PrintedIsRecovered(doc: Doc, pad: string)
    requires doc.Dict? && Printable(doc) && AllBlank(pad)
    ensures Recovered(Print(doc, "", "", pad)) == Keys(doc)
  {
    if doc.fields == [] {
      EmptyIsRecovered(doc, pad);
    } else {
      FilledIsRecovered(doc, pad);
    }
  }

  lemma EmptyIsRecovered(doc: Doc, pad: string)
    requires doc.Dict? && doc.fields == []
    ensures Recovered(Print(doc, "", "", pad)) == Keys(doc)
  {
    var rest := "{}" + Comma(doc);
    ReadPlainLine("", rest);
    NoKeyLine(rest);
    assert Step(START, Line("", "", rest)) == START;
    RunOne(START, Line("", "", rest));
    FreshContainer(START.cells, 0);
  }

  lemma FilledIsRecovered(doc: Doc, pad: string)
    requires doc.Dict? && doc.fields != [] && Printable(doc) && AllBlank(pad)
    ensures Recovered(Print(doc, "", "", pad)) == Keys(doc)
  {
    var between := PrintFields(doc, |doc.fields|, "" + pad, pad);
    StepBrace(START, "");
    RunBracketed(START, Line("", "", "{"), between, Line("", "", "}" + Comma(doc)));
    ReadFields(START, doc, |doc.fields|, "" + pad, pad);
    StepClose(Run(START, between), "", "}" + Comma(doc));
  }

  // ---- the recovered tree carries the example's paths --------------------------------------------

  /** Under every key, the tree and the value come from one and the same part of the example. */
  lemma {:induction false} FieldOrigin(doc: Doc, n: nat, k: string) returns (i: nat)
    requires doc.Dict? && n <= |doc.fields| && (k in FieldTrees(doc, n) || k in FieldValues(doc, n))
    ensures k in FieldTrees(doc, n) && k in FieldValues(doc, n) && i < n
    ensures FieldTrees(doc, n)[k] == Keys(doc.fields[i].value) && FieldValues(doc, n)[k] == Value(doc.fields[i].value)
    decreases n
  {
    if doc.fields[n - 1].key == k {
      i := n - 1;
    } else {
      i := FieldOrigin(doc, n - 1, k);
    }
  }

  lemma {:induction false} ItemsAlign(doc: Doc, n: nat)
    requires doc.List? && n <= |doc.items| && forall i :: 0 <= i < |doc.items| ==> doc.items[i].Dict?
    ensures |ItemTrees(doc, n)| == n && forall i :: 0 <= i < n ==> ItemTrees(doc, n)[i] == Keys(doc.items[i])
    decreases n
  {
    if n != 0 {
      ItemsAlign(doc, n - 1);
    }
  }

  lemma {:induction false} AtomsVanish(doc: Doc, n: nat)
    requires doc.List? && n <= |doc.items| && forall i :: 0 <= i < |doc.items| ==> doc.items[i].Atom?
    ensures ItemTrees(doc, n) == []
    decreases n
  {
    if n != 0 {
      AtomsVanish(doc, n - 1);
    }
  }

  lemma {:induction false} KeysCarryPaths(doc: Doc, prefix: string, depth: nat)
    requires Printable(doc)
    ensures Observed(Keys(doc), prefix, depth, DOC_SAMPLE) == Observed(Value(doc), prefix, depth, DOC_SAMPLE)
    decreases doc, 2
  {
    if doc.Dict? {
      DictCarriesPaths(doc, prefix, depth);
    } else if doc.List? {
      ListCarriesPaths(doc, prefix, depth);
    }
  }

  lemma {:induction false} DictCarriesPaths(doc: Doc, prefix: string, depth: nat)
    requires Printable(doc) && doc.Dict?
    ensures Observed(Keys(doc), prefix, depth, DOC_SAMPLE) == Observed(Value(doc), prefix, depth, DOC_SAMPLE)
    decreases doc, 0
  {
    var tree, value := Keys(doc), Value(doc);
    var n := |doc.fields|;
    forall k | k in tree.members || k in value.members
      ensures k in tree.members && k in value.members
      ensures ObservedMember(tree, k, prefix, depth, DOC_SAMPLE) == ObservedMember(value, k, prefix, depth, DOC_SAMPLE)
    {
      var i := FieldOrigin(doc, n, k);
      PrintableField(doc, i);
      KeysCarryPaths(doc.fields[i].value, prefix + k + ".", depth + 1);
    }
    assert tree.members.Keys == value.members.Keys;
    assert ObservedMembers(tree, tree.members.Keys, prefix, depth, DOC_SAMPLE)
        == ObservedMembers(value, value.members.Keys, prefix, depth, DOC_SAMPLE);
  }

  lemma {:induction false} ListCarriesPaths(doc: Doc, prefix: string, depth: nat)
    requires Printable(doc) && doc.List?
    ensures Observed(Keys(doc), prefix, depth, DOC_SAMPLE) == Observed(Value(doc), prefix, depth, DOC_SAMPLE)
    decreases doc, 1
  {
    if forall i :: 0 <= i < |doc.items| ==> doc.items[i].Atom? {
      AtomsShowNothing(doc, prefix, depth);
    } else {
      ObjectsCarryPaths(doc, prefix, depth);
    }
  }

  lemma AtomsShowNothing(doc: Doc, prefix: string, depth: nat)
    requires doc.List? && forall i :: 0 <= i < |doc.items| ==> doc.items[i].Atom?
    ensures Observed(Keys(doc), prefix, depth, DOC_SAMPLE) == {} == Observed(Value(doc), prefix, depth, DOC_SAMPLE)
  {
    var value, n := Value(doc), |doc.items|;
    AtomsVanish(doc, n);
    assert ObservedItems(Keys(doc), 0, prefix, depth, DOC_SAMPLE) == {};
    forall i: nat | i < n ensures ObservedItem(value, i, prefix, depth, DOC_SAMPLE) == {} {
      assert value.items[i] == Value(doc.items[i]);
    }
    assert ObservedItems(value, n, prefix, depth, DOC_SAMPLE) == {};
  }

  lemma {:induction false} ObjectsCarryPaths(doc: Doc, prefix: string, depth: nat)
    requires Printable(doc) && doc.List? && forall i :: 0 <= i < |doc.items| ==> doc.items[i].Dict?
    ensures Observed(Keys(doc), prefix, depth, DOC_SAMPLE) == Observed(Value(doc), prefix, depth, DOC_SAMPLE)
    decreases doc, 0
  {
    var tree, value, n := Keys(doc), Value(doc), |doc.items|;
    ItemsAlign(doc, n);
    forall i: nat | i < n
      ensures ObservedItem(tree, i, prefix, depth, DOC_SAMPLE) == ObservedItem(value, i, prefix, depth, DOC_SAMPLE)
    {
      assert Printable(doc.items[i]);
      KeysCarryPaths(doc.items[i], ListPrefix(prefix), depth + 1);
    }
    assert ObservedItems(tree, n, prefix, depth, DOC_SAMPLE) == ObservedItems(value, n, prefix, depth, DOC_SAMPLE);
  }

  /** Reading a printed example back, line by line, loses none of its paths and invents none. */
  lemma RecoveredCarriesPaths(doc: Doc, pad: string)
    requires doc.Dict? && Printable(doc) && AllBlank(pad)
    ensures Observed(Recovered(Print(doc, "", "", pad)), "", 0, DOC_SAMPLE) == Observed(Value(doc), "", 0, DOC_SAMPLE)
  {
    PrintedIsRecovered(doc, pad);
    KeysCarryPaths(doc, "", 0);
  }
}
